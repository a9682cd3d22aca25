/** Pools of small integer ids kept as bit sets: the four linear scans of the agent share this shape. */
module IdPools {

  /** The ids whose bit is set. */
  ghost function SetBits(bits: seq<bool>): set<nat> {
    set i: nat | i < |bits| && bits[i]
  }

  /** The lowest id in lo..hi that is not in use, or hi when there is none. */
  ghost function LowestFree(used: set<nat>, lo: nat, hi: nat): (id: nat)
    requires lo <= hi
    ensures lo <= id <= hi
    ensures id < hi ==> id !in used
    ensures forall j: nat | lo <= j < id :: j in used
    decreases hi - lo, used
  {
    if lo == hi || lo !in used then lo else LowestFree(used, lo + 1, hi)
  }

  /** Up to n of the lowest ids in lo..hi that are not in use, ascending. */
  ghost function LowestFreeIds(used: set<nat>, lo: nat, hi: nat, n: nat): (ids: seq<nat>)
    requires lo <= hi
    decreases hi - lo, used
  {
    if lo == hi || n == 0 then []
    else if lo in used then LowestFreeIds(used, lo + 1, hi, n)
    else [lo] + LowestFreeIds(used, lo + 1, hi, n - 1)
  }

  ghost predicate Ascending(ids: seq<nat>) {
    forall i, j | 0 <= i < j < |ids| :: ids[i] < ids[j]
  }

  ghost function Elements(ids: seq<nat>): set<nat> {
    set i | i in ids
  }

  /** A scan hands out distinct unused ids, and falls short only when every id is taken. */
  lemma {:induction false} LowestFreeIdsSound(used: set<nat>, lo: nat, hi: nat, n: nat)
    requires lo <= hi
    ensures |LowestFreeIds(used, lo, hi, n)| <= n
    ensures Ascending(LowestFreeIds(used, lo, hi, n))
    ensures forall i | i in LowestFreeIds(used, lo, hi, n) :: lo <= i < hi && i !in used
    ensures |LowestFreeIds(used, lo, hi, n)| < n ==>
              forall j: nat | lo <= j < hi :: j in used || j in LowestFreeIds(used, lo, hi, n)
    decreases hi - lo
  {
    if lo == hi || n == 0 {
    } else if lo in used {
      LowestFreeIdsSound(used, lo + 1, hi, n);
    } else {
      LowestFreeIdsSound(used, lo + 1, hi, n - 1);
      var rest := LowestFreeIds(used, lo + 1, hi, n - 1);
      AscendingPrepend(lo, rest);
    }
  }

  /** How many ids from lo up to id are not in use. */
  function CountFree(used: set<nat>, lo: nat, id: nat): nat
    decreases id - lo
  {
    if id <= lo then 0 else (if lo in used then 0 else 1) + CountFree(used, lo + 1, id)
  }

  /** An id is handed out exactly if it is free and fewer than n lower ones are. */
  lemma {:induction false} InLowestFreeIds(used: set<nat>, lo: nat, hi: nat, n: nat, id: nat)
    requires lo <= hi
    ensures id in LowestFreeIds(used, lo, hi, n) <==> lo <= id < hi && id !in used && CountFree(used, lo, id) < n
    decreases hi - lo
  {
    if lo < hi && n > 0 {
      if lo in used {
        InLowestFreeIds(used, lo + 1, hi, n, id);
      } else {
        InLowestFreeIds(used, lo + 1, hi, n - 1, id);
        InPrepended(lo, LowestFreeIds(used, lo + 1, hi, n - 1), id);
      }
    }
  }

  lemma {:induction false} OneLowestFreeId(used: set<nat>, lo: nat, hi: nat)
    requires lo <= hi
    ensures LowestFreeIds(used, lo, hi, 1) == if LowestFree(used, lo, hi) == hi then [] else [LowestFree(used, lo, hi)]
    decreases hi - lo
  {
    if lo < hi && lo in used {
      OneLowestFreeId(used, lo + 1, hi);
    }
  }

  lemma InPrepended(x: nat, rest: seq<nat>, id: nat)
    ensures id in [x] + rest <==> id == x || id in rest
  {
  }

  lemma AscendingPrepend(x: nat, rest: seq<nat>)
    requires Ascending(rest)
    requires forall i | i in rest :: x < i
    ensures Ascending([x] + rest)
  {
    var ids := [x] + rest;
    forall i, j | 0 <= i < j < |ids|
      ensures ids[i] < ids[j]
    {
      assert ids[j] == rest[j - 1] && rest[j - 1] in rest;
    }
  }

  ghost function Below(n: nat): (s: set<nat>)
    ensures forall i: nat :: i in s <==> i < n
    ensures |s| == n
  {
    if n == 0 then {} else Below(n - 1) + {n - 1}
  }

  lemma SomeElement<T>(s: set<T>) returns (x: T)
    requires s != {}
    ensures x in s
  {
    x :| x in s;
  }

  ghost predicate IsLeast(s: set<int>, w: int) {
    w in s && forall v | v in s :: w <= v
  }

  lemma {:induction false} LeastExists(s: set<int>) returns (w: int)
    requires s != {}
    ensures IsLeast(s, w)
  {
    w := SomeElement(s);
    var rest := s - {w};
    assert s == rest + {w};
    if rest != {} {
      var v := LeastExists(rest);
      w := if v < w then v else w;
    }
  }

  lemma SubsetSize<T>(a: set<T>, b: set<T>)
    requires a <= b
    ensures |a| <= |b|
  {
    assert b == a + (b - a);
  }

  /** First fit: a fresh id never exceeds the number of ids in use. */
  lemma LowestFreeBound(used: set<nat>, hi: nat)
    ensures LowestFree(used, 0, hi) <= |used|
  {
    var id := LowestFree(used, 0, hi);
    assert Below(id) <= used;
    SubsetSize(Below(id), used);
  }

  lemma BoundedSetSize(s: set<nat>, n: nat)
    requires forall i | i in s :: i < n
    ensures |s| <= n
    ensures |s| == n <==> forall i: nat | i < n :: i in s
  {
    SubsetSize(s, Below(n));
    if i: nat :| i < n && i !in s {
      SubsetSize(s + {i}, Below(n));
    } else {
      assert s == Below(n);
    }
  }

  /** First fit fails exactly when every id of the pool is in use. */
  lemma LowestFreeExhausted(used: set<nat>, hi: nat)
    requires forall i | i in used :: i < hi
    ensures LowestFree(used, 0, hi) == hi <==> |used| == hi
  {
    BoundedSetSize(used, hi);
  }

  lemma SetBitsUpdate(bits: seq<bool>, i: nat, b: bool)
    requires i < |bits|
    ensures SetBits(bits[i := b]) == if b then SetBits(bits) + {i} else SetBits(bits) - {i}
  {
  }

  /** Sets one bit. */
  method Mark(bits: array<bool>, id: nat)
    requires id < bits.Length
    modifies bits
    ensures SetBits(bits[..]) == SetBits(old(bits[..])) + {id}
  {
    SetBitsUpdate(bits[..], id, true);
    bits[id] := true;
    assert bits[..] == old(bits[..])[id := true];
  }

  /** Scans for the first clear bit from lo, sets it and returns its index; the array's length when all are set. */
  method TakeLowest(bits: array<bool>, lo: nat) returns (id: nat)
    requires lo <= bits.Length
    modifies bits
    ensures id == LowestFree(SetBits(old(bits[..])), lo, bits.Length)
    ensures id < bits.Length ==> SetBits(bits[..]) == SetBits(old(bits[..])) + {id}
    ensures id == bits.Length ==> bits[..] == old(bits[..])
  {
    id := lo;
    while id < bits.Length
      invariant lo <= id <= bits.Length
      invariant bits[..] == old(bits[..])
      invariant LowestFree(SetBits(bits[..]), lo, bits.Length) == LowestFree(SetBits(bits[..]), id, bits.Length)
    {
      if !bits[id] {
        Mark(bits, id);
        return;
      }
      id := id + 1;
    }
  }

  /** Sets one bit and tells whether it was clear. */
  method MarkIfClear(bits: array<bool>, id: nat) returns (marked: bool)
    requires id < bits.Length
    modifies bits
    ensures marked <==> id !in SetBits(old(bits[..]))
    ensures SetBits(bits[..]) == SetBits(old(bits[..])) + {id}
  {
    marked := !bits[id];
    if marked {
      Mark(bits, id);
    }
  }

  /** One step of a scan that has found ids and has id to look at. */
  lemma ScanStep(used: set<nat>, ids: seq<nat>, id: nat, hi: nat, n: nat)
    requires id < hi && |ids| < n
    ensures var found := if id in used then ids else ids + [id];
            ids + LowestFreeIds(used, id, hi, n - |ids|) == found + LowestFreeIds(used, id + 1, hi, n - |found|)
    ensures Elements(ids + [id]) == Elements(ids) + {id}
  {
    if id !in used {
      var rest := LowestFreeIds(used, id + 1, hi, n - |ids| - 1);
      assert ids + ([id] + rest) == ids + [id] + rest;
    }
  }

  /** One scan from lo that sets up to n clear bits and returns their indices. */
  method TakeLowestMany(bits: array<bool>, lo: nat, n: nat) returns (ids: seq<nat>)
    requires lo <= bits.Length
    modifies bits
    ensures ids == LowestFreeIds(SetBits(old(bits[..])), lo, bits.Length, n)
    ensures SetBits(bits[..]) == SetBits(old(bits[..])) + Elements(ids)
  {
    ghost var before := SetBits(bits[..]);
    ids := [];
    var id := lo;
    while id < bits.Length && |ids| < n
      invariant lo <= id <= bits.Length && |ids| <= n
      invariant LowestFreeIds(before, lo, bits.Length, n) == ids + LowestFreeIds(before, id, bits.Length, n - |ids|)
      invariant SetBits(bits[..]) == before + Elements(ids)
      invariant forall i | i in Elements(ids) :: i < id
    {
      ScanStep(before, ids, id, bits.Length, n);
      var marked := MarkIfClear(bits, id);
      if marked {
        ids := ids + [id];
      }
      id := id + 1;
    }
  }

  /** Clears one bit; an index beyond the pool is ignored. */
  method Release(bits: array<bool>, id: nat)
    modifies bits
    ensures SetBits(bits[..]) == SetBits(old(bits[..])) - {id}
  {
    if id < bits.Length {
      SetBitsUpdate(bits[..], id, false);
      bits[id] := false;
      assert bits[..] == old(bits[..])[id := false];
    }
  }
}
