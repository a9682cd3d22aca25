/** From the pbit maps and priorities of a tech profile's queues to a queue mapping profile (agent/src/core_utils.cc). */
module QueueProfiles {

  const TMQ_MAP_PROFILE_SIZE: nat := 8
  const QUEUE_ID_LIST: seq<nat> := [0, 1, 2, 3, 4, 5, 6, 7]

  /** The queue for each of the eight priority bits. */
  type Profile = p: seq<nat> | |p| == 8 witness [0, 0, 0, 0, 0, 0, 0, 0]

  datatype ProfileResult = Mapped(profile: Profile) | OutOfRange

  function Reversed(s: string): (r: string)
    ensures |r| == |s|
    ensures forall k | 0 <= k < |s| :: r[k] == s[|s| - 1 - k]
  {
    seq(|s|, k requires 0 <= k < |s| => s[|s| - 1 - k])
  }

  /** A pbit map as the loops read it: without its two-character prefix, lowest bit first. */
  function Readable(pbits: string): string {
    Reversed(if |pbits| < 2 then [] else pbits[2..])
  }

  /** Some queue bit is set in a prefixed map, so that the priority of its queue is looked at. */
  ghost predicate HasSomeBit(pbits: string) {
    exists j: nat :: HasBit(pbits, j)
  }

  /** Binary digit j of a prefixed map, counted from the right, is 1. */
  predicate HasBit(pbits: string, j: nat) {
    j + 2 < |pbits| && pbits[|pbits| - 1 - j] == '1'
  }

  lemma ReadableBit(pbits: string, j: nat)
    ensures HasBit(pbits, j) <==> j < |Readable(pbits)| && Readable(pbits)[j] == '1'
  {
    if 2 <= |pbits| && j < |pbits| - 2 {
      var digits := pbits[2..];
      assert Readable(pbits)[j] == digits[|digits| - 1 - j] == pbits[|pbits| - 1 - j];
    }
  }

  /** The last of the first n queues whose map has bit j set, -1 if there is none. */
  function LastWithBit(maps: seq<string>, j: nat, n: nat): (i: int)
    requires n <= |maps|
    ensures -1 <= i < n
    ensures i >= 0 ==> HasBit(maps[i], j)
    ensures forall k | i < k < n :: !HasBit(maps[k], j)
  {
    if n == 0 then -1 else if HasBit(maps[n - 1], j) then n - 1 else LastWithBit(maps, j, n - 1)
  }

  /** What the profile must hold for bit j after the first n queues. */
  function WantedQueue(maps: seq<string>, priorities: seq<nat>, j: nat, n: nat): nat
    requires n <= |maps| == |priorities|
  {
    var i := LastWithBit(maps, j, n);
    if i == -1 then 0 else priorities[i]
  }

  ghost predicate FitsProfile(maps: seq<string>, n: nat)
    requires n <= |maps|
  {
    forall i, j: nat | 0 <= i < n && HasBit(maps[i], j) :: j < TMQ_MAP_PROFILE_SIZE
  }

  /** Erases the prefix of every map and reverses it, in place. */
  method GetValidQueuesPbitMap(maps: array<string>)
    modifies maps
    ensures forall i | 0 <= i < maps.Length :: maps[i] == Readable(old(maps[i]))
  {
    var i := 0;
    while i < maps.Length
      invariant i <= maps.Length
      invariant forall k | 0 <= k < i :: maps[k] == Readable(old(maps[k]))
      invariant forall k | i <= k < maps.Length :: maps[k] == old(maps[k])
    {
      maps[i] := if |maps[i]| < 2 then [] else maps[i][2..];
      maps[i] := Reversed(maps[i]);
      i := i + 1;
    }
  }

  /**
   * Erase-and-reverse followed by the nested loops: bit j of the profile holds the priority of the last queue whose
   * map has bit j set, 0 if none has. A bit beyond the eighth makes the bounds-checked write throw.
   */
  method BuildProfile(maps: array<string>, priorities: seq<nat>) returns (result: ProfileResult)
    requires |priorities| == maps.Length
    requires forall i | 0 <= i < |priorities| && HasSomeBit(maps[i]) :: priorities[i] < 8
    modifies maps
    ensures result.Mapped? <==> FitsProfile(old(maps[..]), maps.Length)
    ensures result.Mapped? ==>
              forall j | 0 <= j < 8 :: result.profile[j] == WantedQueue(old(maps[..]), priorities, j, maps.Length)
  {
    ghost var original := maps[..];
    GetValidQueuesPbitMap(maps);
    result := GetTmqMapProfile(maps[..], priorities, original);
  }

  /** The profile after queue i, from the one before it. */
  lemma OneMoreQueue(original: seq<string>, priorities: seq<nat>, digits: string, i: nat, before: Profile, after: Profile)
    requires i < |original| == |priorities| && digits == Readable(original[i])
    requires forall j | 0 <= j < 8 :: before[j] == WantedQueue(original, priorities, j, i)
    requires forall j | 0 <= j < 8 :: after[j] == if j < |digits| && digits[j] == '1' then priorities[i] else before[j]
    requires FitsProfile(original, i) && forall j | 8 <= j < |digits| :: digits[j] != '1'
    ensures forall j | 0 <= j < 8 :: after[j] == WantedQueue(original, priorities, j, i + 1)
    ensures FitsProfile(original, i + 1)
  {
    forall j: nat
      ensures HasBit(original[i], j) <==> j < |digits| && digits[j] == '1'
    {
      ReadableBit(original[i], j);
    }
  }

  method GetTmqMapProfile(maps: seq<string>, priorities: seq<nat>, ghost original: seq<string>)
    returns (result: ProfileResult)
    requires |priorities| == |maps| == |original|
    requires forall i | 0 <= i < |priorities| && HasSomeBit(original[i]) :: priorities[i] < 8
    requires forall i | 0 <= i < |maps| :: maps[i] == Readable(original[i])
    ensures result.Mapped? <==> FitsProfile(original, |original|)
    ensures result.Mapped? ==>
              forall j | 0 <= j < 8 :: result.profile[j] == WantedQueue(original, priorities, j, |original|)
  {
    var profile: Profile := [0, 0, 0, 0, 0, 0, 0, 0];
    var i := 0;
    while i < |maps|
      invariant i <= |maps|
      invariant forall j | 0 <= j < 8 :: profile[j] == WantedQueue(original, priorities, j, i)
      invariant FitsProfile(original, i)
    {
      ghost var before := profile;
      var j := 0;
      while j < |maps[i]|
        invariant j <= |maps[i]|
        invariant forall k | j <= k < 8 :: profile[k] == before[k]
        invariant forall k | 0 <= k < 8 && k < j ::
                    profile[k] == if maps[i][k] == '1' then priorities[i] else before[k]
        invariant forall k | 8 <= k < j :: maps[i][k] != '1'
      {
        if maps[i][j] == '1' {
          ReadableBit(original[i], j);
          assert HasBit(original[i], j);
          assert HasSomeBit(original[i]);
          if j >= TMQ_MAP_PROFILE_SIZE {
            return OutOfRange;
          }
          profile := profile[j := QUEUE_ID_LIST[priorities[i]]];
        }
        j := j + 1;
      }
      OneMoreQueue(original, priorities, maps[i], i, before, profile);
      i := i + 1;
    }
    result := Mapped(profile);
  }

  /** Eight binary digits after the prefix always fit. */
  lemma EightDigitsFit(maps: seq<string>)
    requires forall i | 0 <= i < |maps| :: |maps[i]| == 10
    ensures FitsProfile(maps, |maps|)
  {
  }
}
