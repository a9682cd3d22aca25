# Bookkeeping of the OpenOLT agent

A model of the state the OpenOLT agent keeps between VOLTHA's requests and the Broadcom device, and proofs about it:
id pools, reference counts, indexes, the waiting protocol between request threads and device callbacks, and the stream
of indications to the controller. The device is an oracle: every call to it succeeds or fails as a parameter says.

The agent works by changing global maps, bit sets and queues step by step, and so does the model: each component is a
class whose methods update its fields (or an array of bits) with the agent's loops and branches. Every such method is
tied by its `ensures` to a function on values, and the properties are lemmas about those functions: what every step
keeps, what holds after every run, what one call undoes of another.

| module | component |
|---|---|
| IdPools | the linear scans over bit sets shared by all pools |
| SchedulerPool | traffic manager scheduler ids, and the default ones above them |
| QueueProfiles, QueueMapping | queue mapping profiles: built from pbit maps, shared, counted, released |
| TrafficQueues, TrafficQueueHandler, QueueEffects | creating and removing a subscriber's queues |
| TrapAcl, TrapAclProofs, AclEffects, TrapAllowLists | trap flows, the ACLs they share, the VLAN allow lists |
| DeviceFlows, DeviceFlowProofs, FlowRemoval, DeviceFlowRuns | device flow ids: allocation, replication, sharing by symmetric flows, removal |
| FlowAdds, FlowClearing | the whole state after an add and after a removal, slot for slot |
| FlowRollback, SymmetricFlows | what a failed add leaves behind; the map from a subscriber's direction to its flow |
| FlowExamples | concrete runs of the flow handlers in which ids, counters and entries go wrong |
| Bandwidth | upstream bandwidth provisioning |
| CompletionWait, WaitProtocol, WaitRuns | verdicts of a wait; any number of waiters and callbacks, interleaved; the runs that end a wait |
| BlockingQueue | the queue with its timed pops |
| IndicationStream, IndicationServer | any number of indication streams, interleaved; the loop of one of them |
| Options | a value that may be missing |

## What does not hold

Some promises of the code or of its comments are false. For each there is an input on which it fails, or a whole family
of them, and a lemma that says exactly when the promise is kept.

- Removing one half of a pair of symmetric flows frees the device flow id its partner still uses
  (`RemovingOneHalfFreesId`). A removal keeps ids right exactly when no other flow leads on to the removed one and just
  those of its ids are freed that no other flow has (`RemoveKeepsExactIff`).
- The refused add of a flow that is not replicated and uses its partner's device flow frees that id too
  (`RefusedHalfFreesId`, `AddKeepsExactIff`, `FailedAddChangesOnlyDeviceIff`).
- Through the first of these, a new trap flow can be given the id of a live one, in five calls that all succeed
  (`LiveTrapIdIsGivenOut`). The ids an add takes are fresh exactly when every such id is hidden behind enough lower free
  ones (`NewIdsAreFreshIff`), so always while ids are right (`ExactMeansFresh`).
- And then the second trap flow, if its classifier has no ACL yet, is moved to a new ACL while the counter of the old one
  keeps counting it (`SecondInstallBreaksCounts`, `InstallKeepsConsistentIff`).
- A deletion that times out reports success although the device still reads ACTIVE (`DeleteReturnsOkWhileActive`,
  `DeleteReturnsOkIff`); the comments at agent/src/core_utils.cc:566-572 promise an error.
- The GEM callback can read through an iterator whose entry is gone, because it lets go of the lock between its find and
  its push (`GemIteratorCanDangle`); that happens exactly when the entry is erased in between (`PointersNeverDangle`).
- Classifiers that differ can weigh the same and then share an ACL: DHCP on VLAN v and IGMP on VLAN v + 102
  (`DifferentClassifiersWeighTheSame`, `SharedAclIffEqualWeight`).
- A trap flow without a VLAN, installed and removed, leaves packets of every VLAN admitted (`FlowWithoutVlanLeavesListOpen`,
  `FirstFlowWithoutVlan`, `RoundTripRestoresListIff`). The removal keeps the flow's packet information although the
  comment at agent/src/core_api_handler.cc:2443 speaks of extracting it; nothing depends on it.
- A subscriber that already has a profile and gets queues with a new one leaves that profile without a reference, until
  another subscriber happens to need it (`SecondProfileIsOrphaned`, `AttachKeepsReferencedIff`).
- After 65536 device flows the 16-bit counter can read zero, and a rollback then leaves entries in the flow map
  (`CounterRunsOut`, `CounterDecidesRestoring`, `FailedFreshAddRestoresAllIff`).
- An add can cache its flow and yet answer ALREADY_EXISTS (`AnswersExistsThoughAddedIff`).
- A datapath flow of ONU id 0 leaves an entry in the map of partners behind (`OnuZeroLeavesEntry`,
  `AddThenRemoveLeavesEntryIff`).
- Bandwidth products can overflow an int and the result is accepted (`OverflowIsAccepted`,
  `AcceptedIsFaithfulIffNoOverflow`); and alloc type NONE does not imply a committed rate of zero, as the comment at
  agent/src/core_api_handler.cc:2731 has it (`AllocTypeNoneWithCommittedRate`, `AllocTypeNoneWithCommittedRateIff`).
- A refused indication goes to the end of the queue, so indications are not delivered in order unless all that is queued
  behind it equals it (`RefusalSwaps`, `LoopKeepsOrderIff`).

## Model

| member | source | states |
|---|---|---|
| WaitProtocol.EveryRunKeepsInvariant | agent/src/core_utils.cc:573-753 | in every interleaving of any number of waiters and callbacks: lock ownership, pointers only to queues of waiters still in scope, reports only for the waiter's own key |
| WaitProtocol.EveryPushArrives | agent/src/indications.cc:663-677 | in every interleaving, what a waiter popped followed by what it has queued is exactly the reports of the callbacks that pushed to it, in the order of the pushes |
| WaitProtocol.PushDelivers | agent/src/indications.cc:672-675 | a push through a pointer to a waiter's queue appends just the callback's report there and changes no other waiter |
| WaitProtocol.PointersNeverDangle | agent/src/indications.cc:1199-1214 | every non-NULL entry names the queue of a waiter for that key which has not returned; a callback's iterator is valid unless it is a GEM callback's whose entry was erased while it had let go of the lock; from reading a pointer until its unlock, past push and notification, the queue's waiter has not returned; timeout paths that leave a NULL entry included |
| WaitProtocol.MutualExclusion | agent/src/indications.cc:663-677 | at most one thread is inside a critical section of each kind |
| WaitProtocol.CreateReturnsOkIff | agent/src/core_utils.cc:581-711 | an alloc or GEM create returns OK exactly if it popped a successful ACTIVE report brought for its key, or timed out and read ACTIVE |
| WaitProtocol.EncryptReturnsOkIff | agent/src/core_utils.cc:651-711 | an encrypt returns OK exactly if it popped a successful ACTIVE report brought for its key |
| WaitProtocol.DeleteReturnsOkIff | agent/src/core_utils.cc:581-711 | an alloc or GEM delete returns OK exactly if it popped a successful report for its key of NOT_CONFIGURED or an unknown state, or timed out and the device answered at all |
| WaitRuns.DeleteReturnsOkWhileActive | agent/common/Queue.h:77 | a run in which a deletion times out, reads ACTIVE and returns OK |
| WaitRuns.GemIteratorCanDangle | agent/src/indications.cc:726-756 | a run in which a GEM callback is about to read through the iterator of an erased entry whose waiter has returned |
| WaitProtocol.DeactivateReturnsOkIff | agent/src/core_utils.cc:721-753 | a deactivation returns OK exactly if it popped a successful report for its own ONU |
| WaitProtocol.RssiReturnsOkIff | agent/src/core_api_handler.cc:3698-3735 | an RSSI measurement returns OK exactly if it popped a report for its key, whatever its status |
| WaitProtocol.FailureCodes | agent/src/core_utils.cc:581-718 | a wait that does not return OK returns the device's own code after a failed read, a time-out for RSSI and an internal error otherwise |
| WaitRuns.Publishes | agent/src/core_utils.cc:573-583 | from any state with the lock free, a new waiter stores the pointer to its queue under its key, unless an RSSI entry is there, and waits |
| WaitRuns.PopsAndReturns | agent/src/core_utils.cc:607-639 | a waiter with a report queued pops the first, erases its entry and returns; the iterators to the entry go stale |
| WaitRuns.OneReportDecides | agent/src/core_utils.cc:573-753 | a waiter of any kind and one report for its key: it returns OK exactly on the reports that should succeed, and no entry or lock is left |
| WaitRuns.TimesOutAsking | agent/src/core_utils.cc:585-606 | an alloc or GEM waiter that times out and reads the device returns the verdict on the reading, leaving a NULL entry if the reading settles the matter and no entry otherwise |
| WaitRuns.TimesOutSilently | agent/src/core_utils.cc:721-753 | an ONU-deactivate or RSSI waiter that times out leaves no entry and returns an error |
| WaitRuns.GemGivesUpAfterFiveLooks | agent/src/indications.cc:724-748 | a GEM callback whose key has no entry looks five times, each time with the lock, and then drops its report |
| CompletionWait.WaitForAllocAction | agent/src/core_utils.cc:573-639 | the return code of the alloc wait, and exactly when it leaves a NULL entry |
| CompletionWait.WaitForGemAction | agent/src/core_utils.cc:643-718 | the return code of the GEM wait, and exactly when it leaves a NULL entry |
| CompletionWait.CreateOkMeansActive | agent/src/indications.cc:636-654 | from the device's report to the return code: creation is reported done exactly on a successful ACTIVE report or, after a timeout, an ACTIVE device |
| CompletionWait.EncryptOkNeedsCompletion | agent/src/indications.cc:702-720 | from the device's report to the return code: encryption is reported done exactly on a successful ACTIVE report, never after a timeout |
| CompletionWait.DeleteOkIff | agent/src/core_utils.cc:566-632 | from the device's report to the return code: exactly when a deletion is reported done, the same for alloc and GEM |
| CompletionWait.ReportsStayApart | agent/src/indications.cc:636-654 | the callbacks keep all reports apart but those of NOT_CONFIGURED and of an unknown state |
| BlockingQueue.Queue.Pop | agent/common/Queue.h:60-84 | the pop with a static counter, for any sequence of wakes and pushes during the waits |
| BlockingQueue.Queue.PopWithin | agent/common/Queue.h:31-48 | the pop that counts its own timeout down |
| BlockingQueue.Queue.Push | agent/common/Queue.h:97-103 | appends |
| BlockingQueue.CountingPopKeepsOrder | agent/common/Queue.h:60-84 | what was queued and pushed is what was popped followed by what is queued |
| BlockingQueue.CountdownPopKeepsOrder | agent/common/Queue.h:31-48 | the same for the other pop |
| BlockingQueue.CountingPopGivesUpExactly | agent/common/Queue.h:60-84 | the exact number of timed-out waits before it gives up, whatever its static counter carried over; at most floor(timeout / g) + 1 |
| BlockingQueue.CountdownPopGivesUpExactly | agent/common/Queue.h:31-48 | it gives up after exactly max(1, ceil(timeout / interval)) timed-out waits |
| BlockingQueue.CountingPopWaitsOnlyWhileEmpty | agent/common/Queue.h:67-79 | before every wait nothing was queued or pushed, and it gives up only on a timed-out wait |
| BlockingQueue.CountdownPopWaitsOnlyWhileEmpty | agent/common/Queue.h:36-43 | the same for the other pop |
| IndicationStream.NothingLostOrDuplicated | agent/common/server.cc:145-194 | in every interleaving of any number of streams and producers, each indication was pushed as often as it is written, queued or held by a stream |
| IndicationStream.LeaveInOrderOfArrival | agent/common/Queue.h:60-103 | indications leave the queue in the order they were pushed, those pushed back included |
| IndicationStream.WritesTheFirst | agent/common/server.cc:174-182 | a connected stream with something queued takes the first indication and writes it; nothing else changes |
| IndicationStream.RefusalEndsStream | agent/common/server.cc:182-190 | after a failed write the indication is last in the queue, the controller disconnected and the stream over |
| IndicationStream.OpeningConnects | agent/common/server.cc:153-172 | a new stream ends up connected, after announcing OLT up exactly if a stream was connected before and the OLT is up |
| IndicationStream.OnlyReconnectionsAnnounce | agent/common/server.cc:153-170 | in every interleaving a state of the OLT is announced only once some stream was connected |
| IndicationStream.GoesDownWhileReconciling | agent/common/server.cc:156-166 | OLT down is announced if the OLT goes down between the two looks a reconciling stream takes |
| IndicationServer.LoopKeepsOrderIff | agent/common/server.cc:183-188 | the loop keeps the order of what is pushed exactly when no write it reaches fails, or the failing one pops an indication and leaves only copies of it queued |
| IndicationServer.RefusalSwaps | agent/common/server.cc:183-188 | two different indications queued and the first write failing: they end up swapped |
| IndicationServer.IndicationService.EnableIndication | agent/common/server.cc:145-194 | one stream from reconnect to disconnect: everything pushed is delivered in order, but for the refused one, which ends the queue |
| IndicationServer.IndicationService.RunTurn | agent/common/server.cc:174-190 | one turn: pop, then statistics, a write, or a push back and a disconnect |
| IndicationServer.LoopDelivers | agent/common/server.cc:174-190 | what was written, refused and is queued is what was written, queued and pushed, in that order; the stream ends exactly on a refusal |
| IndicationServer.TurnIs | agent/common/server.cc:174-190 | what one turn writes, refuses and collects: the first indication queued or pushed, or, exactly after a time-out with the OLT up, the statistics; and what it leaves on the timer |
| IndicationServer.StreamIs | agent/common/server.cc:145-194 | a whole stream sends what was queued, then OLT up exactly if it is a reconnection while the OLT is up, then what arrives, but for one refused indication |
| TrapAcl.AclManager.HandleAclRuleInstall | agent/src/core_utils.cc:1464-1578 | installs a trap flow on a shared or new ACL, errors included |
| TrapAcl.AclManager.ConfigureAcl | agent/src/core_utils.cc:1319-1386 | takes an id and configures the ACL; a refusal puts the id back; sets the sticky flag |
| TrapAcl.AclManager.HandleAclRuleCleanup | agent/src/core_utils.cc:1580-1609 | both counters down, and with the last reference the ACL and its classifier |
| TrapAcl.AclManager.RemoveTrapFlow | agent/src/core_api_handler.cc:2426-2470 | the ACL branch of a flow removal |
| TrapAcl.AclManager.IsPacketAllowed | agent/src/core_utils.cc:1945-1958 | the final check on a parsed packet |
| AclEffects.KeysAgreeIff | agent/src/core_utils.cc:1429-1462 | two classifiers get one key exactly when all fields agree, VLANs only as far as they still classify |
| AclEffects.InstallAnswers | agent/src/core_utils.cc:1464-1578 | every status of an install, by the first check that fails; a failed one changes nothing |
| AclEffects.NewAclIs | agent/src/core_utils.cc:1319-1386 | an accepted install under a new weight adds exactly one device ACL, under the lowest free id; it classifies by VLAN exactly if the flow does and the flag was not set; the flag is then set exactly if it was, or that ACL's id is ten or more; the flow is counted and recorded |
| AclEffects.SharedAclIs | agent/src/core_utils.cc:1505-1551 | an install under a weight that has an ACL counts and records the flow there and leaves device, ids and flag alone |
| AclEffects.RepeatedInstallIs | agent/src/core_utils.cc:1490-1501 | a flow that has an ACL already is left alone if its weight has one |
| AclEffects.RemoveTrapIs | agent/src/core_api_handler.cc:2426-2470 | from a consistent state, the whole state after a trap flow's removal: both counters one less, and with the last flow the classifier, and unless the device refuses the ACL and its id, gone; its VLAN off the allow list |
| AclEffects.ElevenVlanAclsAreReached | agent/src/core_utils.cc:1356-1384 | eleven accepted DHCP flows make eleven VLAN-classified ACLs and set the flag, and the twelfth gets an ACL without VLAN |
| TrapAclProofs.InstallKeepsConsistentIff | agent/src/core_utils.cc:1505-1551 | an install keeps counters, maps and bits consistent exactly when it is not for a flow that has an ACL, under a known packet type whose weight has none, with an id free and the device accepting |
| TrapAclProofs.RemoveKeepsConsistent | agent/src/core_utils.cc:1580-1609 | a removal keeps them consistent, whatever the device replies |
| TrapAclProofs.EveryRunIsConsistent | agent/src/core_utils.cc:1505-1609 | after every run each counter equals the number of flows it counts, the classifier map is injective with range the counted ACLs, all of them set bits |
| TrapAclProofs.DecrementsHitPositiveCounters | agent/src/core_utils.cc:1580-1609 | neither counter a removal decrements is absent or zero |
| TrapAclProofs.RegistrationsSumToReferences | agent/src/core_utils.cc:1505-1551 | the per-interface counters of an ACL sum to its reference count |
| TrapAclProofs.CountersBoundedByFlows | agent/src/core_utils.cc:1505-1551 | no counter of either kind exceeds the number of live trap flows |
| TrapAclProofs.SearchErasesTheRightClassifier | agent/src/core_utils.cc:1593-1606 | the cleanup's search by value erases the one classifier of that ACL |
| TrapAclProofs.RemovalAttemptedIffLastFlow | agent/src/core_utils.cc:1593-1606 | the removal of an ACL is attempted exactly when its last flow leaves |
| TrapAclProofs.NoIdLeaks | agent/src/core_utils.cc:1388-1424 | when every removal succeeds the set bits are exactly the counted ACLs |
| TrapAclProofs.AtMostElevenVlanAcls | agent/src/core_utils.cc:1356-1384 | after every run at most eleven ACLs on the device classify VLANs, all with ids below ten while the flag is unset |
| TrapAclProofs.NoVlanAclAfterTheLimit | agent/src/core_utils.cc:1456-1460 | once set the flag stays, and no further VLAN-classified ACL appears |
| TrapAclProofs.DifferentClassifiersWeighTheSame | agent/src/core_data.cc:156-160 | a family of different classifiers with one weight |
| TrapAclProofs.SharedAclIffEqualWeight | agent/src/core_data.cc:156-160 | two flows installed one after the other share an ACL exactly when their classifiers weigh the same |
| TrapAllowLists.InstallKeepsLists | agent/src/core_utils.cc:1553-1573 | installing an admissible trap flow keeps every allow list exact |
| TrapAllowLists.RemoveKeepsLists | agent/src/core_api_handler.cc:2437-2455 | so does every removal |
| TrapAllowLists.EveryAdmissibleRunKeepsLists | agent/src/core_utils.cc:1553-1573 | after every admissible run each list is free of duplicates and holds exactly the VLANs of the live flows for its key |
| TrapAllowLists.AdmitsIffLiveFlowMatches | agent/src/core_utils.cc:1945-1958 | the final check admits a packet exactly when a live trap flow matches it |
| TrapAllowLists.RoundTripRestoresListIff | agent/src/core_api_handler.cc:2443-2455 | exactly when install and removal restore an allow list, the first flow on a key included |
| TrapAllowLists.FlowWithoutVlanLeavesListOpen | agent/src/core_utils.cc:1429-1462 | a trap flow without VLAN, installed and removed, leaves its list open to every VLAN |
| TrapAllowLists.FirstFlowWithoutVlan | agent/src/core_utils.cc:1553-1573 | the very first trap flow, without VLAN, installed and removed: no flow is live and every VLAN is admitted |
| SchedulerPool.SchedulerCache.GetTmSchedId | agent/src/core_utils.cc:103-134 | looks a scheduler id up or takes the lowest free one |
| SchedulerPool.SchedulerCache.FreeTmSchedId | agent/src/core_utils.cc:146-156 | frees the id of a key that has one |
| SchedulerPool.SchedulerCache.IsTmSchedIdPresent | agent/src/core_utils.cc:158-167 | true exactly when a lookup would find an id without allocating |
| SchedulerPool.EveryRunKeepsBijection | agent/src/core_utils.cc:103-156 | after every run the map is a bijection onto the set bits |
| SchedulerPool.LookupIsStableUntilFreed | agent/src/core_utils.cc:103-134 | a key keeps its id through any run that does not free it |
| SchedulerPool.NewIdIsAtMostLiveEntries | agent/src/core_utils.cc:103-134 | a new id is at most the number of live entries, and there is none exactly when the pool is full |
| SchedulerPool.SubscriberIdsStayBelowDefaults | agent/src/core_utils.cc:76-90 | while no more are live than ids lie below the defaults, no subscriber's id is a default one |
| SchedulerPool.SixteenPonDefaults | agent/src/core_data.cc:66-69 | on a 16-PON device the defaults start at 1004 and 1020 |
| SchedulerPool.OtherPonDefaults | agent/src/core_data.cc:66-69 | on any other device they start at 950 and 1014 |
| SchedulerPool.NewIdIs | agent/src/core_utils.cc:119-134 | a lookup of an absent key takes the lowest unset bit for it and changes nothing else, and fails exactly when all 1023 are set |
| SchedulerPool.FreeIs | agent/src/core_utils.cc:146-156 | a release takes the key and its bit out and changes nobody else's |
| SchedulerPool.FreeUndoesGet | agent/src/core_utils.cc:103-156 | a release undoes the lookup that allocated |
| SchedulerPool.DroppedUntilAcquired | agent/src/core_utils.cc:103-156 | a dropped key has no id through any run that does not acquire it again, and its bit is only set for another key |
| QueueProfiles.GetValidQueuesPbitMap | agent/src/core_utils.cc:194-202 | erases each prefix and reverses each map, in place |
| QueueProfiles.GetTmqMapProfile | agent/src/core_utils.cc:212-223 | profile[j] is the priority of the last queue whose binary map has bit j, 0 if none |
| QueueProfiles.ReadableBit | agent/src/core_utils.cc:194-202 | the erased and reversed map has a 1 at j exactly when the original has binary digit j set |
| QueueProfiles.EightDigitsFit | agent/src/core_utils.cc:212-223 | maps of a prefix and eight digits never reach past the profile |
| QueueMapping.QmpTable.CheckTmQmpEquality | agent/src/core_utils.cc:176-183 | true exactly on equal profiles |
| QueueMapping.QmpTable.FindProfile | agent/src/core_utils.cc:232-244 | the first id with this profile, -1 if none |
| QueueMapping.QmpTable.AllocateProfile | agent/src/core_utils.cc:298-320 | takes the lowest free id for a profile and a subscriber |
| QueueMapping.QmpTable.AttachProfile | agent/src/core_api_handler.cc:3108-3125 | allocates an absent profile or refers to a present one |
| QueueMapping.QmpTable.CountReferences | agent/src/core_utils.cc:342-349 | the number of subscribers using an id |
| QueueMapping.QmpTable.FreeTmQmpId | agent/src/core_utils.cc:333-366 | drops a subscriber's entry and, with the last one, the profile |
| QueueMapping.EveryRunIsCoherent | agent/src/core_utils.cc:232-368 | after every run set bits are the profiles' ids, profiles are pairwise distinct, every mapping names a live profile; and every profile is referenced if none was allocated for a mapped subscriber |
| QueueMapping.AttachKeepsReferencedIff | agent/src/core_api_handler.cc:3108-3125 | every profile stays referenced exactly when none is allocated for a mapped subscriber |
| QueueMapping.DetachTrueIffLastReference | agent/src/core_utils.cc:333-366 | the release answers true exactly when it dropped the last reference, and then the profile and its bit are gone |
| QueueMapping.SecondProfileIsOrphaned | agent/src/core_api_handler.cc:3108-3125 | a second profile for one subscriber has no reference |
| QueueMapping.AttachPresentIs | agent/src/core_api_handler.cc:3108-3125 | attaching a present profile maps an unmapped subscriber to its id and changes nothing else |
| QueueMapping.AttachAbsentIs | agent/src/core_api_handler.cc:3108-3120 | attaching an absent profile adds it under the lowest free id and maps an unmapped subscriber to it, or fails when no id is free or the device refuses |
| QueueMapping.AttachMaps | agent/src/core_api_handler.cc:3108-3125 | after a successful attach the subscriber is mapped; if it was not, then to an id whose profile is the one requested; no other entry changes |
| QueueMapping.DetachIs | agent/src/core_utils.cc:333-366 | a release drops the subscriber's entry, and the profile and its bit exactly with the last reference |
| QueueMapping.TwoShareAProfile | agent/src/core_utils.cc:333-366 | of two subscribers attached to one profile the first release answers false and keeps it, the second answers true and drops it |
| TrafficQueueHandler.Handler.HandleCreate | agent/src/core_api_handler.cc:3081-3144 | creates a subscriber's queues, errors included |
| TrafficQueueHandler.Handler.HandleRemove | agent/src/core_api_handler.cc:3212-3259 | removes them |
| TrafficQueueHandler.Handler.AddQueue | agent/src/core_api_handler.cc:3009-3079 | the tm_queue key configured for one queue, if any |
| TrafficQueueHandler.Handler.DropQueue | agent/src/core_api_handler.cc:3146-3210 | the tm_queue key cleared for one queue, if any |
| TrafficQueueHandler.Handler.GetQosType | agent/src/core_utils.cc:509-541 | the type a subscriber keeps until it is cleared |
| TrafficQueues.OthersLeaveSubscriberAlone | agent/src/core_api_handler.cc:3081-3259 | no run of requests for other subscribers changes anything kept about this one |
| TrafficQueues.RemovalUndoesCreation | agent/src/core_api_handler.cc:3081-3259 | the removal by the creating request clears exactly the keys the creation configured and forgets the subscriber, whatever was done for others in between |
| QueueEffects.CreateQueuesIs | agent/src/core_api_handler.cc:3009-3079 | the keys configured: queue after queue until the first that fails, existing queues passed over |
| QueueEffects.CreateQueuesScheds | agent/src/core_api_handler.cc:3009-3035 | a scheduler id is taken only for the downstream direction, and only if a downstream queue is looked at |
| QueueEffects.RemoveQueuesIs | agent/src/core_api_handler.cc:3146-3210 | the keys cleared: every downstream queue whose clear succeeds, if the scheduler is known; a failure is answered but stops nothing |
| QueueEffects.CreateIs | agent/src/core_api_handler.cc:3081-3144 | a creation's state, status and keys, by the first check that fails |
| QueueEffects.RemoveIs | agent/src/core_api_handler.cc:3212-3259 | a removal's state, status and keys; when the profile is released, and when the type is kept |
| QueueEffects.RemoveStops | agent/src/core_api_handler.cc:3212-3259 | the first unsupported direction ends the removal: the queues before it are cleared and nothing is released |
| QueueEffects.FreshSubscriberGets | agent/src/core_api_handler.cc:3009-3144 | one queue is queue 0 of the subscriber's scheduler in no set; several are a queue per priority, in a set whose profile maps each pbit to the last queue asking for it |
| DeviceFlows.FlowManager.GetFlowIds | agent/src/core_utils.cc:430-461 | all of the lowest free ids wanted, or none; none if more than eight are wanted |
| DeviceFlows.FlowManager.FlowAddWrapper | agent/src/core_api_handler.cc:1745-1971 | adds a flow on its partner's or on new device flows, with rollback, and answers the last device flow's ALREADY_EXISTS if that is how it ended |
| DeviceFlows.FlowManager.FlowRemoveWrapper | agent/src/core_api_handler.cc:2358-2403 | removes a flow; the ids of device flows that were removed are freed |
| DeviceFlows.FlowManager.FlowAdd | agent/src/core_api_handler.cc:2324-2336 | one device flow: into the flow map, or to the trap flows |
| DeviceFlows.FlowManager.FlowRemove | agent/src/core_api_handler.cc:2405-2512 | one device flow: the trap branch, the clear, and the search that a zero counter skips |
| DeviceFlows.FlowManager.UndoDeviceFlows | agent/src/core_api_handler.cc:1935-1946 | rolls back the device flows added, last first |
| FlowAdds.AddAnswers | agent/src/core_api_handler.cc:1745-1971 | every status of an add, by the first check that fails |
| FlowAdds.SharedAddIs | agent/src/core_api_handler.cc:1849-1884 | a successful add on a partner's device flows caches the partner's first slots, slot for slot, takes no id, and adds exactly the device flows the device took as new |
| FlowAdds.FreshAddIs | agent/src/core_api_handler.cc:1885-1960 | a successful add on new ids takes the lowest free ones in ascending order, one for each pair, and adds exactly those device flows |
| FlowAdds.FailedShareIs | agent/src/core_api_handler.cc:1858-1870 | the whole state after a refused replicated add on a partner: the new device flows before the refused one added, then all before it removed, last first |
| FlowClearing.RemoveIs | agent/src/core_api_handler.cc:2378-2394 | everything but the freed ids after a removal: the flow map loses exactly the refs of the flow's slots that are no trap flow, whose clear succeeds, and that are reached while the counter is not zero; the counter drops by as many |
| FlowClearing.RemoveTakesAll | agent/src/core_api_handler.cc:2494-2503 | with succeeding clears, no trap flow and fewer than 65536 entries all of the flow's device flows leave the flow map |
| DeviceFlowProofs.AddKeepsExactIff | agent/src/core_api_handler.cc:1810-1960 | an add, whatever the device answers, keeps set bits equal to the ids of cached flows and linked groups apart exactly when it is not unreplicated, on a partner's id and refused |
| DeviceFlowProofs.AnswersExistsThoughAddedIff | agent/src/core_api_handler.cc:1827-1836 | exactly when an add caches its flow and answers ALREADY_EXISTS |
| FlowRemoval.RemoveRemoves | agent/src/core_api_handler.cc:2378-2394 | a removal frees exactly the ids of those of its device flows that are trap flows or whose clear succeeds |
| FlowRemoval.RemoveKeepsExactIff | agent/src/core_api_handler.cc:2378-2394 | a removal, whatever the clears answer, keeps that exactly when no other flow leads on to the removed one and it frees just those of its ids no other flow has |
| FlowRemoval.ClearedRemoveKeepsExactIff | agent/src/core_api_handler.cc:2378-2394 | with succeeding clears: exactly when no other flow shares an id with it or leads on to it |
| DeviceFlowRuns.RemovingWholeGroupKeepsExact | agent/src/core_api_handler.cc:2378-2394 | removing a whole linked group with succeeding clears keeps that |
| DeviceFlowRuns.EveryRunIsExact | agent/src/core_api_handler.cc:1810-1960 | so does every run of such adds, such single removals and such group removals |
| DeviceFlowRuns.IdsAreExactAndSharedOnlyByLinkedFlows | agent/src/core_api_handler.cc:1810-1960 | after every run the set bits are the ids of cached flows, and flows that share an id are linked by their chains of symmetric flows |
| DeviceFlowRuns.NewIdsAreFreshIff | agent/src/core_utils.cc:402-461 | the ids an add takes belong to no live trap flow of its type exactly when every such flow whose id is marked free is hidden behind enough lower free ids |
| DeviceFlowRuns.ExactMeansFresh | agent/src/core_utils.cc:402-461 | so always while the set bits are the ids of cached flows |
| FlowExamples.RefusedHalfFreesId | agent/src/core_api_handler.cc:1827-1836 | the refused second half of a pair frees the id of the installed first half |
| FlowExamples.RemovingOneHalfFreesId | agent/src/core_api_handler.cc:2388-2391 | the removal of the first half of a pair frees the id of the installed second half |
| FlowExamples.LiveTrapIdIsGivenOut | agent/src/core_api_handler.cc:2378-2394 | five succeeding calls after which the next trap flow is given the id of a live one |
| FlowExamples.SecondInstallBreaksCounts | agent/src/core_utils.cc:1505-1551 | two trap flows on one id and direction, for EAPOL and for DHCP: the counters are no longer exact |
| FlowExamples.OnuZeroLeavesEntry | agent/src/core_api_handler.cc:1793-1795 | a datapath flow of ONU id 0, added and removed, leaves an entry naming it |
| FlowExamples.CounterRunsOut | agent/src/core_api_handler.cc:2333-2336 | with 65535 device flows installed, a failed add whose clear succeeds leaves its entry in the flow map |
| FlowRollback.FailedAddChangesOnlyDeviceIff | agent/src/core_api_handler.cc:1858-1950 | a failed add at any iteration leaves pool, cache and map of partners as they were exactly when it does not free a partner's id |
| FlowRollback.PartnerKeepsItsIds | agent/src/core_api_handler.cc:1858-1870 | after a failed replicated add on a partner the partner's ids are still allocated |
| FlowRollback.FailedFreshAddIs | agent/src/core_api_handler.cc:1916-1950 | the whole state after a failed add on new ids: of what it had added, the flow map loses exactly the device flows whose clear succeeds before the 16-bit counter reads zero; nothing else changes |
| FlowRollback.FreshAddFailsIff | agent/src/core_api_handler.cc:1916-1950 | an add on new ids fails exactly when the device refuses one of its device flows |
| FlowRollback.FailedFreshAddRestoresAllIff | agent/src/core_api_handler.cc:1916-1950 | it restores the whole state exactly when each device flow it had added is taken out again, or was in the flow map all along |
| FlowRollback.FailedTrapAddRestoresAll | agent/src/core_api_handler.cc:1916-1950 | a failed add of trap flows restores the whole state |
| FlowRollback.CounterDecidesRestoring | agent/src/core_api_handler.cc:2494-2503 | with succeeding clears and no entry left behind earlier, that is exactly when the 16-bit counter does not run out |
| FlowRollback.EveryRunIsCounted | agent/src/core_api_handler.cc:2333-2336 | after every run the counter is the size of the flow map modulo 65536, and ids are exact |
| SymmetricFlows.EveryEntryNamesAnInstalledFlow | agent/src/core_api_handler.cc:1962-1968 | for datapath flows of ONU ids from 1 and removals repeating the add's identifiers, every entry names an installed flow of the direction in its key |
| SymmetricFlows.AddThenRemoveLeavesEntryIff | agent/src/core_api_handler.cc:2394-2400 | an added and removed flow leaves an entry exactly when it is a datapath flow of ONU id 0 |
| Bandwidth.ProvisionUpstream | agent/src/core_api_handler.cc:2645-2736 | the conversions, rounding and checks in 32-bit arithmetic |
| Bandwidth.AcceptedIsFaithfulIffNoOverflow | agent/src/core_api_handler.cc:2645-2736 | accepted rates are the requested ones rounded down by less than the granularity, ordered, and at least one unit, exactly when no product or sum overflows |
| Bandwidth.AcceptedIff | agent/src/core_api_handler.cc:2663-2700 | which requests without overflow are accepted, by eligibility and the whole units of granularity in the maximum rate |
| Bandwidth.AcceptedWith | agent/src/core_api_handler.cc:2720-2736 | an accepted request keeps its eligibility, and has equal guaranteed and maximum rates exactly without additional bandwidth |
| Bandwidth.AllocTypeNoneIff | agent/src/core_api_handler.cc:2730-2736 | alloc type NONE is for exactly the requests without additional bandwidth whose three rates round to the same positive multiple of the granularity |
| Bandwidth.AllocTypeNoneMeansFixedOnly | agent/src/core_api_handler.cc:2730-2736 | alloc type NONE forces no additional bandwidth and a committed rate below one unit |
| Bandwidth.AllocTypeNoneWithCommittedRateIff | agent/src/core_api_handler.cc:2730-2732 | exactly when alloc type NONE comes with a committed rate: it fits into what the fixed rate leaves of its last unit |
| Bandwidth.AllocTypeNoneWithCommittedRate | agent/src/core_api_handler.cc:2730-2732 | a request with 1 kbps committed is accepted with alloc type NONE |
| Bandwidth.OverflowIsAccepted | agent/src/core_api_handler.cc:2653-2656 | a family of requests with a committed rate above the maximum that overflow and are accepted |

## Left out

- The Broadcom BAL API, gRPC, protobuf, the CLI, logging, TLS, sockets and files: every device call is a success or failure parameter.
- WaitProtocol.PointersNeverDangle: says nothing of what a GEM callback does with a stale iterator; reading through it is undefined in C++ and no step of the model, so the results about GEM waits are for runs in which no callback does.
- Unlocked reads of maps by other threads: outside the wait protocol and the streams, requests are handled one after the other, and a map access is one step.
- The queue's mutex and condition variable: a pop sees a sequence of wakes, each with what others pushed while it waited; another reader of the same queue appears only in IndicationStream, where a pop is one step.
- IndicationServer does not model other streams or OLT state changes while its loop runs; IndicationStream does.
- Statistics collection: what it pushes is a parameter.
- Pcap parsing in `is_packet_allowed`: the check starts from the parsed key and VLAN.
- `get_flow_status` and the FLOW_CHECKER duplicate test, the `port_to_flows` index, GEM port installation and encryption, classifier and action fields of flows.
- Downstream shaping and default schedulers and queues of `CreateSched` and `CreateDefaultQueue`.
- Reference counts of ACLs are unbounded numbers that wrap only below zero: `CountersBoundedByFlows` shows that 16 bits are enough for 65535 trap flows. VLANs and ports are not truncated to 16 bits; interface ids in the registration counters are taken modulo 256.
- FLOW_ID_END is any number below 65535; with 65535 itself the scans over `uint16_t` ids would not end.
- DeviceFlows.FlowManager.FlowAddWrapper: requires that a replicated add on a partner reads no parameter slot the partner did not fill, since the agent would read uninitialised memory.
- TrafficQueueHandler.Handler.HandleCreate: requires, where a profile is built, priorities below eight for queues with a bit in their map, since the agent would read past its list of queue ids.
- TrafficQueueHandler.Handler.DropQueue: requires a priority below eight for a downstream queue whose scheduler is known, for the same reason.
- QueueMapping.QmpTable.FreeTmQmpId: the agent returns an unset variable when there is neither a reference nor a profile; `unset` stands for what it then is.
- Bandwidth.ProvisionUpstream: signed overflow is undefined in C++ and taken to wrap.
- Statistics, alarms, transceiver data, enabling and disabling of interfaces, multicast groups and vendor constants.
