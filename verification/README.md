# Bearer, mobility and transfer procedures of the MME

This project models the stateful core of the MME in Dafny and proves what it keeps, over every
interleaving of the events that reach it.

**The bearer machine.** A UE's context is shared by Create, Update and Delete Bearer transactions
from S11, the E-RAB Setup, Modify and Release exchanges that confirm them at the eNB, the NAS
activation timer, and PDN connectivity. All of them draw on the same eleven EPS bearer identities,
one reservation table and one table of pending transactions. `BearerMachine` gives every region
that runs under the UE lock as a function from one state to the next, with the choices left open by
ranging over a Go map as arguments. `UeContext` gives the same regions the way the code runs them,
as a class whose methods loop over and overwrite its fields. Each method takes the context exactly
where the machine's function says, and the regions keep the class invariant, `BearerSound.Sound`.
The theorems about the machine:

- `BearerInvariants`: every identity has one owner in 5..15, and pending Creates own their
  reservations, after any region.
- `BearerLedger`: whole runs. The books of S11 transactions balance, at most four Creates are
  pending, and a retransmission is absorbed or repeats the identical answer.
- `BearerFrames`: what a region leaves alone. `BearerSound`: both invariants together, region by region.
- `BearerOutcome`: for any order of results the same bearers become active, exactly those both
  sides took, and they are what is reported.
- `BearerReports`: what the answer says about each bearer, and what its active record holds, are the
  causes and endpoints that were given last.
- `BearerRequests`: which Create Bearer Requests are admitted, as what, and where they wait.
- `BearerCleanup`: a bearer whose E-RAB is being released is not activated by its transaction,
  exactly unless a region overwrites the transaction's state.
- `BearerUpdates`: network updates are all or nothing, do not meet, and wait for their confirmation.
- `BearerEffects`: an accepted update or modification gives its bearers what was asked for, whatever
  happened in between, and the answer to a Delete tells which bearers are gone.
- `ErabProcedures`: the E-RAB procedures beside the machine, which are registered and removed in
  regions of their own, and which of them can share an E-RAB.

**Its neighbours**, each with its own state machine: E-RAB allocation and timers
(`EbiAllocation`, `ActivationTimer`), correlation of E-RAB responses (`ErabCorrelation`), the
E-RAB Modification Indication (`ErabModification`), the shared E-RAB Setup of initial IMS
activation (`InitialAggregation`), the Modify Bearer Request of a default bearer
(`DefaultBearer`), S1 handover and path switch (`Handover`), reachability supervision
(`Reachability`), Delete Session Requests (`DeleteSession`), public warning aggregation
(`WarningAggregation`), and the NAS COUNT (`NasCount`).

**The codecs**: GTPv2-C framing and information elements, section 5 of TS 29.274 (`Gtpv2`), and the
S10 MM Context and PDN Connection with their TBCD and DNS-label codecs (`S10Context`).

## How to read it

- A run is a sequence of events. An event is one region under a lock, or one callback. A handler
  that checks in one region and acts in another is two events, with whatever may happen in between;
  the exceptions are named under "Left out". `Possible` and `Lawful` predicates say what the
  environment respects.
- Lemmas named `...ExactlyWhen` state a property that does not hold of the code on all inputs,
  together with the exact condition under which it does. The condition reads the state before the
  step, or lists the events that break the property.
- The classes carry their invariant as `Valid()`. A method whose region does not always keep it
  ensures it exactly under its condition.
- Where Go ranges over a map, a method picks members in no particular order (`Common.Pick`), so
  what it guarantees holds for every order.

Where the code and its comments or the standard differ, the model follows the code:

- The comment at `internal/s1ap/pws.go:76-80` promises that reserving a key keeps two requests apart.
  It does not when a request that reached nobody is given up after a timer took its transaction out
  (`WarningAggregation.KeyIsGivenToTwo`, with the exact condition in
  `WarningAggregation.StepKeepsOneHolderExactlyWhen`). A timer also outlives its transaction and ends
  a later one with the same key (`WarningAggregation.StaleTimerEndsLaterTransactionExactlyWhen`).
- Section 4.4.3.2 of TS 24.301 asks that a NAS COUNT be accepted at most once. The stored COUNT is
  the last one used and the next may equal it (`NasCount.LastMessageIsTakenAgain`), and two messages
  processed at once can commit in the wrong order (`NasCount.OvertakenCountFallsBack`).
- A terminal cleanup restored with an expired deadline starts its callback with an inactive timer,
  so it is not finalised (`Reachability.RestoredCleanupFinalizesExactlyWhen`).
- A failed or timed out Create reports bearers as accepted that it does not install
  (`BearerOutcome.FailureIsFaithfulExactlyWhen`).
- An acknowledged Handover Cancel keeps the UE where it is exactly when no Notify and no path switch
  is on its way to its commit (`Handover.CancelKeepsServiceExactlyWhen`).
- A completed S1 handover moves the endpoint of the default bearer alone; PDN connections and dedicated
  bearers keep the one at the source eNB (`Handover.ServiceChangesOnlyByMoving`).
- A Delete Session Request with the UE's own TEID can name the bearer of another session
  (`DeleteSession.OwnRequestIsAddressedExactlyWhen`).
- A Modify Bearer Response is not matched with the PDN that asked
  (`DefaultBearer.AnswerReachesAskerExactlyWhen`).
- `CauseRequestDenied` is an alias of `CauseRequestRejected`, 94, and the model keeps them equal.

## Model

| member | source | states |
|---|---|---|
| EbiAllocation.FirstFree | internal/s1ap/esm.go:941-950 | the identity found is the least unused one of the range; 0 means that every one is used |
| EbiAllocation.AssignSound | internal/gtpv2/create_bearer.go:147-179 | assigned identities lie in 5..15, were unused, are pairwise distinct, and every explicitly requested one is granted as requested |
| EbiAllocation.AssignComplete | internal/gtpv2/create_bearer.go:147-179 | n bearers without a requested identity are all served if and only if at least n identities are free |
| EbiAllocation.AssignRequestedComplete | internal/gtpv2/create_bearer.go:147-179 | explicit requests are all granted if and only if they are in range, unused and pairwise distinct |
| EbiAllocation.AssignAllExactlyWhen | internal/gtpv2/create_bearer.go:147-179 | any mix of explicit and unassigned requests is served in full if and only if there are enough free identities, the explicit ones are free and distinct, and every bearer without one finds a free identity below each that a later bearer asks for |
| EbiAllocation.AssignRequestedBearerIds | internal/gtpv2/create_bearer.go:147-179 | the in-place loop writes exactly the identities of the longest prefix that can be served, leaves the rest of the slice as it was, adds just those to the used set, and succeeds if and only if the prefix is everything |
| EbiAllocation.AssignLegacySound | internal/s1ap/dedicated_bearer.go:1337-1359 | legacy transaction identifiers go to exactly the bearers that need one, lie in 2..7, were unused and are pairwise distinct |
| EbiAllocation.AssignLegacyExactlyWhen | internal/s1ap/dedicated_bearer.go:1337-1359 | all bearers get the legacy identifier they need if and only if at least as many of 2..7 are free |
| ActivationTimer.RetransmissionsAreBounded | internal/s1ap/esm_activation_timer.go:25-124 | over every run of expiries, answers and restarts: generations never decrease, an unanswered bearer is armed and has counted each live expiry, and every retransmission repeats the payload of the start |
| ActivationTimer.AtMostFourRetransmissions | internal/s1ap/esm_activation_timer.go:25-124 | from a stopped timer, whatever follows: at most four retransmissions, all of the started payload; giving up happens at the fifth live expiry |
| ActivationTimer.LiveExpiryProgress | internal/s1ap/esm_activation_timer.go:63-124 | a live expiry moves to a new generation and either lowers 4 minus the retry count or ends the bearer as answered, with S1 present or not |
| ActivationTimer.FiveLiveExpiriesGiveUp | internal/s1ap/esm_activation_timer.go:63-124 | five live expiries give the bearer up for every pattern of S1 being absent |
| ActivationTimer.LiveExpiriesRetransmit | internal/s1ap/esm_activation_timer.go:63-124 | each of the first four live expiries retransmits exactly when S1 is up then; the fifth sends nothing, marks the bearer as timed out and stops the timer |
| ActivationTimer.StaleCallbackIsNoOp | internal/s1ap/esm_activation_timer.go:63-80 | a callback of an older generation, or one after the answer, changes nothing however late it comes |
| ActivationTimer.StartAndAnswer | internal/s1ap/esm_activation_timer.go:25-62 | a start arms the timer anew exactly for an unanswered bearer without a running timer; an answer stops it for good |
| BearerInvariants.StepKeepsIdentities | internal/s1ap/dedicated_bearer.go:73-1074 | every locked region keeps single ownership of every EPS bearer identity, the range 5..15, and the reservations of pending Creates and PDN requests, across the gap between reserving and installing a PDN |
| BearerInvariants.IdentitiesAreDisjoint | internal/s1ap/dedicated_bearer.go:1305-1330 | in such a state the default bearers of PDNs, the active dedicated bearers and the bearers of pending Creates are pairwise disjoint and in 5..15, and every bearer of a pending Create is reserved under that transaction's ID |
| BearerInvariants.CreateBearerRequestKeeps | internal/s1ap/dedicated_bearer.go:73-361 | the Create Bearer Request region keeps the identity invariants in every branch, including the one that leaves reservations without an owner |
| BearerInvariants.PdnReserveKeeps | internal/s1ap/esm.go:331-342 | reserving the default bearer of a requested PDN takes an identity that nobody owned |
| BearerInvariants.PdnInstallKeeps | internal/s1ap/esm.go:355-498 | installing the PDN after the unlocked gateway selection keeps single ownership whatever happened in the gap |
| BearerInvariants.SessionCreatedKeepsExactlyWhen | internal/s1ap/esm.go:776-804 | an accepted Create Session Response keeps the identity invariants if and only if its EBI is 0, or in range and owned by nobody but this PDN |
| BearerInvariants.EchoedEbiIsFree | internal/s1ap/esm.go:776-787 | an S-GW that echoes the reserved EBI always meets that condition |
| BearerInvariants.PdnRemovedKeeps | internal/s1ap/nas.go:1062-1111 | dropping a disconnected PDN with its bearers and transactions keeps the identity invariants |
| BearerLedger.AttachedIsSound | internal/s1ap/dedicated_bearer.go:73-130 | an attached UE without procedures satisfies the identity invariants and the books |
| BearerLedger.StepBooks | internal/s1ap/dedicated_bearer.go:73-1271 | one region keeps the books: balance, cache, at most four pending Creates, distinct legacy identifiers; nothing sent is taken back and no cached answer changes |
| BearerLedger.RunKeeps | internal/s1ap/dedicated_bearer.go:73-1271 | the same over every lawful interleaving of regions |
| BearerLedger.ReachableStatesAreSound | internal/s1ap/dedicated_bearer.go:73-1271 | in every reachable state identities have one owner, legacy identifiers of pending Creates are distinct, at most four Creates are pending, and each S11 transaction was admitted exactly as often as it is pending, answered or dropped with its PDN; on top of that a Delete was denied early exactly once for each time its NAS message could not be sent while it was pending |
| BearerLedger.AbsorbedExactlyWhen | internal/s1ap/dedicated_bearer.go:85-131 | a Create Bearer Request changes nothing, or repeats the cached answer and nothing else, if and only if its transaction is pending or was answered finally |
| BearerLedger.RetransmissionRepeatsTheAnswer | internal/s1ap/dedicated_bearer.go:85-97 | after a final answer every later retransmission, whatever happened in between, sends that identical answer and neither admits nor settles the transaction again |
| BearerLedger.DeniedCreateIsForgotten | internal/s1ap/dedicated_bearer.go:297-306 | a Create denied in the request region is answered but not cached: apart from the answer the state is as before, so a retransmission is admitted and answered again |
| BearerLedger.AnsweredOnceExactlyWhen | internal/s1ap/dedicated_bearer.go:697-764 | over whole runs, counting the early denials of a Delete as answers: a transaction gets one answer for each time it was admitted and has ended if and only if none of its Deactivate messages failed to be sent while it was pending |
| BearerLedger.FailureSparesOthersExactlyWhen | internal/s1ap/dedicated_bearer.go:1534-1546 | ending a Create leaves the reservations of all other pending Creates alone if and only if none of them carries the same transaction ID, which omits the peer |
| BearerLedger.LostReservationIgnoresResults | internal/s1ap/dedicated_bearer.go:766-800 | a Create that lost a reservation ignores every later NAS or E-RAB result for that bearer |
| BearerOutcome.FinalizeIsFaithful | internal/s1ap/dedicated_bearer.go:1050-1112 | at finalisation a bearer is reported accepted if and only if it is installed as active, an accepted one is reported without a cause and any other with the cause recorded for it, active bearers of others are untouched, and the overall cause says whether all, some or none were installed |
| BearerOutcome.FailureIsFaithfulExactlyWhen | internal/s1ap/dedicated_bearer.go:956-971 | a failure or timeout answers with its cause and installs nothing; its per-bearer report is true, with the recorded causes, if and only if no bearer had been accepted by both sides |
| BearerOutcome.AdmittedIsOpen | internal/s1ap/dedicated_bearer.go:161-253 | every admitted Create with a bearer starts out waiting, compatible with whatever the UE and the eNB will decide |
| BearerOutcome.OrderDoesNotMatter | internal/s1ap/dedicated_bearer.go:766-1074 | for any order, repetition and interleaving of the results with all other events, except a listed few that end the transaction or decide for one side (a contrary result, failure or overall timeout, the last activation timer expiry, an unsent release, withdrawal, removal of its PDN, an overwritten cleanup), the transaction still waits or was concluded by one step that activated exactly the bearers the UE accepted and the eNB established, and reported so |
| BearerOutcome.OthersLeaveAlone | internal/s1ap/dedicated_bearer.go:766-1074 | every event outside that list and other than the results themselves leaves the results and the state of cleanup of a waiting transaction alone |
| BearerOutcome.AllResultsConclude | internal/s1ap/dedicated_bearer.go:916-954 | once every bearer had both its results the transaction is concluded, or waits only for the E-RAB release of its failed bearers |
| BearerReports.FinalAnswer | internal/s1ap/dedicated_bearer.go:1050-1112 | the final answer is sent and cached once and names every bearer: 16 if all were taken by both sides, 17 if some were, else 87 if the UE did not answer for one, else 88 if it refused one, else 94; exactly the taken ones become active with their records, and nothing stays reserved |
| BearerReports.FailureAnswer | internal/s1ap/dedicated_bearer.go:956-971 | a failure answers with its cause and the causes recorded for the bearers, activates nothing, and gives back exactly what was reserved under the transaction's ID |
| BearerReports.EndsExactlyWhen | internal/s1ap/dedicated_bearer.go:916-954 | a Create ends if and only if every bearer is decided, no cleanup is under way, and no E-RAB of a failed bearer is left that the eNB can be asked to release; if there are some, exactly those are released first |
| BearerReports.ResultReachesTheAnswer | internal/s1ap/dedicated_bearer.go:766-914 | a NAS or E-RAB result is recorded for its bearer and no other, and if it ends the transaction the answer and the active records are those of the records after it |
| BearerReports.RejectIsReported | internal/s1ap/dedicated_bearer.go:790-802 | a reject that ends the transaction sends its ESM cause for that bearer and the recorded causes for the other failed ones |
| BearerReports.FailedSetupIsReported | internal/s1ap/dedicated_bearer.go:893-902 | a failed E-RAB Setup that ends the transaction sends the eNB's cause for that bearer and the recorded causes for the other failed ones |
| BearerReports.ForeignResultIsIgnored | internal/s1ap/dedicated_bearer.go:780-792 | a NAS result for a bearer that is reserved or recorded for another transaction, and an E-RAB result for one that is reserved for another, change nothing |
| BearerReports.CleanupAnswer | internal/s1ap/erab_release.go:347-385 | the answer to the cleanup release ends the transaction; no bearer under cleanup is taken, one that was not released also failed, the others are reported as they were |
| BearerReports.UnsentCleanupAnswer | internal/s1ap/dedicated_bearer.go:1570-1591 | when the release cannot be sent the transaction ends with every bearer torn down |
| BearerReports.ExpiryMeaning | internal/s1ap/esm_activation_timer.go:63-124 | the fifth live expiry refuses the bearer as unanswered, an earlier one only re-arms, any other callback does nothing |
| BearerReports.LastResultsAreReported | internal/s1ap/dedicated_bearer.go:766-1112 | over whole runs, whatever the order and repetition: a failed bearer is reported with the cause given last for it, a taken one without a cause and with the endpoint the eNB gave last, and it is active with that endpoint and the QoS, S-GW endpoint and default bearer it was requested with |
| BearerReports.OutcomeIsAsLastTold | internal/s1ap/dedicated_bearer.go:766-1112 | the same for all bearers of a run that concludes, with acceptance for exactly those that both sides took |
| BearerRequests.FingerprintTellsPolicies | internal/s1ap/dedicated_bearer.go:1624-1633 | two requests have the same fingerprint if and only if they name the same linked bearer and the same QCI, ARP and TFT the same number of times, in any order |
| BearerRequests.CreateIsAdmittedExactlyWhen | internal/s1ap/dedicated_bearer.go:73-255 | a Create is admitted if and only if the UE is known, the request is new, none with the same policy and fewer than four are pending, and identities and legacy identifiers suffice, with the exact counts; every refusal changes nothing but the answer, which gives the reason |
| BearerRequests.AdmittedAsRequested | internal/s1ap/dedicated_bearer.go:161-255 | the admitted transaction holds one bearer for each bearer context, with its QoS (QCI 9 for 0), TFT and S-GW endpoint, under free identities that honour explicit requests, are distinct and now reserved |
| BearerRequests.RefusalLeavesReservations | internal/s1ap/dedicated_bearer.go:187-232 | a request refused for want of a legacy identifier leaves exactly the identities of the bearers before the first one that found none reserved, for a transaction that does not exist |
| BearerRequests.AdmittedGoesOn | internal/s1ap/dedicated_bearer.go:258-306 | which admitted requests wait for their default bearer or for paging, which go on, and which are denied at once |
| BearerRequests.ResumedGoesOn | internal/s1ap/dedicated_bearer.go:433-485 | a resumed Create is withdrawn with 64 when its default bearer is gone, and otherwise waits or is activated; without its reservations it is never set up |
| BearerCleanup.ReleaseOutcomePartitions | internal/s1ap/erab_release.go:387-425 | released, failed and missing partition the expected E-RABs, and the cause tells whether all, some, none or no E-RABs were released |
| BearerFrames.OthersSpareCreates | internal/s1ap/dedicated_bearer.go:73-1074 | any event that is not about a pending Create leaves it as it is, picks it for the initial aggregation, or drops it with its PDN |
| BearerCleanup.CleanupKeptExactlyWhen | internal/s1ap/erab_release.go:347-385 | while a transaction cleans up, any lawful event keeps the bearers under cleanup inactive and the cleanup going (or ends the transaction) if and only if it is not one that overwrites its state: paging started, E-RAB Setup sent, or a resumption that does not withdraw |
| BearerCleanup.CleanupNeverActivates | internal/s1ap/dedicated_bearer.go:916-954 | over any run without such an overwrite, up to and including the step that ends the transaction, no bearer under cleanup becomes active |
| BearerCleanup.OverwriteActivatesExactlyWhen | internal/s1ap/dedicated_bearer.go:483-499 | after an overwrite, for any set of bearers and whatever the eNB answers to the release: the next result for a bearer under cleanup activates it if and only if it leaves that bearer accepted by the UE and established and every other bearer decided |
| BearerUpdates.StepKeepsUpdatesApart | internal/s1ap/dedicated_bearer.go:502-533 | pending network updates never share a bearer, after any region |
| BearerUpdates.RunKeepsUpdatesApart | internal/s1ap/dedicated_bearer.go:1959-1977 | the same over every lawful run |
| BearerUpdates.UpdateIsAllOrNothing | internal/s1ap/dedicated_bearer.go:1001-1048 | every event of a pending update leaves all active records alone, or answers it: accepted with all its records replaced together, each confirmed as far as it was waited for, or another cause with none replaced |
| BearerUpdates.OthersSpareUpdatedBearers | internal/s1ap/dedicated_bearer.go:502-624 | Creates and other updates never change the active record of a bearer under update |
| BearerUpdates.RecordsKeptExactlyWhen | internal/s1ap/dedicated_bearer.go:502-624 | while an update stays pending, any event leaves its bearers and their active records alone if and only if it is none of these: the end of a Delete, the disconnection or the removal of the PDN that takes or marks one of the bearers, and an accepted UE-initiated modification that differs from the active record |
| BearerUpdates.RecordsWaitForConfirmation | internal/s1ap/dedicated_bearer.go:502-624 | over any lawful run of all procedures without those events, as long as an update is pending the active records of its bearers are those of its admission |
| BearerUpdates.AcceptedIsEstablishedExactlyWhen | internal/s1ap/dedicated_bearer.go:606-621 | an accept that completes an update replaces all its records, and these are all established if and only if the E-RAB Modify was registered by then or all were established before: the NAS messages leave first, so the UE can be faster |
| BearerUpdates.AcceptRestoresNothingExactlyWhen | internal/s1ap/dedicated_bearer.go:1024-1031 | an accepted update leaves the set of active bearers as it is if and only if all its bearers are still active; one that a Delete has removed meanwhile comes back |
| BearerEffects.UpdateIsAdmittedAsRequested | internal/s1ap/dedicated_bearer.go:502-570 | a new update is refused with 94 when it meets another and with 64 when it names no active bearer; otherwise each named active bearer is pending with every QoS, TFT and PCO field the last change for it gives and its old value where none is given, not established any more exactly when the eNB must reconfigure it |
| BearerEffects.RunKeepsAsking | internal/s1ap/dedicated_bearer.go:502-695 | what a pending update or modification asks for does not change in any lawful run |
| BearerEffects.AcceptedUpdateTakesEffect | internal/s1ap/dedicated_bearer.go:1001-1031 | whatever happened while an update was pending, once it is answered as accepted every bearer it named is active with each field the last change gave and the value from its admission for each it left out |
| BearerEffects.FailedUpdateSays | internal/s1ap/dedicated_bearer.go:973-1048 | an update that ends otherwise changes no active bearer and answers 88 for a refusal, 94 for a failed E-RAB, or the cause of the failure; it waits exactly while some bearer is open |
| BearerEffects.AcceptIsRecorded | internal/s1ap/dedicated_bearer.go:803-818 | an acceptance by the UE is recorded for its bearer and no other, and if it ends the update the answer is 16, or 94 if and only if some E-RAB had failed |
| BearerEffects.ModifyAnswerIsRecorded | internal/s1ap/erab_modify.go:359-381 | the eNB's answer is recorded for exactly the E-RABs it names, and a failure wins |
| BearerEffects.ModificationIsAdmittedAsRequested | internal/s1ap/dedicated_bearer.go:626-695 | a UE-initiated modification of an active bearer is pending with the requested TFT and otherwise the active record |
| BearerEffects.AcceptedModificationTakesEffect | internal/s1ap/dedicated_bearer.go:803-833 | whatever happened while it was pending, an accepted modification gives its bearer the requested TFT, changes no other and tells the S-GW nothing |
| BearerEffects.DeleteIsAdmittedAsRequested | internal/s1ap/dedicated_bearer.go:697-764 | a new Delete is admitted with a copy of exactly the active bearers it names, and accepted at once without any |
| BearerEffects.DeactivationMeaning | internal/s1ap/dedicated_bearer.go:834-857 | the last accept releases all E-RABs if the eNB can be asked and may hold one, otherwise removes all bearers and answers 16; an earlier one is only recorded |
| BearerEffects.DeleteEndsExactlyWhen | internal/s1ap/erab_release.go:310-345 | the eNB's answer ends a pending Delete if and only if its E-RABs were to be released |
| BearerEffects.DeleteAnswerTellsWhatIsGone | internal/s1ap/erab_release.go:310-345 | the answer to a Delete is 16 if and only if all its bearers are removed, 17 if and only if some are, 94 if and only if none is; no other bearer goes and unreleased ones are marked failed |
| BearerEffects.DeleteErrorsSay | internal/s1ap/dedicated_bearer.go:1413-1428 | a Delete that cannot be sent is denied with 94 and stays pending; the failure of its E-RAB release ends it with 94; no bearer goes |
| BearerEffects.AcceptedDeleteLeavesNone | internal/s1ap/erab_release.go:310-345 | as long as its bearers are active, a Delete is answered as accepted if and only if none of them is left |
| BearerEffects.RunKeepsDeleteShape | internal/s1ap/dedicated_bearer.go:834-857 | over any lawful run a pending Delete has a bearer and its E-RAB release is about all of them |
| BearerEffects.PdnReservationMeaning | internal/s1ap/esm.go:331-342 | a new APN gets the least identity that nobody owns, reserved under its name; a known APN or a second request gets none |
| BearerEffects.SessionMeaning | internal/s1ap/esm.go:724-839 | an accepted session becomes a PDN with the identity in the answer and gives back exactly its own reservation and that of an identity the S-GW chose; without an identity it is dropped |
| BearerEffects.RemovedPdnMeaning | internal/s1ap/nas.go:1062-1111 | with a PDN go exactly the dedicated bearers and transactions linked to it, unanswered, and no reservation |
| UeContext.EvaluateOutcome | internal/s1ap/dedicated_bearer.go:1076-1112 | one pass over the bearers counts exactly the active and the other ones and yields the cause of the whole set |
| UeContext.EvaluateReleaseOutcome | internal/s1ap/erab_release.go:387-425 | one pass fills three lists that are the released, failed and missing E-RABs, whatever the iteration order |
| UeContext.InstallActive | internal/s1ap/dedicated_bearer.go:1050-1062 | the loop moves exactly the active bearers into the UE's dedicated bearers, without their legacy identifiers, and drops the reservations of all |
| UeContext.CreateBearersFromTx | internal/s1ap/dedicated_bearer.go:1644-1676 | the answer names every bearer of the transaction once with its endpoints, accepted exactly when active and then without a cause, and otherwise with the cause recorded for it |
| UeContext.FailedReleaseItems | internal/s1ap/dedicated_bearer.go:1548-1568 | the items to release are exactly the failed bearers for which the eNB may hold an E-RAB |
| UeContext.Context.constructor | internal/s1ap/dedicated_bearer.go:73-130 | an attached context satisfies the class invariant: single ownership of identities, reservations of pending Creates and balanced S11 books, the state every run theorem starts from |
| UeContext.Context.UsedIdentities | internal/s1ap/dedicated_bearer.go:1305-1330 | the used map holds exactly the identities of the default bearer, PDNs, pending PDN, dedicated bearers, reservations and pending transactions |
| UeContext.Context.BuildBearers | internal/s1ap/dedicated_bearer.go:176-255 | the loop over the bearer contexts gives each bearer its identity and legacy identifier and reserves it; a bearer without a legacy identifier leaves the reservations made before it behind |
| UeContext.Context.CountPendingCreates | internal/s1ap/dedicated_bearer.go:143-148 | counts exactly the pending Creates that are not terminal |
| UeContext.Context.HandleCreateBearerRequest | internal/s1ap/dedicated_bearer.go:73-361 | takes the context through every branch of the Create Bearer Request region; from the S-GW of the TEID, the class invariant (single ownership of identities and balanced S11 books) is kept and nothing sent or cached is taken back |
| UeContext.Context.HandleActivationResponse | internal/s1ap/dedicated_bearer.go:766-802 | records the accept or reject for the transaction that holds the bearer, or changes nothing when none does or the reservation is stale |
| UeContext.Context.CompleteErabSetup | internal/s1ap/dedicated_bearer.go:876-914 | records the E-RAB result for the pending Create that holds the bearer, or changes nothing when there is none |
| UeContext.Context.MaybeCompleteCreateBearer | internal/s1ap/dedicated_bearer.go:916-954 | waits, starts the cleanup or finalises exactly as the decided bearers, the release items and S1 say |
| UeContext.Context.FinalizeCreate | internal/s1ap/dedicated_bearer.go:1050-1074 | installs, releases, removes and answers in one step, with the answer cached |
| UeContext.Context.FailCreateBearer | internal/s1ap/dedicated_bearer.go:956-971 | removes the transaction, releases what is reserved under its ID and caches the answer; nothing when it is gone |
| UeContext.Context.ResumeCreateBearer | internal/s1ap/dedicated_bearer.go:433-485 | withdraws, parks or activates the transaction as S1 and the linked bearer say |
| UeContext.Context.CompleteCleanup | internal/s1ap/erab_release.go:347-385 | tears down released, failed and missing bearers and finalises what is left |
| UeContext.Context.FailCleanup | internal/s1ap/dedicated_bearer.go:1570-1591 | when the release cannot be sent every bearer is torn down and the transaction finalised |
| UeContext.Context.StartActivationTimer | internal/s1ap/esm_activation_timer.go:25-52 | a bearer that the UE has answered or whose timer runs is left as it is; the class invariant (single ownership of identities and balanced S11 books) is kept and nothing sent or cached is taken back |
| UeContext.Context.ActivationTimerExpired | internal/s1ap/esm_activation_timer.go:63-108 | a callback that is not live changes nothing, and no callback touches anything but its transaction; the class invariant (single ownership of identities and balanced S11 books) is kept and nothing sent or cached is taken back |
| UeContext.Context.HandleUpdateBearerRequest | internal/s1ap/dedicated_bearer.go:502-608 | admits the update with every named active bearer as the last change asks for it and otherwise as it was, refuses it when it conflicts or names no active bearer, and changes no active bearer |
| UeContext.Context.MaybeCompleteUpdateBearer | internal/s1ap/dedicated_bearer.go:1001-1031 | ends the update at the first failed bearer, waits at the first open one, and otherwise replaces all records together |
| UeContext.Context.HandleModifyResponse | internal/s1ap/dedicated_bearer.go:803-833 | accept and reject of network updates and of UE-initiated modifications |
| UeContext.Context.CompleteErabModify | internal/s1ap/erab_modify.go:359-381 | records modified and failed E-RABs, the failure winning, and completes the update |
| UeContext.Context.HandleLocalModification | internal/s1ap/dedicated_bearer.go:626-695 | the active record stays as it is until the UE accepts, and nothing is sent on S11; the class invariant (single ownership of identities and balanced S11 books) is kept and nothing sent or cached is taken back |
| UeContext.Context.HandleDeleteBearerRequest | internal/s1ap/dedicated_bearer.go:697-764 | admits the Delete with a copy of every named bearer that is active; without any it is accepted at once |
| UeContext.Context.HandleDeactivateAccept | internal/s1ap/dedicated_bearer.go:834-857 | the last accept releases over S1 or removes the bearers and answers |
| UeContext.Context.CompleteDeleteRelease | internal/s1ap/erab_release.go:310-345 | released bearers go, failed and missing ones stay, marked as failed; the answer carries the cause of the outcome |
| UeContext.Context.ReserveForPdn | internal/s1ap/esm.go:331-342 | reserves the least free identity for the requested APN, or nothing when the APN is active, another request is pending, or none is free |
| UeContext.Context.InstallPendingPdn | internal/s1ap/esm.go:355-498 | whatever happened since the identity was reserved, installing it keeps the class invariant, so still nobody else owns it |
| UeContext.Context.HandleSessionCreated | internal/s1ap/esm.go:724-839 | an accepted Create Session Response keeps the class invariant if and only if the EBI it carries is free for this PDN |
| UeContext.Context.CleanUpPdn | internal/s1ap/nas.go:1062-1111 | removes the PDN, its dedicated bearers and every transaction linked to it |
| BearerSound.SessionFollowsExactlyWhen | internal/s1ap/esm.go:776-804 | the region of a Create Session Response leads from a sound state to a sound one that takes nothing back if and only if its EBI is free for the PDN |
| UeContext.EveryBearerDecided | internal/s1ap/dedicated_bearer.go:927-936 | true exactly when every bearer was rejected, failed or taken by both sides, for any iteration order |
| UeContext.TearDownReleased | internal/s1ap/erab_release.go:358-382 | after the three loops released bearers are torn down, failed and missing ones torn down and marked failed, and no other bearer changed |
| UeContext.EveryBearerAccepted | internal/s1ap/dedicated_bearer.go:1383-1393 | true exactly when the UE accepted the deactivation of every bearer |
| UeContext.DropLinked | internal/s1ap/nas.go:1087-1091 | keeps exactly the dedicated bearers not linked to the PDN that goes |
| UeContext.Context.AllocateLegacyIdentifier | internal/s1ap/dedicated_bearer.go:1337-1359 | the least identifier of 2..7 that no pending transaction and no bearer built so far carries; 0 when there is none |
| UeContext.Context.FindEquivalentPending | internal/s1ap/dedicated_bearer.go:119-142 | found exactly when some pending Create that is not terminal has the same fingerprint |
| UeContext.Context.FindByBearer | internal/s1ap/dedicated_bearer.go:1915-1941 | some pending transaction of the kind that holds the bearer; none only when no such transaction exists |
| UeContext.Context.FindConflictingUpdate | internal/s1ap/dedicated_bearer.go:1959-1977 | a conflict exactly when some requested bearer is held by a pending network update |
| UeContext.Context.OwnsReservations | internal/s1ap/dedicated_bearer.go:395-431 | true exactly when every bearer of the transaction is reserved under its ID, the only way building its E-RAB items fails here |
| UeContext.Context.LinkedBearerReady | internal/s1ap/dedicated_bearer.go:1445-1462 | true exactly when the linked PDN is connected, accepted, established and not failed, or the attach default bearer stands in for it |
| UeContext.Context.LinkedBearerActive | internal/s1ap/dedicated_bearer.go:1430-1443 | true exactly when the attach default bearer or some PDN that is not disconnecting carries the linked identity |
| UeContext.Context.ProceedWith | internal/s1ap/dedicated_bearer.go:258-306 | aggregates, parks, pages, resumes or denies the admitted request as S1 and the linked bearer say |
| UeContext.Context.ReleaseReservations | internal/s1ap/dedicated_bearer.go:1534-1546 | removes exactly the reservations made under the transaction ID |
| UeContext.Context.FailUpdateBearer | internal/s1ap/dedicated_bearer.go:973-999 | a failed update leaves every active record as it was; the class invariant (single ownership of identities and balanced S11 books) is kept and nothing sent or cached is taken back |
| UeContext.Context.RegisterErabModify | internal/s1ap/dedicated_bearer.go:606-621 | registering the E-RAB Modify in its own region keeps the class invariant whatever became of the update, and answers nothing |
| UeContext.Context.DeleteNotSent | internal/s1ap/dedicated_bearer.go:744-764 | a Delete that is denied because its message could not be sent stays pending with its bearers active; the class invariant (single ownership of identities and balanced S11 books) is kept and nothing sent or cached is taken back |
| UeContext.Context.ShouldReleaseOverS1 | internal/s1ap/dedicated_bearer.go:1368-1381 | true exactly when S1 is active and some bearer may have an E-RAB |
| UeContext.Context.FailDelete | internal/s1ap/dedicated_bearer.go:1413-1428 | when the release fails the bearers the eNB may still hold stay active; the class invariant (single ownership of identities and balanced S11 books) is kept and nothing sent or cached is taken back |
| UeContext.Context.DropPendingPdn | internal/s1ap/esm.go:957-969 | forgetting the pending PDN releases no reservation of anybody else: the class invariant is kept |
| ErabCorrelation.Procedures.Match | internal/s1ap/erab_setup.go:1367-1403 | finds the only procedure that expects exactly the E-RABs received, or failing an exact one the only one that expects all of them; it is of the current binding or unfenced and the only one the response can be credited to; reports ambiguity exactly when there are several |
| ErabCorrelation.Procedures.ApplySetupResponse | internal/s1ap/erab_setup.go:934-976 | the procedure is removed exactly when one response covers all of its E-RABs |
| ErabCorrelation.ResponseFindsItsProcedure | internal/s1ap/erab_setup.go:1367-1403 | while live procedures share no E-RAB, every non-empty response, complete or partial, is credited to its own procedure and is never ambiguous |
| ErabCorrelation.CompleteResponseAmbiguousExactlyWhen | internal/s1ap/erab_setup.go:1387-1403 | a complete response is ambiguous if and only if another live procedure expects the same E-RABs |
| ErabCorrelation.PartialResponseIsTakenExactlyWhen | internal/s1ap/erab_setup.go:1387-1403 | a partial response goes to another procedure if and only if that one alone is live and expects precisely what was received |
| ErabCorrelation.StaleProcedureIsNeverCredited | internal/s1ap/erab_setup.go:1367-1386 | a procedure of an earlier S1 binding is never credited |
| ErabCorrelation.PartialResponsesDoNotAddUp | internal/s1ap/erab_setup.go:955-976 | two partial responses that cover a procedure between them leave it pending |
| ErabCorrelation.CleanupSurvivesDuplicateExactlyWhen | internal/s1ap/erab_setup.go:955-976 | a duplicate Setup Response is credited to the cleanup if and only if it names only E-RABs under cleanup; the cleanup's procedure survives it, and the Release Response still finds it, if and only if it does not name all of them |
| ErabCorrelation.AmbiguousExactlyWhen | internal/s1ap/erab_setup.go:934-976 | a response is ambiguous if and only if two live procedures expect exactly the received E-RABs, or none does and two expect at least those |
| ErabProcedures.EventKeepsBearers | internal/s1ap/dedicated_bearer.go:73-1271 | no region adds a bearer to a pending transaction or takes one from it, so the E-RABs a procedure expects stay those of its transaction |
| ErabProcedures.SilentEndings | internal/s1ap/dedicated_bearer.go:433-452 | of the regions that end a transaction without deleting its procedure, the withdrawing resumption and the last Deactivate accept, exactly when they do end it |
| ErabProcedures.StepKeepsRegisteredExactlyWhen | internal/s1ap/erab_setup.go:1333-1365 | with procedures registered and removed in regions of their own: every live procedure of a Create, Update or Delete keeps its pending transaction if and only if it is registered while that is pending and the transaction does not end in one of those two regions |
| ErabProcedures.RebindingFencesOff | internal/s1ap/erab_setup.go:1367-1403 | after a new S1 binding a procedure of the one before is never credited again; one without a binding still is |
| ErabProcedures.ProceduresGoWithTransactions | internal/s1ap/erab_setup.go:1333-1365 | a region removes a procedure only together with its transaction, and never when it is a resumption or the accept of a deactivation |
| ErabProcedures.RunKeepsInOrder | internal/s1ap/erab_setup.go:1333-1365 | over any such run the procedures keep their transactions, identities have one owner and updates are apart |
| ErabProcedures.DisjointExactlyWhen | internal/s1ap/erab_setup.go:1367-1403 | the live procedures share no E-RAB if and only if the rivals among them do not: a Delete beside an Update or another Delete, and anything beside a default bearer setup, an aggregated setup or a PDN release; Creates and updates never do |
| ErabProcedures.EveryResponseFindsItsProcedure | internal/s1ap/erab_setup.go:1367-1403 | after any such run whose rivals share no E-RAB, every non-empty response to a live procedure, complete or partial, is credited to that procedure |
| ErabCorrelation.Procedures.Collect | internal/s1ap/erab_setup.go:1371-1386 | the scan splits the live procedures that expect all received E-RABs into exact and larger ones |
| ErabModification.ReconcileMeaning | internal/s1ap/erab_modification_indication.go:99-124 | an E-RAB is to be modified if and only if it is listed as modified and not as kept; those in both lists clash |
| ErabModification.ReconcileExactlyWhen | internal/s1ap/erab_modification_indication.go:99-124 | for lists with any repetitions: an E-RAB's transport is wanted if and only if the number of times it is named as kept is odd and it is not named as modified, or even and it is; it clashes if and only if it is named as kept and named before |
| ErabModification.LastTransportCounts | internal/s1ap/erab_modification_indication.go:99-124 | the transport that counts is the one named last |
| ErabModification.ValidExactlyWhen | internal/s1ap/erab_modification_indication.go:180-201 | an E-RAB is valid if and only if it is given an endpoint and is an established default or dedicated bearer, or the attach default bearer with a known S-GW endpoint; a dedicated one belongs to its default bearer |
| ErabModification.Validate | internal/s1ap/erab_modification_indication.go:125-150 | keeps exactly the E-RABs with a usable transport and a known PDN, collects exactly the default bearers they affect, and drops the others with their cause |
| ErabModification.BuildBearerList | internal/s1ap/erab_modification_indication.go:203-233 | the list names every affected default bearer and all its established dedicated bearers exactly once, in ascending order, each with the desired transport if given and otherwise the current one; it fails only when some bearer has none |
| ErabModification.ListedExactlyWhen | internal/s1ap/erab_modification_indication.go:203-255 | a bearer is in the list if and only if it is an affected default bearer or an established dedicated bearer of one, and with which endpoint: the wanted one, else that of a PDN connection, else of the attach default bearer, else its own |
| ErabModification.Prepare | internal/s1ap/erab_modification_indication.go:93-178 | the whole preparation: an immediate rejection answers every E-RAB asked to be modified; a request that is sent carries the full bearer list of every affected PDN, requests exactly the valid E-RABs that do not clash, and drops the others without any trace in what the final answer covers |
| ErabModification.Evaluate | internal/s1ap/erab_modification_indication.go:279-318 | every requested E-RAB goes to success, release or failure by the S-GW's verdict on it, clashes always fail, without an answer all fail; the three sets are disjoint and cover exactly what was requested and what clashed |
| ErabModification.VerdictMeaning | internal/s1ap/erab_modification_indication.go:279-318 | the last result for an E-RAB decides: success for no cause, 16 and 17, an own S1AP cause for 64, for 94 and for every other; without a result only a bare acceptance is a success, and a removed E-RAB is released |
| ErabModification.Bearers.Commit | internal/s1ap/erab_modification_indication.go:320-383 | every E-RAB the S-GW accepts in some result is carried to its desired transport on default bearer, PDNs and dedicated bearers, every released one loses its transport and is not established, a dedicated one also failed, and every other record is as before |
| ErabModification.CommittedAsReportedExactlyWhen | internal/s1ap/erab_modification_indication.go:279-362 | for any answer and any desired E-RAB it does not release: committed if and only if reported successful, if and only if the answer is not a bare accept and, where some result for the E-RAB accepts, its last one does |
| ErabModification.BareAcceptCommitsNothing | internal/s1ap/erab_modification_indication.go:303-312 | an accept that names no bearer reports success for all of them and commits none |
| ErabModification.ReconcileLists | internal/s1ap/erab_modification_indication.go:105-124 | the two loops over the lists of the indication, item by item and in order |
| ErabModification.FindDefault | internal/s1ap/erab_modification_indication.go:180-201 | the default bearer of the PDN that serves an E-RAB; none exactly when no established one does |
| ErabModification.FindTransport | internal/s1ap/erab_modification_indication.go:235-255 | the desired transport if there is one, otherwise where the bearer is carried now; none only when it is carried nowhere |
| ErabModification.FailAll | internal/s1ap/erab_modification_indication.go:385-395 | fails every E-RAB still requested, on top of the failures so far |
| ErabModification.Bearers.Apply | internal/s1ap/erab_modification_indication.go:364-383 | one committed E-RAB is carried to its transport wherever it is recorded, as established as before, and no record of another E-RAB changes |
| ErabModification.Bearers.Free | internal/s1ap/erab_modification_indication.go:339-361 | one released E-RAB loses its transport wherever it is recorded and is not established, a dedicated one also failed, and no record of another E-RAB changes |
| ErabModification.CommitSettles | internal/s1ap/erab_modification_indication.go:320-383 | the specification of the commit gives exactly the removed E-RABs up, carries exactly the accepted ones to where the eNB wants them, and keeps all other records, for every answer |
| InitialAggregation.Window.MaybeFlush | internal/s1ap/erab_setup.go:130-174 | dispatches at most one plan, aggregated unless the timer expired, and uses one downlink COUNT per dedicated PDU even when it fails half way |
| InitialAggregation.Window.StageActivation | internal/s1ap/erab_setup.go:92-125 | keeps one plan per staging; dispatches at most one, aggregated plan, and the COUNTs stay fresh if and only if the activation was protected with the current one |
| InitialAggregation.Window.TimerCallback | internal/s1ap/erab_setup.go:245-269 | keeps one plan per staging; only the callback of the staging that is still open dispatches anything, its own plan |
| InitialAggregation.OneSetupPerStaging | internal/s1ap/erab_setup.go:92-174 | over every interleaving plans are never more than stagings, each of its own generation, and no plan is taken back |
| InitialAggregation.StagingsAreConserved | internal/s1ap/erab_setup.go:92-174 | when a bearer is staged again only after its flush, every staging is open or was answered by exactly one E-RAB Setup |
| InitialAggregation.OnlyTheTimerFallsBack | internal/s1ap/dedicated_bearer.go:261-271 | any plan that a request handler produces is aggregated, so the Create Bearer handler loses none |
| InitialAggregation.PlanIsOfRequesterExactlyWhen | internal/s1ap/dedicated_bearer.go:261-325 | the plan that the Create handler registers under its own transaction's ID carries that transaction's bearers, whatever the map order, if and only if no other linked transaction that waits owns all its reservations |
| InitialAggregation.FlushDisarmsTimer | internal/s1ap/erab_setup.go:245-269 | the callback of a flushed staging does nothing however late it comes |
| InitialAggregation.StagingOpens | internal/s1ap/erab_setup.go:92-128 | staging opens the window with the COUNT the activation was protected with under a new generation |
| InitialAggregation.FirstPlanIsOfTheStaging | internal/s1ap/erab_setup.go:92-174 | over any run the first plan after a staging carries that staging's COUNT and generation |
| InitialAggregation.TimerEndsWindowExactlyWhen | internal/s1ap/erab_setup.go:245-269 | the timer ends the window if and only if the transaction it meets owns all its reservations |
| InitialAggregation.CountsStayFresh | internal/s1ap/dedicated_bearer.go:392-431 | when protecting and staging are one step no downlink COUNT is used twice or skipped, over whole runs |
| InitialAggregation.StagingReusesCountExactlyWhen | internal/s1ap/erab_setup.go:92-125 | in any state, also with linked Creates waiting and whichever is flushed along: COUNTs stay unused-once and gap-free if and only if no downlink message was protected between protecting the activation and staging it |
| InitialAggregation.SetupCountsAreConsecutiveExactlyWhen | internal/s1ap/dedicated_bearer.go:392-431 | the PDUs of one aggregated E-RAB Setup carry consecutive COUNTs if and only if no other downlink message came between staging and flush |
| InitialAggregation.Window.BuildItems | internal/s1ap/dedicated_bearer.go:395-431 | consecutive COUNTs for the bearers up to the first whose reservation is not owned, and failure exactly there; used COUNTs stay used |
| DefaultBearer.Pdn.AdvanceDefault | internal/s1ap/erab_setup.go:1033-1136 | tells the caller to send if and only if a request can be sent and no linked Create is pending; every request stays accounted for |
| DefaultBearer.Pdn.SendModifyBearer | internal/s1ap/erab_setup.go:1151-1175 | the first region: calls for exactly one send if one can be made, and none can be made afterwards; every request stays accounted for, at most four in all |
| DefaultBearer.Pdn.EndSend | internal/s1ap/erab_setup.go:1190-1206 | the second region: a failed send ends the activation whatever became of the PDN in the meantime, and nothing is sent after it |
| DefaultBearer.Pdn.OnTimeout | internal/s1ap/erab_setup.go:1241-1284 | the first region: calls for at most one fallback between two answers, otherwise ends the activation or does nothing |
| DefaultBearer.Pdn.EndFallback | internal/s1ap/erab_setup.go:1285-1306 | the second region: a failed fallback ends the activation if and only if the PDN still waits for its answer |
| DefaultBearer.Pdn.HandleResult | internal/s1ap/nas.go:920-1025 | an answer given to this PDN has an effect if and only if the PDN waits for one; it sends nothing, and retries stay within two |
| DefaultBearer.DeliverAnswer | internal/s1ap/nas.go:926-930 | the answer goes to some PDN that waits for one, whichever is met first, or to none if none waits |
| DefaultBearer.AnswerReachesAskerExactlyWhen | internal/s1ap/nas.go:926-930 | for every order in which the PDN connections can be met the answer has its effect on the PDN that asked and on no other, if and only if that one alone is waiting |
| DefaultBearer.AtMostFourRequests | internal/s1ap/erab_setup.go:1033-1321 | over any order and repetition of the regions at most four Modify Bearer Requests are sent for an activation, and none before the UE accepted and the eNB established the bearer |
| DefaultBearer.NoneAfterTheEnd | internal/s1ap/nas.go:920-1025 | nothing is sent once the activation was accepted or failed |
| DefaultBearer.FourRequestsHappen | internal/s1ap/erab_setup.go:1241-1321 | the bound is reached by a first request, its fallback and two retries |
| DefaultBearer.ExactlyOneRequest | internal/s1ap/erab_setup.go:989-1207 | for any interleaving of the regions of any number of accepts, E-RAB results, linked Creates, settle timers and initial accesses, at most one request is sent before an answer, timeout or failed send, and only after both sides were seen; once no handler is under way it has been sent, or a side is missing, or it is deferred behind a Create |
| DefaultBearer.AnswerIsHiddenExactlyWhen | internal/s1ap/erab_setup.go:989-1031 | a PDN that waits for its answer leaves the pending phase with the request outstanding if and only if the region is that of an E-RAB result, of either sign |
| DefaultBearer.HiddenAnswerReturnsExactlyWhen | internal/s1ap/erab_setup.go:1033-1136 | meanwhile answer and timeout are ignored; the PDN returns to the pending phase if and only if it advances with both sides present and no linked Create pending |
| DefaultBearer.HeldBackIsSent | internal/s1ap/erab_setup.go:1033-1239 | a request that was held back for a linked Create is sent once the Create has ended; the settle timer and the initial access send one as well |
| DefaultBearer.PhaseIsTrue | internal/s1ap/erab_setup.go:989-1321 | over every run the phase is true: active means accepted by UE, eNB and S-GW, pending means a request is outstanding on both sides, failed means failed |
| DefaultBearer.AnswerMeaning | internal/s1ap/nas.go:919-1013 | the answer a PDN waits for: an acceptance opens the user plane, a reject with 94 makes the request due again at most twice unless a linked Create is pending, anything else ends the activation |
| DefaultBearer.AdvanceMeaning | internal/s1ap/erab_setup.go:1033-1136 | the caller sends exactly when a request is due and no linked Create is pending; held back exactly when one is; the phase says what the PDN waits for |
| DefaultBearer.TimeoutMeaning | internal/s1ap/erab_setup.go:1241-1321 | without an answer the request is sent once more if the endpoints are known; the second time, or when that fails, the activation ends |
| Handover.Context.CheckRequired | internal/s1ap/handover.go:25-180 | decides on a preparation exactly under the source's guards; the act it decides on is timely at that moment and nothing else changes |
| Handover.Context.CheckRequestAck | internal/s1ap/handover.go:208-285 | decides to execute or to give up only for the target of a preparation; the act is timely at that moment and nothing else changes |
| Handover.Context.CheckCancel | internal/s1ap/handover.go:365-408 | decides to clear only for the source of a handover; nothing else changes |
| Handover.Context.CheckNotify | internal/s1ap/handover.go:512-570 | decides to move only for the target of an execution; nothing else changes |
| Handover.Context.CheckSwitch | internal/s1ap/path_switch.go:32-105 | decides to switch if and only if the UE is registered with an active bearer and the list is acceptable |
| Handover.Context.StartPreparation | internal/s1ap/handover.go:183-192 | the context stays settled if and only if the act still finds what its check saw; the service is untouched |
| Handover.Context.ClearPreparation | internal/s1ap/handover.go:257-270 | the context stays settled if and only if the act still finds what its check saw; the service is untouched |
| Handover.Context.StartExecution | internal/s1ap/handover.go:288-298 | the context stays settled if and only if the act still finds what its check saw, a preparation; the service is untouched |
| Handover.Context.CancelHandover | internal/s1ap/handover.go:412-424 | always leaves a settled context without a handover, and the service untouched |
| Handover.Context.StopExecTimer | internal/s1ap/handover.go:563-565 | keeps the context settled: the execution without a timer has its commit under way |
| Handover.Context.MoveToTarget | internal/s1ap/handover.go:583-605 | binds the UE to the target that notified and to its endpoint, with no other record changed and no trace of the handover left, and advances the keys once, whatever the handover has become; the context stays settled if and only if the act is timely |
| Handover.Context.CompleteSwitch | internal/s1ap/path_switch.go:119-146 | binds the UE to the new eNB, carries exactly the listed E-RABs to their items' transports, advances the keys once and leaves any handover as it is |
| Handover.Context.OnPrepTimeout | internal/s1ap/handover.go:622-647 | the context stays settled if and only if the act still finds what its check saw, a preparation whose own timer has fired; the service is untouched |
| Handover.Context.OnExecTimeout | internal/s1ap/handover.go:650-677 | the context stays settled if and only if the act still finds what its check saw, an execution whose own timer has fired; the service is untouched |
| Handover.Context.ApplySwitch | internal/s1ap/path_switch.go:213-234 | bearer by bearer, every record of a listed E-RAB is carried to the transport of its item and no other record changes |
| Handover.BuildSwitchList | internal/s1ap/path_switch.go:164-211 | the list is refused if and only if it is empty, names an E-RAB twice or an unknown one, or lacks a transport; otherwise it is the same E-RABs in ascending order |
| Handover.StepKeepsSettledExactlyWhen | internal/s1ap/handover.go:183-304 | checks, acts, timers and their callbacks are separate steps: from a settled context (no handover, no trace of one; timers run in their phase only; a phase without its timer is about to end) a step leads to a settled one if and only if the act that is done is timely |
| Handover.RunKeepsSettled | internal/s1ap/handover.go:183-304 | over any interleaving of timely acts the context stays settled |
| Handover.UninterruptedIsTimely | internal/s1ap/handover.go:232-304 | an act that follows its check with nothing in between is timely |
| Handover.ServiceChangesOnlyByMoving | internal/s1ap/handover.go:541-605 | binding, user plane and keys change only at the commit of a Notify or of a path switch, exactly once each, whatever else happened in between: a handover moves the default bearer to the target's endpoint and no other record, a path switch carries every listed E-RAB to its item's transport and no other record changes |
| Handover.SwitchCarriesListed | internal/s1ap/path_switch.go:213-234 | the specification of a path switch carries every record of a listed E-RAB to the transport of the last item naming it and keeps all other records |
| Handover.HandoverCompletes | internal/s1ap/handover.go:25-605 | a handover that is required, admitted and notified without interruption binds the UE to what the target notified, with the endpoint the target gave and the next keys, and leaves nothing under way |
| Handover.PreparationIsUndone | internal/s1ap/handover.go:306-433 | a preparation that is refused, whose answer does not decode, that is cancelled or times out leaves the UE in the very state it was in before |
| Handover.ExecutionIsUndone | internal/s1ap/handover.go:365-684 | so does an execution that is cancelled or times out |
| Handover.DecisionExactlyWhen | internal/s1ap/handover.go:25-541 | which handover messages are acted on, with all guards, and how; every other one is ignored |
| Handover.SwitchExactlyWhen | internal/s1ap/path_switch.go:68-106 | a path switch is taken up if and only if the UE is registered with a session and the list is not empty, has no E-RAB twice, and names only established E-RABs with an endpoint |
| Handover.MovesAreAskedFor | internal/s1ap/handover.go:528-570 | a commit comes from a Notify that the target sent during the execution, with the endpoint known then, or from an acceptable path switch |
| Handover.AbandonedHandoverRestoresState | internal/s1ap/handover.go:346-353 | after any interleaving of checks, timely acts and timers without a commit, a UE that is idle again is in exactly the state it was in before |
| Handover.KeysFollowMoves | internal/s1ap/path_switch.go:129-145 | after k completed moves the NCC has advanced by k modulo 8 and the NH is the k-th key of its derivation chain, over every interleaving, timely or not |
| Handover.RevivedHandoverExactlyWhen | internal/s1ap/handover.go:257-299 | acting on a Request Acknowledge leaves an execution that no Cancel, and no Notify, of any eNB can end if and only if the preparation was over by then; its timer ends it in a settled context |
| Handover.CancelKeepsServiceExactlyWhen | internal/s1ap/handover.go:563-605 | once a Cancel was acted on, nothing that is already under way, in any order, changes who serves the UE, if and only if no Notify and no path switch is on its way to its commit |
| Reachability.Supervision.RefreshReachability | internal/s1ap/reachability.go:104-135 | every callback of the two supervision timers armed before is dead from then on and none has taken effect; for an idle UE the mobile-reachable timer runs again under a new generation; a claimed cleanup is left alone |
| Reachability.Supervision.OnMobileReachableExpiry | internal/s1ap/reachability.go:175-200 | it has an effect exactly for the live timer of an idle registered UE, and then marks it unreachable and arms the implicit detach timer under a generation never used before; it is dead afterwards and claims nothing |
| Reachability.Supervision.OnImplicitDetachExpiry | internal/s1ap/reachability.go:202-239 | it has an effect exactly for the live timer of a registered UE, and then claims the terminal cleanup, which no callback had claimed before, starts the deregistration and arms the cleanup timer under a new generation |
| Reachability.Supervision.OnCleanupTimeout | internal/s1ap/reachability.go:244-263 | it has an effect exactly for the live timer of a claimed cleanup, and then finalises and is dead afterwards |
| Reachability.StaleCallbackDoesNothing | internal/s1ap/reachability.go:104-263 | a callback whose timer was refreshed, cancelled, re-armed or has fired has no effect after any later run |
| Reachability.EffectHappensOnce | internal/s1ap/reachability.go:175-263 | a callback that takes effect was live and can never take effect again |
| Reachability.TouchedTimerIsDead | internal/s1ap/reachability.go:104-173 | refresh, cancel, restore and re-arming each kill the callbacks armed before |
| Reachability.EffectNeedsUntouchedTimer | internal/s1ap/reachability.go:104-263 | over a whole run a callback takes effect only if nothing touched its timer since it was armed |
| Reachability.ClaimedAtMostOnce | internal/s1ap/reachability.go:202-239 | the terminal cleanup is claimed at most once per context, and no later reachability step leaves it |
| Reachability.FinalizedAtMostOnce | internal/s1ap/reachability.go:244-263 | the local finalisation happens at most once for an armed cleanup timer |
| Reachability.RestoredCleanupFinalizesExactlyWhen | internal/s1ap/reachability.go:19-55 | a restored terminal cleanup can be finalised by its timer if and only if its deadline is still to come; the callback started for an expired one does nothing |
| Reachability.RestoredDeadlinesFire | internal/s1ap/reachability.go:56-98 | the other two restored timers do take effect when their deadline has passed |
| Reachability.EffectExactlyWhen | internal/s1ap/reachability.go:175-263 | when a callback of each timer takes effect, and what it does then: begin the implicit detach, begin the cleanup, finalise |
| Reachability.SilenceEndsInCleanup | internal/s1ap/reachability.go:175-263 | from the expiry of the mobile-reachable timer the detach callback it armed claims the cleanup, and the cleanup callback armed by that finalises, over any runs in between that do not touch those timers or take the UE out of the registered state |
| Reachability.StepKeepsSupervisedExactlyWhen | internal/s1ap/reachability.go:104-239 | an idle registered UE keeps a running timer in every step but the listed ones: a refresh without a time, a cancellation, and becoming idle or registered without a timer |
| Reachability.NobodyIsForgotten | internal/s1ap/reachability.go:104-239 | over any run without those steps no idle registered UE is left without a running timer |
| Reachability.ArmingStartsTheTime | internal/s1ap/reachability.go:104-173 | a refresh and the arming for idle start the mobile-reachable time anew exactly for a registered, idle UE with a positive time; a cancellation and the end of a cleanup stop their timers and change nothing else |
| Reachability.RestoredIsResumed | internal/s1ap/reachability.go:19-98 | a restart runs exactly the one timer that the persisted state calls for, under a new generation, and starts its callback at once exactly when its deadline has passed |
| DeleteSession.Sessions.FindByLinkedEbi | internal/s1ap/esm.go:971-1005 | finds a PDN with the identity, or makes the attach default bearer one; nothing exactly when neither exists |
| DeleteSession.Sessions.ResolveTarget | internal/s1ap/nas.go:1307-1331 | prefers the PDN with the UE's own TEID, then the default APN, then any that is alive; none only when nothing qualifies |
| DeleteSession.Sessions.SendDeleteSession | internal/s1ap/nas.go:1224-1248 | one request for the resolved session with both TEIDs cleared; nothing when the UE has none |
| DeleteSession.Sessions.SendForPdn | internal/s1ap/nas.go:1333-1383 | one request with the session's TEID, which is cleared, none when it was used before; the UE's own TEID goes if and only if the default bearer is this one or shares the TEID |
| DeleteSession.Sessions.CollectLive | internal/s1ap/nas.go:1255-1266 | lists the default bearer of every PDN with a TEID, once each |
| DeleteSession.Sessions.SendForDetach | internal/s1ap/nas.go:1250-1279 | afterwards every PDN session that was alive has had exactly one request and none is alive |
| DeleteSession.AtMostOneRequestPerSession | internal/s1ap/nas.go:1224-1383 | under any repetition and interleaving of detach, disconnect and release triggers each session gets at most one Delete Session Request |
| DeleteSession.PdnRequestIsAddressed | internal/s1ap/nas.go:1325-1383 | deleting a PDN sends one request to the TEID its session had, clears it, marks the PDN, and leaves every other session alone |
| DeleteSession.OwnRequestIsAddressedExactlyWhen | internal/s1ap/nas.go:1224-1323 | deleting the UE's own session sends its TEID once; the bearer it names has this TEID if and only if the PDN found has it, is the default bearer's, or none was found |
| DeleteSession.OwnSessionComesFirst | internal/s1ap/nas.go:1299-1323 | the PDN found has the UE's TEID if any has, else is the live one of the default APN, else some live one; in the first two cases, and when none is alive, the request is addressed to its session |
| DeleteSession.LookingRecordsTheDefault | internal/s1ap/esm.go:971-1005 | looking for a PDN records at most the attach default bearer as one, exactly when no PDN carries it and its APN is not known |
| DeleteSession.FoundExactlyWhen | internal/s1ap/esm.go:971-1005 | a PDN is found if and only if some PDN carries the bearer, or it is the attach default bearer and has an APN |
| WarningAggregation.Server.ReserveKey | internal/s1ap/pws.go:76-89 | accepts a request if and only if its key is not reserved; while keys have one holder, nothing is stored under an accepted key |
| WarningAggregation.Server.StoreTransaction | internal/s1ap/pws.go:84-96 | the transaction is the stored one from then on, and while keys have one holder it displaces no other |
| WarningAggregation.Server.RecordFailure | internal/s1ap/pws.go:98-106 | a failed send leaves a transaction that only a timer can end if and only if nobody else is waited for; targets stay split |
| WarningAggregation.Server.FindTransaction | internal/s1ap/pws.go:215-219 | an answer finds the stored transaction with its key, or none exactly when there is none |
| WarningAggregation.Server.EndOfSending | internal/s1ap/pws.go:100-124 | gives the request up if and only if it reached nobody, and then keys keep their one holder if and only if something is still stored under its key |
| WarningAggregation.Server.CountAnswer | internal/s1ap/pws.go:215-241 | an answer goes on to take the transaction out if and only if it is the last one waited for; no table changes yet |
| WarningAggregation.Server.CompleteTransaction | internal/s1ap/pws.go:242-251 | takes the transaction out if and only if it is still the stored one; each is indicated at most once, and only its own key is given back |
| WarningAggregation.Server.OnTimeout | internal/s1ap/pws.go:129-144 | ends exactly what is stored under the key of its transaction, which can be a later one |
| WarningAggregation.Server.ReleaseKey | internal/s1ap/pws.go:146-150 | frees the key; while keys have one holder nothing is stored under it then, and no other release of it is under way |
| WarningAggregation.RunKeeps | internal/s1ap/pws.go:50-262 | over every interleaving of the regions, without assumption: targets split into waiting, answered and unreachable, and each transaction is taken out at most once and given up at most once |
| WarningAggregation.StepKeepsOneHolderExactlyWhen | internal/s1ap/pws.go:75-150 | every reserved key is being stored, has a transaction or is about to be released, exactly one of these: a step keeps this if and only if it does not give up a request under whose key nothing is stored any more |
| WarningAggregation.OneHolderThroughoutExactlyWhen | internal/s1ap/pws.go:75-150 | the same over whole runs, at every point of them |
| WarningAggregation.StoreDisplacesExactlyWhen | internal/s1ap/pws.go:93-96 | a transaction is stored over another one if and only if it finds that under its reserved key, which never happens while keys have one holder |
| WarningAggregation.KeyIsGivenToTwo | internal/s1ap/pws.go:75-150 | a run in which it does not hold: a timer fires before the only send fails, the key is released twice, and a third request replaces the transaction of the second, which is neither indicated nor given up |
| WarningAggregation.StepConservesExactlyWhen | internal/s1ap/pws.go:75-150 | every transaction is stored, indicated or given up, exactly one of these: a step keeps this if and only if it does not take out a transaction whose request has reached nobody yet |
| WarningAggregation.ConservedThroughoutExactlyWhen | internal/s1ap/pws.go:75-150 | the same over whole runs, at every point of them; and keys keep their one holder then |
| WarningAggregation.NeverBothExactlyWhen | internal/s1ap/pws.go:100-144 | over any run whatever no transaction is both indicated and given up if and only if none is given up after it was taken out |
| WarningAggregation.GiveUpIsCleanExactlyWhen | internal/s1ap/pws.go:100-127 | giving up leaves keys with one holder and all other transactions in place if and only if the transaction is still the stored one |
| WarningAggregation.GiveUpLosesAnotherExactlyWhen | internal/s1ap/pws.go:100-127 | a give-up deletes another transaction if and only if that is stored under the same key; it is then neither indicated nor given up, and its key is released |
| WarningAggregation.LostForGood | internal/s1ap/pws.go:100-262 | a transaction that was deleted or replaced is never indicated, however long the run |
| WarningAggregation.StaleTimerEndsLaterTransactionExactlyWhen | internal/s1ap/pws.go:129-144 | a timer takes out a later transaction if and only if that one is stored under the same key |
| WarningAggregation.SendFailureStrandsExactlyWhen | internal/s1ap/pws.go:100-110 | a send failure leaves a stored transaction that waits for nobody and that no answer is about to take out, if and only if it concerns the only eNB still waited for |
| WarningAggregation.StrandedWaitsForTimer | internal/s1ap/pws.go:129-144 | over any run without a timeout such a transaction is never indicated, whoever answers |
| WarningAggregation.EveryOrderOfAnswersIndicates | internal/s1ap/pws.go:208-262 | when all eNBs waited for answer, in whatever order, the answers alone take the transaction out, once, with all of them counted |
| Gtpv2.EncodeIeList | internal/gtpv2/ies.go:19-30 | the appending loop yields the concatenation of header and value of every element |
| Gtpv2.DecodeIeList | internal/gtpv2/ies.go:33-52 | the advancing loop yields the elements of the octets, or fails exactly when they do not parse |
| Gtpv2.IesRoundTrip | internal/gtpv2/ies.go:19-52 | any list of elements that fit the wire comes back from its encoding |
| Gtpv2.DecodedIesEncodeBack | internal/gtpv2/ies.go:19-52 | encoding what was decoded gives the octets with their spare nibbles cleared, and only elements that fit the wire are ever decoded |
| Gtpv2.CanonicalClearsOnlySpare | internal/gtpv2/ies.go:19-52 | clearing them changes nothing but upper halves of octets, and nothing at all if and only if they were clear |
| Gtpv2.EncodeMessage | internal/gtpv2/message.go:31-68 | the buffer filled by index is the header followed by the elements, with and without TEID |
| Gtpv2.MessageRoundTrip | internal/gtpv2/message.go:31-177 | a message within the length field comes back with its sequence number reduced to 24 bits |
| Gtpv2.FlagIsIgnored | internal/gtpv2/message.go:122-177 | Decode does not look at the piggyback flag |
| Gtpv2.DecodeDatagram | internal/gtpv2/message.go:90-119 | the loop that advances the slice yields the messages of the datagram, or fails exactly when it does not parse; it terminates on all octets |
| Gtpv2.DatagramRoundTrip | internal/gtpv2/message.go:73-119 | any non-empty list of messages that fit, with the flag on all but the last, comes back from one datagram |
| Gtpv2.AcceptedIsConsumed | internal/gtpv2/message.go:90-119 | whatever is accepted was consumed to its last octet, message by message |
| Gtpv2.DanglingPiggybackIsAccepted | internal/gtpv2/message.go:90-119 | a last message that announces another one is accepted like one that does not |
| Gtpv2.ElementLayout | internal/gtpv2/ies.go:19-31 | an element is its type, its length in network order, its instance in the low nibble, and its value |
| Gtpv2.MessageLayout | internal/gtpv2/message.go:31-71 | version, TEID flag, length, TEID and sequence number of an encoded message stand at their octets, in network order |
| Gtpv2.ElementsExactlyWhen | internal/gtpv2/ies.go:33-52 | octets decode to elements if and only if each header is whole and its length stays within them |
| Gtpv2.MessageExactlyWhen | internal/gtpv2/message.go:122-171 | a message is accepted if and only if its version is 2, its length covers its header and not more than the octets, and the rest are elements; its fields are read in network order |
| S10Context.EncodeDigits | internal/gtpv2/ies.go:579-594 | the loop that writes nibbles by index yields two digits per octet, low nibble first, with F as filler |
| S10Context.BcdRoundTripExactlyWhen | internal/gtpv2/ies.go:547-594 | digits of odd and even length come back if and only if none at an odd position is F |
| S10Context.BcdReencodes | internal/gtpv2/ies.go:547-594 | octets whose only F nibble is the last high one are encoded back to themselves |
| S10Context.DecodeNameOctets | internal/gtpv2/ies.go:560-575 | the loop yields the labels up to a zero length or a label that is cut short |
| S10Context.NameRoundTripExactlyWhen | internal/gtpv2/ies.go:560-612 | a name comes back if and only if it is empty or all its labels have 1 to 255 octets |
| S10Context.EncodeMmContext | internal/gtpv2/ies.go:416-438 | the buffer is the 77 fixed octets, the MSISDN and the name |
| S10Context.MmRoundTripExactlyWhen | internal/gtpv2/ies.go:416-476 | an MM Context comes back if and only if both keys have 32 octets, the MSISDN at most 255, and the APN is empty or has labels of 1 to 255 octets |
| S10Context.FteidRoundTrip | internal/gtpv2/ies.go:214-249 | an IPv4 F-TEID comes back, and fits the wire |
| S10Context.PdnRoundTripExactlyWhen | internal/gtpv2/ies.go:480-529 | a PDN Connection with IPv4 endpoints comes back if and only if its APN is empty or has labels of 1 to 255 octets |
| S10Context.MmLayout | internal/gtpv2/ies.go:416-439 | every field of an encoded MM Context stands at its octets, COUNTs in network order |
| S10Context.MmExactlyWhen | internal/gtpv2/ies.go:441-476 | an MM Context is accepted if and only if it has the format octet, its fixed part and the MSISDN it announces |
| S10Context.FteidExactlyWhen | internal/gtpv2/ies.go:227-249 | an F-TEID is accepted if and only if it has nine octets and the IPv4 flag without the IPv6 flag |
| S10Context.FteidLayout | internal/gtpv2/ies.go:214-225 | flags and interface type, TEID and address of an encoded F-TEID stand at their octets |
| S10Context.PdnExactlyWhen | internal/gtpv2/ies.go:493-529 | a PDN Connection is accepted if and only if its octets are elements; what is missing or of another kind reads as nothing |
| S10Context.PdnElements | internal/gtpv2/ies.go:480-491 | types, instances and interface types of the elements of a PDN Connection |
| S10Context.FindFirst | internal/gtpv2/ies.go:55-62 | the loop finds the first element with the type and instance |
| NasCount.Reconstruct | internal/s1ap/detach_idle.go:150-167 | fails exactly on an empty or too short protected message, keeps the stored COUNT for a plain one, and otherwise gives the COUNT fewer than 256 ahead that is carried as the message's octet |
| NasCount.RecoversExactlyWhen | internal/s1ap/detach_idle.go:162-166 | the sender's COUNT is recovered if and only if it is fewer than 256 ahead of the stored one, counting through the 32-bit wrap |
| NasCount.DecreasesExactlyWhen | internal/s1ap/detach_idle.go:162-166 | the rebuilt COUNT is below the stored one if and only if the stored one is in the last 256 of the range and the octet is behind it |
| NasCount.LeastUnlessWrapping | internal/s1ap/detach_idle.go:162-166 | everywhere else it is the least COUNT at or above the stored one that is carried as the octet |
| NasCount.Security.Process | internal/s1ap/attach.go:504-607 | the COUNT moves only for a message decoded under derived keys with a known type, and then to the COUNT it was decoded with |
| NasCount.Security.ProcessInitialDetach | internal/s1ap/detach_idle.go:86-124 | a Detach Request from idle is taken if and only if it is protected, verifies and is one; only then the COUNT moves |
| NasCount.MovesExactlyWhen | internal/s1ap/attach.go:541-589 | a message moves the COUNT if and only if it decodes as session management, or as mobility management of a known type, under the rebuilt COUNT, and that is not the stored one |
| NasCount.TakenExactlyWhen | internal/s1ap/attach.go:541-589 | a genuine message is taken if and only if it is fewer than 256 ahead, and then the committed COUNT is the sender's |
| NasCount.LastMessageIsTakenAgain | internal/s1ap/attach.go:541-589 | a second delivery of the message just taken is taken again and leaves the COUNT |
| NasCount.RunNeverDecreases | internal/s1ap/attach.go:541-589 | over any run of messages, genuine or not, the COUNT never decreases while it is below its last 256 values |
| NasCount.NeverFallsExactlyWhen | internal/s1ap/attach.go:504-598 | reading the COUNT and committing it are separate regions: over any interleaving of any number of messages, and outside its last 256 values, the stored COUNT never falls if and only if no larger COUNT is committed between the read and the commit of a message |
| NasCount.UninterruptedIsOneStep | internal/s1ap/attach.go:504-598 | a message that is committed before anything else happens moves the COUNT as one step would |
| NasCount.OvertakenCountFallsBack | internal/s1ap/attach.go:504-598 | of two messages read under one COUNT and committed in the wrong order, the stored COUNT ends as the earlier one, and the later message is taken once more |
| NasCount.InStepExactlyWhen | internal/s1ap/attach.go:541-589 | every message of a run is taken if and only if none is 256 or more ahead of the one before it; the COUNT then ends as the last one sent |
| NasCount.OutOfStepForGood | internal/s1ap/attach.go:541-589 | once all later messages are 256 or more ahead none is taken and the COUNT never moves again |

## Left out

What the repository does and the model does not:

- The APER codec, `pdu`, `ies`, `nas/emm`, `nas/esm`, `nas/security`, `nas/timer`, `sbcap` and the S1AP byte encoders on top of them: messages arrive decoded, encoders and ciphers are not modelled, and key derivation is any function (`Handover.Derivation`).
- SCTP, UDP, Diameter, SQLite, logging, metrics, configuration, the HTTP API and the load generator: input and output only. Whether a message could be sent is an argument or an event of its own.
- Clocks: a timer is an armed record with a generation where the code has one, and may fire at any time while armed.
- Downlink data notification, paging retries and positioning. Paging enters only as the state it leaves in a Create.
- T3485 of default bearers (`internal/s1ap/esm_activation_timer.go:126-227`). Failing the Creates linked to a default bearer appears as the event `CreateFails` for each of them.
- Service Request, tracking area update, SMS, SGs and UE Context Release handlers: they appear as events that change the access state.
- Gateway selection, roaming, PLMN helpers, PDN type negotiation and access restrictions: their results are arguments or constants of the model.
- The QoS and TFT echoed in the answer to a Create, and the bearers listed in the answers to an Update and a Delete.
- Contents of NAS PDUs and E-RAB items, aggregate bit rates, ARP flags and time stamps: carried as opaque octets or dropped, except what a branch tests.

How the model differs in form:

- Transactions and bearer contexts are values in the maps of the UE. In Go they are pointers, so a bearer record installed as active is the very object of its finished transaction; nothing in the modelled code writes through that alias afterwards.
- `go s.sendFinalCreateBearerResponse` (`internal/s1ap/dedicated_bearer.go:1073`) belongs to the region that removes the transaction. In Go a retransmission can fall in between, and is then admitted anew.
- A path switch checks the registration and the bearer list in two regions (`internal/s1ap/path_switch.go:68-106`), and Handover Required reads the aggregate bit rates in a region of its own. The model takes each as one check.
- A warning transaction counts as indicated when it is taken out for that. Releasing its key and sending the indication follow in the same goroutine, the release as an event of its own.
- Generations are unbounded. The code uses 64-bit counters.
- Order within S11 and S1AP lists taken from a Go map is not modelled where the code does not sort.
- The aggregation's choice among linked transactions, and the first failed or open bearer met by `maybeCompleteUpdateBearerLocked`, are arguments that range over all iteration orders. E-RAB Modify Failure names no E-RAB and fails whichever pending update is met first; the event `UpdateFails` covers any of them.
- A failure to protect a NAS message inside a region is not modelled.

What is assumed of the environment, and stated weaker for it:

- BearerInvariants.StepKeepsIdentities: assumes one S-GW peer per local TEID, because transaction IDs leave the peer out; `BearerLedger.FailureSparesOthersExactlyWhen` gives the exact condition. Create Session Responses with an EBI owned by another session are excluded, with the exact condition in `BearerInvariants.SessionCreatedKeepsExactlyWhen`.
- BearerInvariants.IdentitiesAreDisjoint: reservations without an owner exist, so only one direction holds: pending Creates own their reservations, not the converse.
- BearerOutcome.OrderDoesNotMatter: supposes that each side decides once per bearer; the events that are not admitted in between are listed in `BearerOutcome.Intrudes`.
- BearerCleanup.CleanupNeverActivates: excludes the events that overwrite the state of the transaction without looking at it; `BearerCleanup.CleanupKeptExactlyWhen` shows that each of them, and no other, gives the cleanup up, and `BearerCleanup.OverwriteActivatesExactlyWhen` what follows. E-RAB results that arrive after an early finalisation are ignored by the code, so nothing is claimed about E-RABs left behind at the eNB.
- BearerUpdates.RecordsWaitForConfirmation: excludes the events that change or remove a record of the update while it is pending; `BearerUpdates.RecordsKeptExactlyWhen` shows that these, and no others, do so.
- UeContext.Context.HandleCreateBearerRequest: promises the class invariant for requests of the S-GW that the TEID belongs to.
- ErabProcedures.EveryResponseFindsItsProcedure: supposes that the live rivals share no E-RAB. Nothing in the code keeps them apart, and when they do share one `ErabCorrelation.CompleteResponseAmbiguousExactlyWhen` and `ErabCorrelation.PartialResponseIsTakenExactlyWhen` apply.
- ErabModification.Prepare: supposes that a dedicated bearer is neither a default bearer nor what another one is linked to, which is where listing each bearer once relies on single ownership.
- InitialAggregation.CountsStayFresh: takes protecting and staging as one step; `InitialAggregation.StagingReusesCountExactlyWhen` gives the exact condition without that.
- DeleteSession.AtMostOneRequestPerSession: supposes that each default bearer belongs to one PDN and that no new session is created meanwhile under an identity that was deleted.
- Handover.RunKeepsSettled: supposes that every act is timely, the exact condition of `Handover.StepKeepsSettledExactlyWhen`. The code does not check it.
- Handover.KeysFollowMoves: for 32-octet keys and a derivation that succeeds on them; with other lengths the code leaves NH and NCC alone.
- Gtpv2.DatagramRoundTrip: for sequence numbers of 24 bits; larger ones come back reduced (`Gtpv2.MessageRoundTrip`).
- S10Context.PdnRoundTripExactlyWhen: for IPv4 endpoints of the three expected interfaces; other addresses are replaced by zeros.
- NasCount.RunNeverDecreases: messages are processed one after the other; `NasCount.NeverFallsExactlyWhen` gives the exact condition when they are not.
