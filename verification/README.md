# Private DNS publication and PowerDNS convergence in Dafny

A Dafny model of the two subsystems of the DNS operator in which many writers
share one authoritative published state.

**Private zone publication.** `Sources`, `ClaimTable`, `FenceTable`,
`Aggregation` and `Compiler` specify the zone compiler: ownership claims,
lifetime fences, gathered RRsets and the rejection of sources whose SRV targets
have no address. `CompilerLoops` is the compiler as it executes, proved equal to
that specification. `Wire` is the regional wire plan. `Publication` holds the
single exchanges of the commit protocol and `Runs` the step machine over them:
any number of passes with stale copies of the ownership record, crashes,
takeovers under arbitrary clocks, lease release, acknowledgements and
collection of old artifacts. `Replica` is one process at work, each method
proved to be a step of the machine. `RunProofs`, `RunContent`, `RunStaging`,
`RunWithdrawals` and `RunTombstones` are the inductive invariants, `RunQuiet`
says when a pass publishes nothing, `RunProgress` that an undisturbed pass
commits and `Takeovers` what a new holder can still commit. `Succession`,
`NoResurrection`, `History` and `Forgetting` compose protocol and compiler.
`SrvProofs`, `GreatestClosed`, `Elders`, `Verdicts`, `Reservations`, `Canonical`
and `TtlOrder` are the compiler's own theorems; `Displacement` and `TtlClash` are
concrete zones, built with `Scenes`. `Finalizers` puts any number of regional
control planes, each running the protocol, beside the finalizers of one zone;
`Departures`, `Removal`, `Settling` and `EarlyRemoval` say what its removal then
means. Around them stand `ZoneLimit` and `Associations`, `Placement`,
`Bindings` and `References`.

**PowerDNS.** `PowerDns` is a zone whose records and comments live in two
tables behind an atomic, ordered PATCH. `PatchOrder` gives the meaning of the
patch the client sends, `Isolation` the loop that isolates refusals and
`EmptyWrites` its limits. `RecordSets`, `Ensure`, `EnsureProofs`, `Convergence`
and `FailedDeletes` are the whole of EnsureRecordSet, `Deletion` its inverse.
`Admission` is the owner-name check of the webhook.

`Text`, `Sorting`, `Names` and `Rounds` are shared vocabulary.

## Assumptions

- UIDs are non-empty and name one object (`Sources.WellFormed`).
- JSON encoding of a wire plan is never empty and decodes to the same plan
  (`Publication.Sound`); hashing is an arbitrary function.
- The wire plan's own validation is an arbitrary predicate applied before a
  plan is published.
- JSON text of a record is injective and free of NUL (`Aggregation.Lawful`),
  used only where plans of reordered inputs are compared.
- Only the operator writes stamped RRsets, and a UID and generation fix a
  specification (`RecordSets.Faithful`, `RecordSets.Versions`).
- A regional pass decides between compiling and withdrawing on the zone as it
  stands when it compiles, and finalizers change by compare-and-swap.
- PowerDNS names are lower-case and types upper-case, and no record set spells
  one name twice (`RecordSets.OneSpelling`).

## Where the code needs a condition

Each has a run or an input that shows it and the exact condition.

- A withdrawn zone has an empty payload, so a compilation after a withdrawal,
  from an older read of the zone, starts without fences (`Forgetting.ServesAgain`,
  `Forgetting.KeptUnlessWithdrawn`); `History.FencesNeverFall` carries it.
- A relative owner name can collapse two absolute names
  (`Names.OwnerRoundTripFails`, `Names.OwnerRoundTrip`).
- The TTL of an RRset fed by two registrations is that of the record listed
  first (`TtlClash.OrderShowsInTtl`, `TtlOrder.OrderShowsIff`).
- A new holder withdraws a withdrawn zone again, so the last finalizer can go
  before every region's active withdrawal is acknowledged
  (`EarlyRemoval.GoneBeforeSettled`, `Settling.SettledForGood`). What removal
  does guarantee is `Departures.RemovedOnlyWhenWithdrawn`.
- A pass that finds nothing published releases the zone without fencing a first
  revision on its way (`EarlyRemoval.PublishedAfterRelease`,
  `Removal.IdleIsFinal`).
- A failed PATCH of deletes is only logged: every owner may be reported
  programmed while surplus RRsets remain (`FailedDeletes.FailedDeleteUnseen`,
  `FailedDeletes.ConvergesIffNoneAlone`). `Convergence.EnsureRecordSet` returns
  this as `deleted` and claims the target only with it.
- A REPLACE without records is rejected without naming an RRset, so it can fail
  every change that travels with it (`EmptyWrites.NeighbourLost`,
  `EmptyWrites.AllLandIff`); refusals for conflicts do not.
- A binding deleted and created again starts over at version 1/1
  (`Bindings.DeletionStartsOver`, `Bindings.VersionsRiseIff`).
- A withdrawn binding keeps its placement, so it cannot be reactivated once the
  selection has moved to another shard (`Placement.StaysWithdrawn`,
  `Placement.ReactivatedIff`).
- A reference state lost before the source's status is written forgets its pin
  (`References.EarlyLossForgets`, `References.PinsStickIff`).
- In a managed zone age protects neither a registration nor a static set from a
  subtree reserved later, and a registration refused for that reason may let a
  younger one in (`Displacement.YoungestDisplaces`,
  `Reservations.EldersUnchangedIff`).

## Model

| member | source | states |
|---|---|---|
| Names.OwnerRoundTrip | internal/internaldns/controlplane/compiler.go:410-420 | for all names: the absolute name survives going through its relative form and back if and only if the relative part is not itself readable as the apex, as a name below it or as another spelling |
| Names.OwnerRoundTripFails | internal/internaldns/controlplane/wire.go:67-77 | a concrete name for which the round trip collapses two different names |
| Names.Qualify | internal/dns/ownername/ownername.go:20-29 | the qualified name is lower-case and ends in a dot |
| Names.QualifyIdempotent | internal/dns/ownername/ownername.go:11-18 | qualifying is a fixed point, so every spelling of one name meets in one form |
| ClaimTable.GrantExclusive | internal/internaldns/controlplane/compiler.go:422-436 | granting uncontested keys takes nothing from anybody and leaves every CNAME alone at its name among different sources |
| ClaimTable.StaticClaimsHold | internal/internaldns/controlplane/compiler.go:538-601 | after the static sets, every claim has an accepted holder, an accepted set holds all its keys, and CNAMEs are exclusive |
| ClaimTable.RegistrationClaimsHold | internal/internaldns/controlplane/compiler.go:132-189 | the same table invariant after any number of registrations; an accepted registration holds exactly the keys it asked for |
| ClaimTable.Seniority | internal/internaldns/controlplane/compiler.go:132-189 | whatever asks later changes neither the verdict on an earlier registration nor its reason |
| ClaimTable.AcceptedAtTurn | internal/internaldns/controlplane/compiler.go:132-189 | a registration is accepted exactly when its own checks accept it and nothing it asks for is in another source's way at its turn; its reason is the refusal met then |
| ClaimTable.VerdictIgnoresMapOrder | internal/internaldns/controlplane/compiler.go:422-452 | the holder a CNAME search happens to report in map order never changes the verdict drawn from it |
| CompilerProofs.ExclusiveClaims | internal/internaldns/controlplane/compiler.go:112-189 | no (name, type) is claimed by two sources, and no source claims CNAME where another claims anything |
| CompilerProofs.ContributedKeyFree | internal/internaldns/controlplane/compiler.go:264-276 | no contributed record lands on another source's claim, and each stays inside its registration's names and types |
| Verdicts.RegistrationAcceptedIff | internal/internaldns/controlplane/compiler.go:132-189 | the n-th oldest registration is accepted if and only if its checks pass and no static set or older registration stands in the way of its keys |
| Verdicts.AcceptedOrToldWhy | internal/internaldns/controlplane/compiler.go:238-287 | every contribution is accepted or given a reason, never both and never neither |
| Verdicts.ContributedTtlBounded | internal/internaldns/controlplane/compiler.go:138-141 | in the compiled plan no RRset of contributed records has a TTL outside 1 to 30 seconds |
| FenceTable.FencesAdvance | internal/internaldns/controlplane/compiler.go:212-253 | no compilation loses a fence, lowers its generation or revives a retired one |
| FenceTable.FenceOfCurrent | internal/internaldns/controlplane/compiler.go:238-253 | an observation that is neither refused nor terminating ends with a live fence at exactly its generation |
| FenceTable.FenceRetires | internal/internaldns/controlplane/compiler.go:226-231 | a fence whose contribution is gone, or that was retired before, is retired in the compiled plan |
| FenceTable.FencesPermutation | internal/internaldns/controlplane/compiler.go:238-253 | the fences depend on which observations are made, not on their order |
| CompilerProofs.PlanKeepsFences | internal/internaldns/controlplane/compiler.go:218-253 | every fence of the previous plan has a successor in the compiled plan that is at least as strict |
| CompilerProofs.PublishedAtFence | internal/internaldns/controlplane/compiler.go:238-301 | a published contribution has a live fence at its own generation in the same plan |
| CompilerProofs.PublishedAbovePrevious | internal/internaldns/controlplane/compiler.go:367-383 | a published contribution is neither retired nor below the generation it was fenced at before |
| Aggregation.RRSetRecords | internal/internaldns/controlplane/compiler.go:484-504 | after sorting, each record still stands beside the contribution it came from |
| Aggregation.EntryRecord | internal/internaldns/controlplane/compiler.go:288-327 | every published record is found in the RRset of its key, beside its contribution |
| SrvProofs.RoundProgress | internal/internaldns/controlplane/compiler.go:81-96 | each round rejects only sources not rejected before, so fewer are left and the loop ends |
| SrvProofs.DanglingBlamed | internal/internaldns/controlplane/compiler.go:337-365 | a dangling SRV record always blames some source, contributed or static |
| SrvProofs.SrvTargetsResolve | internal/internaldns/controlplane/compiler.go:81-96 | in the plan Compile returns, every SRV record targets a name with an A or AAAA RRset in the same plan |
| GreatestClosed.LargestClosedSet | internal/internaldns/controlplane/compiler.go:81-96 | when no static set is rejected for SRV, the accepted contributions are closed under SRV targets and contain every closed set of otherwise acceptable ones |
| Reservations.ElderVerdict | internal/internaldns/controlplane/compiler.go:124-189 | in an unmanaged zone adding a registration changes neither acceptance nor reason of any static set or older registration |
| Reservations.EldersUnchangedIff | internal/internaldns/controlplane/compiler.go:116-189 | in any well-formed zone, managed or not: adding a registration changes neither acceptance nor reason of any static set or older registration in the compilation, if and only if none of its valid reserved subtrees overlaps an older registration that passes every check up to the reserved subtrees of others, or covers a permitted record that the scan of a static set comes to, sets refused for a reserved subtree anyway excepted |
| Displacement.YoungestDisplaces | internal/internaldns/controlplane/compiler.go:124-189 | a concrete managed zone: the youngest registration turns the oldest, which was accepted, to ReservedScope, and the second, which had a NameConflict with it, to accepted |
| Canonical.PlanIsCanonical | internal/internaldns/controlplane/compiler.go:98-335 | listing registrations, contributions and static sets in another order leaves plan, accepted set and reasons unchanged when reserved subtrees of accepted registrations do not overlap |
| TtlOrder.OrderShowsIff | internal/internaldns/controlplane/compiler.go:288-301 | for every input: no listing order ever shows in what Compile returns if and only if no two published contributions of registrations with different TTLs share a key |
| TtlClash.OrderShowsInTtl | internal/internaldns/controlplane/compiler.go:288-301 | two concrete listings of one zone, two contributions in a subtree that two registrations reserve, that compile to different plans |
| CompilerLoops.ConflictingClaim | internal/internaldns/controlplane/compiler.go:422-436 | the search reports a holder in the way of a key, and none only when nobody is |
| CompilerLoops.ScanSet | internal/internaldns/controlplane/compiler.go:558-590 | the record loop of one static set stops at the first refusal with its reason, else collects its TTLs |
| CompilerLoops.CollectStaticClaims | internal/internaldns/controlplane/compiler.go:538-601 | the loop over static sets, oldest first, builds the claim table of the specification |
| CompilerLoops.ClaimRegistrations | internal/internaldns/controlplane/compiler.go:124-189 | the loop over registrations, oldest first, completes it |
| CompilerLoops.MapOrderHarmless | internal/internaldns/controlplane/compiler.go:438-452 | for an accepted registration, whichever holder is reported decides as a search of all holders would |
| CompilerLoops.BundleIsValid | internal/internaldns/controlplane/compiler.go:262-286 | the nested loops accept a bundle exactly when every record is permitted, owned, allowed and renderable |
| CompilerLoops.JudgeContribution | internal/internaldns/controlplane/compiler.go:238-286 | the reason recorded for a contribution, in the order the checks are made |
| CompilerLoops.CompileContributions | internal/internaldns/controlplane/compiler.go:237-300 | one loop advances fences, reasons, acceptance and gathered records together |
| CompilerLoops.GatherStatics | internal/internaldns/controlplane/compiler.go:307-322 | static records join the gathered ones with the TTL their set was granted |
| CompilerLoops.CompileRound | internal/internaldns/controlplane/compiler.go:98-335 | one round of compilation equals its specification |
| CompilerLoops.CompileZone | internal/internaldns/controlplane/compiler.go:81-96 | the rejection loop terminates with the specified result |
| Wire.Convert | internal/internaldns/controlplane/wire.go:17-65 | the conversion loops build the wire plan, or fail exactly when a TTL is negative or a record has no value |
| Wire.FencesInOrder | internal/internaldns/controlplane/wire.go:22-27 | a plan's fences go on the wire unchanged and in order |
| Wire.RecordsCarryFences | internal/internaldns/controlplane/wire.go:43-60 | each contributed wire record carries the generation and sequence its contribution is fenced at |
| RunContent.ChunksJoin | internal/internaldns/controlplane/publication_reconciler.go:1148-1162 | the chunks join to the payload, and none is empty or over the size |
| RunContent.LoadRoundTrip | internal/internaldns/controlplane/publication_reconciler.go:953-1010 | loading a stored publication passes every check and gives back the plan it was made from |
| RunProofs.ProtocolNext | internal/internaldns/controlplane/publication_reconciler.go:599-634 | every exchange keeps copies coherent with their version, revisions reserved once and the log rising |
| RunContent.RunsKeepContent | internal/internaldns/controlplane/publication_reconciler.go:587-634 | in every reachable state the active publication is complete in the store and each commit is compiled from the one before it |
| RunContent.ManifestRulesHold | api/v1alpha1/internaldns_service_types.go:115-118 | every committed manifest meets the type's rules on previousRevision, chunks and content hash |
| RunStaging.StagingNeverConflicts | internal/internaldns/controlplane/publication_reconciler.go:599-621 | staging under a reserved name never meets another writer's artifact, however stale the copy |
| RunStaging.OwnershipRulesHold | api/v1alpha1/internaldns_service_types.go:260-261 | every write of the ownership record meets its validation rules |
| RunStaging.TakeoverAfterExpiry | internal/internaldns/controlplane/publication_reconciler.go:924-942 | however stale the copy, a takeover changes the record only when its lease has run out on the taker's clock, and under a higher epoch |
| Publication.NextWriterEpoch | internal/internaldns/model/model.go:597-603 | a new writer's epoch is above the stored one and not below its clock |
| RunQuiet.PublishesUnlessUnchanged | internal/internaldns/controlplane/publication_reconciler.go:587-598 | from a current copy a pass publishes nothing if and only if the zone does not compile, nothing here serves or served it, or the last commit of this epoch published exactly this state |
| RunProgress.UndisturbedPassCommits | internal/internaldns/controlplane/publication_reconciler.go:468-634 | from every reachable state a continuation made of one pass's own steps commits exactly the draft it compiled, under the next revision: nothing left behind by others can block it |
| RunWithdrawals.TargetsHandOver | internal/internaldns/controlplane/publication_reconciler.go:675-743 | the computed targets serve or withdraw every shard of the previous manifest that has not acknowledged |
| RunWithdrawals.WithdrawalsRemembered | internal/internaldns/controlplane/publication_reconciler.go:675-755 | in every run each local configured shard that was ever served is served, withdrawn, or has acknowledged a later withdrawal, and a withdrawal of the zone stays expected wherever the zone was |
| History.SingleLinearHistory | internal/internaldns/controlplane/publication_reconciler.go:599-634 | in every run each revision is reserved once, each commit is compiled from the previous one, epochs never fall and revisions rise along the active pointer |
| History.ActivePlanLoads | internal/internaldns/controlplane/publication_reconciler.go:953-1010 | through a current copy the previous plan always loads and is the one committed last |
| History.FencesNeverFall | internal/internaldns/controlplane/publication_reconciler.go:587-634 | no resurrection: until the zone is withdrawn every committed fence stands at least as strict in every later commit, and no record it excludes is published again |
| NoResurrection.WireRespectsFences | internal/internaldns/controlplane/compiler.go:212-301 | a compiled wire plan publishes nothing that the plan before it or the plan itself fences off |
| Forgetting.ServesAgain | internal/internaldns/controlplane/publication_reconciler.go:580-634 | after a withdrawal whoever takes the zone over can commit a serving revision, compiled from no previous plan and a read of the live zone older than the withdrawal |
| Forgetting.KeptUnlessWithdrawn | internal/internaldns/controlplane/publication_reconciler.go:980-988 | in every run the next serving revision keeps the fences of the last plan, however the run goes on, if and only if the zone was not withdrawn since or the plan had none |
| Succession.FenceStands | internal/internaldns/controlplane/compiler.go:218-253 | along any succession of plans a fence of the first stands, at least as strict, in each later one |
| Replica.SplitChunks | internal/internaldns/controlplane/publication_reconciler.go:1148-1162 | the loop that consumes the buffer produces the specified chunks |
| Replica.ReadPayload | internal/internaldns/controlplane/publication_reconciler.go:969-979 | reading chunk by chunk returns the verified payload, or nothing at the first mismatch |
| Replica.CollectWithdrawals | internal/internaldns/controlplane/publication_reconciler.go:696-742 | the two loops collect exactly the shards still to be told |
| Replica.Api.PatchOwner | internal/internaldns/controlplane/metrics.go:73-85 | a patch applies exactly when its version is current |
| Replica.Worker.Acquire | internal/internaldns/controlplane/publication_reconciler.go:905-923 | reading or creating the ownership record is the corresponding step of a run |
| Replica.Worker.Hold | internal/internaldns/controlplane/publication_reconciler.go:924-945 | keeping or taking over the record is the corresponding step, with a new epoch on takeover |
| Replica.Worker.Reserve | internal/internaldns/controlplane/publication_reconciler.go:599-616 | reserving a revision is the corresponding step |
| Replica.Worker.StageChunk | internal/internaldns/controlplane/publication_reconciler.go:776-783 | staging a chunk is the corresponding step |
| Replica.Worker.StageManifest | internal/internaldns/controlplane/publication_reconciler.go:819-822 | staging the manifest is the corresponding step |
| Replica.Worker.Commit | internal/internaldns/controlplane/publication_reconciler.go:622-628 | moving the active pointer is the corresponding step |
| PowerDns.Server.Patch | internal/dns/pdns/client.go:897-910 | a PATCH applies whole or not at all, is refused only for a type conflict at a name, and may fail with either outcome |
| PowerDns.EffectsMean | internal/dns/pdns/client.go:911-931 | changes to different RRsets have exactly the effect each one means, whatever their order |
| PatchOrder.RefusedMeans | internal/dns/pdns/client.go:848-864 | with deletes first, a write is refused exactly when its name keeps an excluded type |
| PatchOrder.SentMeans | internal/dns/pdns/client.go:1115-1124 | the patch as sent leaves each RRset as its own change says and no comments on what it deletes |
| PatchOrder.SentInOrder | internal/dns/pdns/client.go:897-931 | in every patch each delete precedes every write and is followed at once by its comment clear |
| PatchOrder.BatchBuildable | internal/dns/pdns/client.go:907-928 | no batch with distinct keys both replaces and deletes an RRset, so the client never refuses what its callers build |
| Isolation.DropRefused | internal/dns/pdns/client.go:451-465 | the filter drops exactly the changes named in a refusal and records the error for them |
| Isolation.BatchRefuses | internal/dns/pdns/client.go:432-449 | a batch refuses a change exactly when sending it alone would be refused |
| Isolation.BatchEqualsOneAtATime | internal/dns/pdns/client.go:432-468 | sending together all that is not refused has the effect of sending every change by itself |
| Isolation.ApplyIsolatingRefusals | internal/dns/pdns/client.go:432-468 | the loop ends; each change lands whole or not at all; refused ones are those refused alone; without a failure the zone equals one-at-a-time sending; other names are untouched; on honest answers it ends where those answers allow |
| EmptyWrites.AllLandIff | internal/dns/pdns/client.go:432-468 | on a server that fails only for malformed patches every change that would land alone lands in its batch, whatever the answers, if and only if every write lists records or nothing that would land alone is missing anyway |
| EmptyWrites.NeighbourLost | internal/dns/pdns/client.go:976-993 | a concrete batch of two in which a write that would land alone is lost beside one without records |
| RecordSets.StampReads | internal/dns/pdns/client.go:529-575 | the stamp a write leaves reads back as its owner, generation and UID |
| RecordSets.ValuesAre | internal/dns/pdns/client.go:1154-1204 | an RRset's values are the non-empty ones of its entries, each once; a CNAME keeps only the first |
| RecordSets.SkippedHolds | internal/dns/pdns/client.go:313-317 | where only the operator writes, an RRset skipped for its stamp already holds the desired records |
| RecordSets.TargetConverged | internal/dns/pdns/client.go:267-380 | a zone on target carries the record set's stamp on its RRsets and on no others |
| RecordSets.TargetUnique | internal/dns/pdns/client.go:313-317 | the target is unique, so a pass ends in the same zone with and without the generation skip |
| RecordSets.ConvergedQuiet | internal/dns/pdns/client.go:529-558 | on a converged zone every owner is skipped |
| Ensure.SortedOwners | internal/dns/pdns/client.go:274-300 | the owner names, each once and in order |
| Ensure.OwnedSurplus | internal/dns/pdns/client.go:385-397 | exactly the RRsets stamped by this record set and not wanted |
| Ensure.PairDeletes | internal/dns/pdns/client.go:403-420 | each delete goes with the write at its name, the others stay apart |
| Ensure.ApplyInChunks | internal/dns/pdns/client.go:350-369 | chunk by chunk every change is settled against the zone as it was read |
| Ensure.ApplyDeletes | internal/dns/pdns/client.go:371-377 | the remaining deletes are gone if every chunk went through, else each is gone or as before |
| EnsureProofs.StaysFaithful | internal/dns/pdns/client.go:267-380 | on every outcome each stamped RRset still holds what its stamp says |
| EnsureProofs.OwnerProgrammed | internal/dns/pdns/client.go:313-335 | an owner skipped or written without error holds its records at the end |
| Convergence.PlanWrites | internal/dns/pdns/client.go:302-335 | the owners that need a write, in order |
| Convergence.Report | internal/dns/pdns/client.go:350-369 | an owner is reported programmed exactly when its write had no error |
| Convergence.EnsureRecordSet | internal/dns/pdns/client.go:267-380 | fully successful passes end on target; every owner reported programmed holds its records; a converged zone gets no PATCH; on every outcome an RRset neither desired nor stamped by the record set is unchanged |
| FailedDeletes.FailedDeleteUnseen | internal/dns/pdns/client.go:371-379 | a concrete pass whose one wanted owner is written and reported programmed while the zone has not converged, because a delete failed |
| FailedDeletes.ConvergesIffNoneAlone | internal/dns/pdns/client.go:371-379 | with every write in, the zone converges whatever becomes of the remaining deletes if and only if every surplus RRset stands at a name that is being written |
| Deletion.DeletesFor | internal/dns/pdns/client.go:663-689 | the deletes are exactly the RRsets stamped by the record set and those at its names that nobody stamped |
| Deletion.DeleteRecordSet | internal/dns/pdns/client.go:650-702 | on success exactly those RRsets are gone; on every outcome each is gone or as before and nobody else's is touched |
| Deletion.NothingLeft | internal/dns/pdns/client.go:663-689 | after a successful deletion nothing carries the stamp and what is left at its names was stamped by others |
| Deletion.DeleteUndoesEnsureIff | internal/dns/pdns/client.go:650-702 | deleting undoes a successful EnsureRecordSet exactly if and only if the record set had nothing in the zone before and nobody held what it wanted |
| Admission.NewOwnerClaims | internal/webhook/dnsrecordset_validating.go:188-201 | the first record that names each qualified owner |
| Admission.FindHolders | internal/webhook/dnsrecordset_validating.go:122-141 | the earliest contender for each claimed name |
| Admission.RefuseClaimedOwnerNames | internal/webhook/dnsrecordset_validating.go:87-172 | every contested name is refused once, in record order, naming its earliest holder |
| Admission.EmptyAnswerAdmits | internal/webhook/dnsrecordset_validating.go:87-172 | no refusals means no contender holds a name that is asked for, and conversely |
| Admission.NamesStayDisjoint | internal/webhook/dnsrecordset_validating.go:87-181 | over every serial run live record sets of contending types in one zone share no qualified name |
| Admission.LiveSetsNeverConflict | internal/webhook/dnsrecordset_validating.go:175-181 | over every serial run two live record sets of a zone that hold one name have types that PowerDNS lets stand together |
| Admission.EmptyNameSlips | internal/webhook/dnsrecordset_validating.go:190-193 | the webhook alone passes an empty owner name although it qualifies to the apex; the schema's MinLength keeps the invariant |
| ZoneLimit.WithinLimit | internal/internaldns/controlplane/context_reconciler.go:345-411 | a context keeps at most 256 zones, and all of them when they fit |
| ZoneLimit.RankIsEarliest | internal/internaldns/controlplane/context_reconciler.go:356-381 | a zone ranks by the earliest acceptance, creation and name of its associations |
| ZoneLimit.PlacesInOrder | internal/internaldns/controlplane/context_reconciler.go:385-405 | a kept zone is managed, longer accepted or older than any refused one, in that order |
| ZoneLimit.AcceptedZonesKept | internal/internaldns/controlplane/context_reconciler.go:339-345 | when managed and accepted zones together fit, none of them loses its place |
| ZoneLimit.RunningAgain | internal/internaldns/controlplane/context_reconciler.go:305-325 | on the statuses just written the same zones are refused again |
| ZoneLimit.OverZoneLimit | internal/internaldns/controlplane/context_reconciler.go:345-411 | the refused places are exactly those whose zone is not kept, in list order |
| Associations.ReconcileAssociations | internal/internaldns/controlplane/context_reconciler.go:238-327 | the verdicts written for all associations, limit included |
| Associations.AtMostLimit | internal/internaldns/controlplane/context_reconciler.go:329-331 | accepted associations of a context name at most 256 zones |
| Associations.OneZonePerApex | internal/internaldns/controlplane/context_reconciler.go:292-298 | in one context an apex belongs to one accepted zone |
| Placement.SelectServingTarget | internal/internaldns/controlplane/context_reconciler.go:743-787 | the loops choose the preserved shard, else the first of highest score |
| Placement.NewShardOnly | internal/internaldns/controlplane/context_reconciler.go:739-787 | with no live binding an added shard changes the choice only to itself |
| Placement.ShardsAgree | internal/internaldns/controlplane/context_reconciler.go:739-787 | over every run the live bindings of a context in a region share one configured shard |
| Placement.ReactivatedIff | internal/internaldns/controlplane/context_reconciler.go:519-560 | in every reachable state a pass reactivates a withdrawn binding if and only if the selection is still its shard: the one the live bindings share or, without any, the one of highest score |
| Placement.StaysWithdrawn | api/v1alpha1/internaldns_service_types.go:34-35 | a run that ends in a withdrawn binding no pass reactivates: a shard of higher score was added since |
| Bindings.WritesAllowed | api/v1alpha1/internaldns_service_types.go:11-15 | every write by the two binding functions meets the type's monotonicity rules |
| Bindings.VersionsRiseIff | internal/internaldns/controlplane/context_reconciler.go:524-541 | over every run each later live period carries a newer access version than each earlier one if and only if the binding was never deleted between two of them |
| Bindings.DeletionStartsOver | internal/internaldns/controlplane/context_reconciler.go:524-527 | after a deletion the version restarts, newer than no earlier live period |
| References.PinNamedReference | internal/internaldns/controlplane/context_reconciler.go:38-49 | a stored UID is kept for its name, and a pin is valid only for the object the name denotes now |
| References.ResolveAll | internal/internaldns/controlplane/reference_state.go:113-119 | the loop pins every selected reference and reports whether all are current |
| References.Store.PinReferences | internal/internaldns/controlplane/reference_state.go:95-137 | what is reported and stored by one pass |
| References.PinsStickIff | internal/internaldns/controlplane/reference_state.go:95-137 | for every shape of run: whatever the names denote at each pass no name is resolved to two UIDs, if and only if no pass follows the loss of an earlier pass's state while no status is written |
| References.EarlyLossForgets | internal/internaldns/controlplane/reference_state.go:68-72 | for every run of the other shape, denotations under which the name resolves to two UIDs |
| References.NeverCurrentAgain | internal/internaldns/controlplane/reference_state.go:65-111 | a source with written status that lost its state object is never reported current again |
| Finalizers.Zone.ReleaseZone | internal/internaldns/controlplane/publication_reconciler.go:94-116 | the loops leave the finalizers of other regions still served, and drop the shared one with the last |
| Takeovers.CurrentDraftCommits | internal/internaldns/controlplane/publication_reconciler.go:599-634 | a draft whose copy of the record is current is committed by its own pass from wherever it stands |
| Takeovers.TakeoverWithdraws | internal/internaldns/controlplane/publication_reconciler.go:587-651 | a replica that takes over a published zone can always commit a withdrawal, also when the active publication is one, serving the same local shards under a new id |
| Departures.RemovedOnlyWhenWithdrawn | internal/internaldns/controlplane/publication_reconciler.go:57-116 | over every run of all control planes, with takeovers, repeated withdrawals and Published conditions that lapse: when the last regional finalizer is gone, each control plane that published to a region still served has released on a withdrawal of its own, without targets or Published, and committed only withdrawals since, or released on a copy naming no publication when it was taken, while its first one was on its way or already made |
| Removal.IdleIsFinal | internal/internaldns/controlplane/publication_reconciler.go:555-560 | in every reachable state of a deleted zone: a control plane never publishes again if and only if it has published nothing and no pass holds a draft on a current copy |
| EarlyRemoval.PublishedAfterRelease | internal/internaldns/controlplane/publication_reconciler.go:555-560 | a run in which a control plane releases the last finalizer and then publishes |
| Settling.SettledForGood | internal/internaldns/controlplane/publication_reconciler.go:1090-1105 | in every reachable state: a settled withdrawal stays settled on every continuation if and only if it has no targets; with targets a takeover alone unsettles it |
| EarlyRemoval.GoneBeforeSettled | internal/internaldns/controlplane/publication_reconciler.go:587-597 | a run in which the last finalizer goes while a region's second withdrawal has targets and is not Published |

## Left out

- Kubernetes, NATS and HTTP plumbing, logging, metrics, status wording and
  retries: replaced by a versioned store with compare-and-swap and a PATCH
  server that may fail at any exchange.
- Reads inside one compileZone call are one exchange: the artifacts they read
  never change, and a missing one ends the pass.
- Names of artifacts are the pairs they print (epoch and revision, index,
  target); collisions of the truncated zone token are not modelled.
- Integer widths: epochs, revisions and generations are unbounded.
- Chunk export outboxes, envelopes and their timestamps.
- The cached-input path of the compiler and the confirmation reads before it,
  which only choose the input of a compilation.
- Status aggregation copies the Published condition of manifests to the status
  of zones, registrations and contributions. Of it only the condition itself
  decides anything here, and it is `System.verified` in `Finalizers`.
- Naming policies map an allocated label to names in associated zones for
  clients to read; no compilation or publication reads them.
- Managed contexts create the zone a context owns, and address allocation leases
  the query addresses of a binding. Both choose inputs (a zone, an address) that
  the model takes as given.
- Rendering of record values (rdata.Render), SOA serials and modified_at values
  of comments.
- ApplyRecordSetAuthoritative replaces all owners of a type and ReplaceRRSet one
  owner, each in a single PATCH whose meaning is `PatchOrder.SentMeans`; neither
  isolates refusals nor reads ownership.
- DeleteZone clears the comments of a zone and removes it whole.
- Parsing of PowerDNS error texts: a refusal carries the keys it names. Which
  errors count as transient only decides whether the caller retries.
- refuseWildcardAlias: a single-record syntax check.
- Convergence.EnsureRecordSet: leaves out SOA record sets, whose serial depends
  on the clock, and comment timestamps.
- Departures.RemovedOnlyWhenWithdrawn: a pass reads the zone when it compiles or
  releases; passes that act on an older copy of the zone are not modelled.
- Deletion.DeleteRecordSet: takes the zone as present; where PowerDNS does not
  know it there is nothing to delete.
- Placement.ShardsAgree: takes one pass over the access bindings as one step
  and never removes a configured shard.
- RunWithdrawals.WithdrawalsRemembered: for one fixed serving configuration and
  manifests written by this protocol.
- Bindings.WritesAllowed: zone references are their UIDs; names and apices
  follow from them.
