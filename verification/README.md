# Verified model of the Research State runtime

A Dafny 4.11 model of the parts of the repository where several functions have to agree: the
commit machine that owns Research State, the Human Decision gate in front of it, the Capability
Run protocol, two algorithms, and the registries that derive views from immutable rows. Every
statement holds for all inputs, all runs and all interleavings it names; concrete values appear
only where a property fails.

`dafny verify dfyconfig.toml` checks the whole project.

## How the files fit together

| files | what they hold |
|---|---|
| `Common`, `Records` | options, string order, object, request, view, receipt and bundle records |
| `Authority`, `Reducer`, `StateValidation`, `Repository`, `Service` | the commit machine as functions, and the repository and service as classes whose methods are proved against those functions |
| `ReducerLoops`, `StateLoops` | the reducer and the post-checks as the loops the source runs |
| `ReducerFacts`, `CommitFacts`, `ApplyOutcomes` | where revisions come from, what sorting keeps, what one commit does, and the ways one `apply` call can go |
| `History`, `Integrity`, `SingleUse`, `Interleaving`, `Overwrites`, `Provenance` | theorems over runs in which loads and commits of different requests interleave |
| `DecisionRules`, `LineageRules`, `ReductionRules`, `TransitionRules`, `CommitRules`, `ReferenceFields` | every check and answer of the commit machine read off the fields of request, view, reduction and repository, independent of the functions that compute it |
| `CommitContents`, `RunContents`, `StoredRecords`, `LawfulPlans` | what a stored request writes, that every reachable repository is its seed and what the stored requests wrote, and what every stored plan is |
| `LineagePlan`, `ChildHeads`, `PlanScenarios` | what a stored lineage plan leaves in its child, when the child's head is closed, and stored plans that lose a member or leave a head open |
| `DecisionGate`, `GateFacts`, `GateRules`, `GateCompleteness` | the gate, binding of Decisions, what both ask and commit field by field, and gate completeness |
| `DecisionResolution`, `ResolutionRules`, `Dispositions` | `resolve` across two stores, what each of its calls answers, and what the human's answer brings about |
| `Recovery`, `Staleness`, `StaleSwitch` | a crash after every store call and commits from elsewhere, and when a stale request is never committed |
| `Execution`, `RunLifecycle`, `RunEndings` | the trace store and service, every interleaving of prepare, collect and abort, and why a Run ended as it did |
| `Sharding`, `SharpBound`, `Whitespace`, `NormalForm` | longest-processing-time packing, modules that reach its bound, fuzzy substring search and the normal form it compares |
| `DelphiRounds`, `SurveyEntries`, `CandidatePages`, `CursorCodec`, `ProjectInputs`, `Exhibits` | registries, counters, paging and cursors |
| `DelphiCaptures`, `SurveyReads`, `CandidateListings`, `CursorBits`, `InputListings`, `ExhibitListings` | what each of their calls answers, read off the stored rows |

## Modelling choices

- A digest is a datatype constructor around the digested content, so equal digests mean equal
  content. A stable id is its prefix and joined parts, which stand for their own hash.
- A rejection is the set of its error codes. A view is the repository's content at load time.
- Snapshot members are a map from identity to row, listed in identity order.
- Clocks, ids, timestamps, JSON Schema checks, further checks before reduction, profile rules and
  policies are inputs: the checks enter as the three functions of `Service.Policy`, each with its
  own codes, so the theorems hold for every choice.
- A run of the commit machine is a sequence of loads and finishes in any order; a finish may be
  made to fail. Theorems about history assume a well-formed seed and requests whose payloads
  carry no `snapshot` or `audit_event` objects, because the repository writes those two slots
  without the collision check it makes for other objects.
- Integers are unbounded, as in Python. Shard costs are scaled to whole numbers.

## Findings

- **Single use.** Two requests loaded before either commits can consume the same Decision when
  neither moves the head the commit compares (`SingleUse.InterleavingReusesDecision`). The missing
  check is whether what the request consumes is still unused when it is stored: one commit keeps
  single use exactly then (`Interleaving.GuardIsExact`), and so does a run, exactly when each of its
  commits would have passed (`Interleaving.SingleUseExactly`). Requests applied one at a time pass
  (`SingleUse.DecisionsUsedOnce`), and so does every interleaving of ordinary requests on one
  lineage (`Interleaving.OneLineageUsesOnce`).
- **Immutability.** A commit can overwrite a stored object in the slots of its snapshot and its
  audit event, and only there (`CommitFacts.KeepsRevisions`); a run changes no stored revision
  exactly when no commit does (`Overwrites.ImmutableExactly`). Payloads of those two kinds are
  what makes it happen (`Overwrites.AuditEventOverwrites`).
- **Plan exactness.** A plan may preserve a member and reconfirm another one as the next revision
  of that same member; the child then loses one of them. A stored plan loses a survivor exactly
  when such an overlap exists, over every run (`LineagePlan.StoredPlanExact`, `LineagePlan.RunPlans`).
  Such a plan passes the core trace checks with the others and is stored
  (`PlanScenarios.PreservedMemberLost`).
- **Closed heads.** A child lineage's head may leave references open: the reference check still sees
  members the plan gives up. The head is closed exactly when no survivor refers to something that
  is given up and that nothing else replaces, or to nothing at all, and the latter needs an overlap on an
  open baseline (`ChildHeads.ChildClosed`, over every run `ChildHeads.RunChildHeads`). Preserving a
  method and invalidating its research question is stored with an open head (`PlanScenarios.OpenHead`).
- **Gate.** A candidate whose RECONFIRM treatment has no derived object passes the gate and is
  refused after approval with RT-LINEAGE-013, exactly then (`GateCompleteness.GateIsComplete`). In
  every state there is such a candidate (`GateCompleteness.UnderivedIsApprovedInVain`).
- **Staleness.** A request found stale is never committed once the next store call of that call closes
  it. Stopped before that call the staleness is forgotten, whatever its reason: the request is
  then never committed exactly when no later retry has its approval accepted
  (`Staleness.StaleNeverCommitsExactly`). One accepted when it stops is committed by a retry, and
  one whose lineage has moved on never is (`Staleness.StoppedThenRetried`). A request with missing
  source documents that a retry commits is in `StaleSwitch.StalenessForgotten`.
- **Retries.** The service with context extensions does not compare a retry's project with its
  parent's, as the plain service does (`RunLifecycle.ExtendedRetryCrossesProjects`). Over every
  interleaving retries stay in their parent's project exactly when each one passes that comparison
  at the moment it is prepared (`RunLifecycle.RetriesKeepProjectExactly`).
- **Delphi rounds.** A revision that writes `recalculated_from` as null is not what the next one
  is checked against, so its answers can vanish (`DelphiRounds.NullFieldForgets`). Answers survive
  exactly when every stored revision passes the check with null rows taken in
  (`DelphiRounds.AnswersSurviveExactly`).
- **Exhibit index.** Listings agree with the documents exactly when no document is missing from the
  index (`Exhibits.IndexAgrees`). One is missing exactly when a version without the metadata table
  stored it after the table existed and no write has opened the store since
  (`Exhibits.IncompleteExactly`, with the shortest such writes in `Exhibits.LegacyAfterOpenIsMissed`).

## Model

| member | source | states |
|---|---|---|
| Records.LatestIn | core/runtime/transition_models.py:213-219 | the latest object is a stored one of greatest revision, and there is none exactly when the identity has no object |
| Authority.ReconfirmRequirements | core/runtime/authority_validation.py:67-97 | reconfirmation is required for exactly the derived objects of RECONFIRM treatments |
| Authority.ResolvingRefs | core/runtime/authority_validation.py:100-108 | consumed Decisions are exactly the references of actions that need a Decision |
| Authority.FindAnswer | core/runtime/authority_validation.py:124-146 | the inner loop finds a usable reference exactly when one exists |
| Authority.ValidateHumanDecisions | core/runtime/authority_validation.py:111-203 | the nested loops raise exactly the Decision codes of the request |
| DecisionRules.RequiredExactly | core/runtime/authority_validation.py:38-97 | the Decisions an action needs, read off the fields of its object and of the stored revision before: adoption, rejection, material revision, verification, reclassification, plan, reconfirmation and switch |
| DecisionRules.DecisionCodesExactly | core/runtime/authority_validation.py:111-203 | each Decision code is raised exactly when an action needs a Decision that no cited one gives, or cites an unknown, machine-made, misdirected or used one |
| DecisionRules.RunBacked | core/runtime/authority_validation.py:38-203 | over every run each change an action of a stored request made to the stored revision before lists a stored, used human Decision for that change; each plan, reconfirmation and switch cites one; every cited Decision is stored, human and about its object |
| DecisionRules.RevisionsBacked | core/runtime/authority_validation.py:59-62 | over every run no stored action revised a protected object in a field but revision, adoption state and Decision ids without a listed, stored, used human Decision to revise it |
| LineageRules.LineageCodesExactly | core/runtime/authority_validation.py:206-362 | each lineage code is raised exactly when the lineage is unknown or a plan or switch gives the cause for it in its fields |
| LawfulPlans.RunLawful | core/runtime/authority_validation.py:206-362 | over every run each stored plan is of a known kind, treats members in known ways, and derives each reconfirmed object under its kind and name with a Decision that the action cites and the object lists |
| ReducerLoops.ApplyActions | core/runtime/state_reducer.py:89-115 | the loop over actions succeeds exactly when every action is accepted and no Decision identity repeats, and then its lists and effective map are those of the actions |
| ReducerLoops.ReduceActions | core/runtime/state_reducer.py:82-150 | an ordinary reduction is the specified one, or an error |
| ReducerLoops.ValidatedDecisions | core/runtime/state_reducer.py:153-172 | Decisions beside a special action are accepted exactly when each is new, at revision 0 and of its own identity |
| ReducerLoops.IndexTreatments | core/runtime/state_reducer.py:188-197 | the treatment index exists exactly when every source is named and named once, and holds the treatments |
| ReducerLoops.TreatMembers | core/runtime/state_reducer.py:199-245 | the member loop succeeds exactly when every baseline member's treatment can be carried out, and yields the child members and derived objects |
| ReducerLoops.CarryOut | core/runtime/state_reducer.py:175-252 | a plan is carried out exactly when it treats the baseline members and nothing else |
| ReducerLoops.ReduceLineagePlan | core/runtime/state_reducer.py:175-299 | a plan reduction is the specified one, or an error |
| ReducerLoops.ReduceState | core/runtime/state_reducer.py:25-150 | the dispatch on action kinds is the specified reduction, or an error |
| ReductionRules.ReducesExactly | core/runtime/state_reducer.py:25-345 | the reducer accepts a request exactly when a plan or switch stands alone beside new Decisions and its treatments fit the baseline one to one, or every action is what its kind says and starts or follows its identity |
| ReducerFacts.SortElements | core/runtime/transition_models.py:383-394 | the stable sort permutes the objects |
| ReducerFacts.StableSortContract | core/runtime/transition_models.py:383-394 | the stable sort returns the one list that is ordered by kind, id and revision and keeps the objects of each slot in their order |
| ReducerFacts.FoldOrderIrrelevant | core/runtime/state_validation.py:501-509 | folding in action order and in sorted order give the same map |
| ReducerFacts.RevisionOrigin | core/runtime/state_reducer.py:302-345 | every proposed revision is carried by an accepted action or derived by the plan, and starts its identity or follows the latest revision |
| ReducerFacts.RecordedDecisions | core/runtime/state_reducer.py:52-59 | decision records are exactly the recorded Decisions and are among the revisions |
| StateLoops.ValidateReferences | core/runtime/state_validation.py:34-62 | the reference loop passes exactly when every reference of the proposed effective members resolves |
| ReferenceFields.ReferencesExactly | core/runtime/state_validation.py:414-498 | what an object refers to, kind by kind and field by field: its references resolve exactly when all it names is there |
| ReferenceFields.ReferenceCodeExactly | core/runtime/state_validation.py:34-62 | RT-REF-001 is raised exactly when some proposed effective object names what is not there |
| ReferenceFields.RunHeadsHaveAll | core/runtime/state_validation.py:34-62 | over every run each snapshot an ordinary request stored has every object its members name in any of their fields |
| StateLoops.ValidateEvidence | core/runtime/state_validation.py:289-330 | the evidence loop raises exactly the codes of lost synthetic marks and unjustified lost limitations |
| StateLoops.ValidateNextState | core/runtime/state_validation.py:333-402 | the snapshot loop reports a reused identity, unresolved members, mismatched members and a wrong seal, each exactly when present |
| StateLoops.ValidateReduced | core/runtime/validation.py:55-70 | the post-checks together raise exactly the specified codes |
| TransitionRules.PreExactly | core/runtime/validation.py:206-402 | the codes before reduction: which field of the request, against which field of the view, raises each |
| TransitionRules.PostExactly | core/runtime/state_validation.py:248-402 | the codes after reduction: overwritten revisions, misplaced heads, lost marks and limitations, and snapshots that reuse an id, miss or misrecord a member or break their seal, each exactly then |
| Repository.ResearchStateRepository.constructor | core/runtime/testing.py:22-52 | a repository starts with the content of its seed |
| Repository.ResearchStateRepository.LoadStateView | core/runtime/testing.py:54-85 | a view is the stored content on one lineage, none for an unknown project, lineage or head |
| Repository.ResearchStateRepository.StageRevisions | core/runtime/testing.py:145-150 | revisions are staged in order until one would change a stored or staged one |
| Repository.ResearchStateRepository.StageLineageChanges | core/runtime/testing.py:167-188 | lineage changes are staged exactly when updates name known lineages, children new ones with a stored head, and the active target resolves |
| Repository.ResearchStateRepository.Commit | core/runtime/testing.py:108-204 | a commit stores the whole bundle or leaves the content as it was, with the specified answer |
| CommitRules.LoadTells | core/runtime/testing.py:54-85 | a view exists exactly for the stored project, a known lineage and a stored head, and shows each part of the stored content |
| CommitRules.PersistTells | core/runtime/testing.py:108-204 | which answer a commit gives, read off keys, heads, slots and identities; only a stored bundle changes anything |
| CommitContents.ApplyWrites | core/runtime/testing.py:136-204 | a new commit writes exactly what its request asks for: the switch target and no head, or the child lineage, or its own head; its revisions, Decisions, snapshot, audit event, adoptions, consumed Decisions and receipt |
| RunContents.RunAccounted | core/runtime/testing.py:108-204 | over every run the repository holds exactly what the seed held and the stored requests put there; the active lineage is the target of the last stored switch, and each head is that of the last request that moved it |
| StoredRecords.RunRecordsKept | core/runtime/state_reducer.py:355-460 | over every run the snapshot, audit event, receipt and revisions of each stored request stand as the request asked for them |
| Service.StateTransitionService.PrepareTransition | core/runtime/state_transition.py:45-121 | digest, schema, idempotency, view and checks run in this order and write nothing |
| Service.StateTransitionService.ApplyTransition | core/runtime/state_transition.py:45-156 | one atomic commit at most; a rejection or failed commit leaves the repository unchanged |
| TransitionRules.AnsweredFirst | core/runtime/state_transition.py:45-80 | the answers given before any check: to a broken digest, to schema codes, under a used key and for an unknown project or lineage |
| TransitionRules.JudgedNext | core/runtime/state_transition.py:80-124 | every objection at once, then a request that does not reduce, then every fault at once; a bundle exactly when there is none |
| TransitionRules.FinishTells | core/runtime/state_transition.py:125-156 | the answer to the commit call against the repository as it then is: receipt, conflict, persistence failure or a stale head with the current one |
| CommitFacts.StagedObjects | core/runtime/testing.py:145-150 | staging extends the store by exactly the given revisions, each under its own slot |
| CommitFacts.StagingFails | core/runtime/testing.py:145-157 | staging fails exactly when an object would change what its slot holds in the store or got from an earlier object of the bundle |
| CommitFacts.AtomicFailure | core/runtime/testing.py:108-204 | a commit fails atomically exactly when its key is new and its lineage is unknown, or its head fits and a revision or Decision clashes or a named identity is taken or unknown |
| CommitFacts.KeepsRevisions | core/runtime/testing.py:159-192 | a stored bundle keeps every stored revision exactly when its snapshot and audit slots hold nothing else |
| History.RunSafe | core/runtime/testing.py:108-204 | every reachable repository is well formed and has only added to each loaded base |
| History.HistoryImmutable | core/runtime/testing.py:136-204 | what a run has stored stays stored, unchanged, however loads and commits interleave |
| History.HistoryGapFree | core/runtime/state_reducer.py:323-345 | the revisions of every identity are exactly 0..n-1 across all lineages |
| Integrity.ReducerValidatorAgree | core/runtime/state_validation.py:34-62 | for ordinary transitions the reducer's member map is the reference validator's |
| Integrity.NewHeadClosed | core/runtime/state_validation.py:34-62 | the head an ordinary transition commits is closed under references |
| Integrity.Acyclic | core/runtime/state_reducer.py:355-384 | no snapshot is its own ancestor |
| Integrity.RunIntegral | core/runtime/state_validation.py:333-402 | in every reachable repository members and heads resolve with their digests, ancestry leads back to the seed, children descend from their baseline, ordinary heads are closed |
| Interleaving.GuardIsExact | core/runtime/testing.py:126-135 | one commit keeps single use exactly when every Decision it consumes is still unused when it is stored, which the commit does not check |
| Interleaving.SingleUseExactly | core/runtime/testing.py:108-204 | over every interleaving no Decision is consumed twice if and only if each commit was stored while what it consumes was unused |
| Interleaving.OneLineageUsesOnce | core/runtime/testing.py:126-135 | when every request is ordinary and on one lineage, the head compare alone keeps single use in every interleaving |
| SingleUse.DecisionsUsedOnce | core/runtime/authority_validation.py:156-178 | over every sequence of applied requests no Decision is consumed by two commits |
| SingleUse.CommitsPermanent | core/runtime/testing.py:114-121 | no commit record is ever replaced, in any interleaving |
| SingleUse.ReplayIsIdempotent | core/runtime/state_transition.py:67-83 | an accepted request applied again at any later time returns its first receipt and changes nothing |
| SingleUse.KeyIsBound | core/runtime/state_transition.py:46-83 | under a committed key only the committed request itself gets the receipt |
| ApplyOutcomes.ApplyGoes | core/runtime/state_transition.py:45-156 | `apply` returns the recorded receipt, refuses, or stores one accepted bundle; every rejection or commit error leaves the repository unchanged |
| Overwrites.StepKeepsRevisions | core/runtime/testing.py:159-192 | one step changes no stored revision exactly when its snapshot and audit event write over nothing else |
| Overwrites.ImmutableExactly | core/runtime/testing.py:159-192 | over every run of any requests no step changes a stored revision if and only if no commit does so |
| Overwrites.AuditEventOverwrites | core/runtime/testing.py:190-192 | whatever request creates an audit_event object, a later request's audit event can replace it |
| SingleUse.InterleavingReusesDecision | core/runtime/testing.py:126-135 | two interleaved switches of the active lineage consume the same Decision |
| Provenance.RequirementAnswered | core/runtime/authority_validation.py:120-155 | an accepted action's requirement is answered by a cited, unused human Decision that names its subject |
| Provenance.RunAccountable | core/runtime/authority_validation.py:38-155 | over every run each newly approved object is backed by a stored, used human Decision naming it: an adoption approval the object cites, or a reconfirmation when a stored lineage plan derived the object; the object itself lists a stored, used human Decision; synthetic evidence stays synthetic, and limitations vanish only under a cited revision Decision |
| Provenance.ReconfirmationProven | core/runtime/authority_validation.py:300-355 | the Decision a reconfirmation names is listed by its object, consumed, human and unused, and answers the reconfirmation exactly when it says so about the object |
| Provenance.SyntheticForever | core/runtime/state_validation.py:298-306 | after a synthetic revision every later revision of that evidence is synthetic |
| LineagePlan.TreatsEachOnce | core/runtime/state_reducer.py:188-252 | an accepted plan has exactly one treatment per baseline member and no other |
| LineagePlan.PlanMovesNothing | core/runtime/state_reducer.py:261-299 | a stored plan adds one child lineage and leaves every existing lineage and the active pointer as they were |
| LineagePlan.ChildHoldsLast | core/runtime/state_reducer.py:199-245 | the child holds, under each identity, what the last member leaving it leaves |
| LineagePlan.ChildExact | core/runtime/state_reducer.py:199-245 | the child is exactly the preserved members and derived objects if and only if no derived identity is contested |
| LineagePlan.ChildRows | core/runtime/state_reducer.py:254-261 | the child snapshot records exactly those members, preserved ones at their exact revisions |
| LineagePlan.StoredPlanExact | core/runtime/testing.py:145-150 | a stored plan loses a survivor exactly when a reconfirmation takes a preserved member's identity |
| LineagePlan.RunPlans | core/runtime/state_reducer.py:175-299 | over every run each stored plan's child snapshot holds exactly the child members, all survivors unless identities overlap, and its lineage stands with parent and baseline |
| LineagePlan.RunPlanMovesNothing | core/runtime/state_reducer.py:261-299 | over every run the commit of a plan adds one child lineage headed by the new snapshot, and changes no existing head and not the active pointer |
| ChildHeads.ChildKeys | core/runtime/state_reducer.py:199-245 | the child has exactly the identities that some treatment preserves or derives |
| ChildHeads.ChildClosed | core/runtime/state_validation.py:34-62 | the child head of a plan that passed the reference check is closed exactly when no survivor refers to something the treatments leave out or to nothing; the latter only with an overlap on an open baseline |
| ChildHeads.RunChildHeads | core/runtime/state_validation.py:34-62 | over every run the head of each stored plan's child is closed exactly then |
| PlanScenarios.PlanIsStored | core/runtime/state_reducer.py:175-299 | a plan that treats its baseline, names backed Decisions and derives next revisions on a closed baseline passes the other checks and is stored, under every policy that adds no code for it |
| PlanScenarios.PreservedMemberLost | core/runtime/state_reducer.py:199-245 | a plan that passes the core trace checks and is stored, with human Decisions for plan and reconfirmation, whose child cannot hold all survivors |
| PlanScenarios.OpenHead | core/runtime/state_validation.py:34-62 | a plan that passes the core trace checks and is stored, whose child's head refers to a research question it does not have |
| DecisionGate.GatherUnits | core/decision/service.py:117-121 | the loop gathers every required Decision with its action |
| DecisionGate.GroupUnits | core/decision/service.py:710-717 | units are grouped by kind and choice with each subject once, and filed under their action |
| DecisionGate.RecordGroups | core/decision/service.py:719-741 | one Decision is recorded per group, in group order, with its subjects in order |
| DecisionGate.BindPlanTreatments | core/decision/service.py:752-790 | each reconfirmation is bound to its own Decision, or binding fails |
| DecisionGate.MaterializeAndBind | core/decision/service.py:702-792 | the loops record and bind exactly the specified Decisions |
| GateFacts.DecisionIdsDiffer | core/decision/service.py:720-721 | within one request two groups get the same Decision id only if they are the same group |
| GateFacts.UnitsAt | core/decision/service.py:117-121 | a unit exists exactly for each requirement of each action |
| GateFacts.MatchingUnits | core/decision/service.py:762-777 | a reconfirmation requirement matches exactly one Decision |
| GateFacts.BindingTransparent | core/decision/service.py:743-792 | binding changes Decision provenance and nothing else |
| GateFacts.RequirementsUnchanged | core/runtime/authority_validation.py:38-97 | binding never changes which Decisions an action needs |
| GateRules.GateTells | core/decision/service.py:106-146 | which answer the gate gives any candidate: stale, claiming Decisions of its own, empty, asking its human for exactly the Decisions its actions need, or committing them as they are |
| GateRules.ApprovalTells | core/decision/service.py:234-251 | an approval records one human Decision per choice about exactly the subjects asked, and then the reviewed actions in order, each citing and listing its own Decisions after those it had |
| GateRules.ApprovalExactly | core/decision/service.py:680-792 | no approval can be built exactly when an action is not the one a Decision was asked for, or a reconfirmed object has not exactly one |
| GateCompleteness.ApprovalExists | core/decision/service.py:234-251 | an approval of an issued request can always be built |
| GateCompleteness.PoolHasMinted | core/runtime/authority_validation.py:462-471 | each minted Decision is in the pool under its id, unchanged |
| GateCompleteness.ApprovalDecisionsComplete | core/decision/service.py:702-792 | on the unchanged state the approved transition raises no Decision code |
| GateCompleteness.ApprovalLineageCodes | core/decision/service.py:752-790 | it never lacks reconfirmation provenance, and lacks a bound reconfirmation exactly when a derived object was left out |
| GateCompleteness.GateIsComplete | core/decision/service.py:106-146 | whatever candidate the gate stops, approving its request raises no Decision code and lacks a bound reconfirmation exactly when a derived object was left out |
| GateCompleteness.UnderivedIsApprovedInVain | core/decision/service.py:106-146 | in every state the gate asks for Decisions on a plan with a missing derived object, and what their approval builds raises RT-LINEAGE-013 |
| GateCompleteness.UnapprovedIsRefused | core/runtime/authority_validation.py:111-155 | a candidate the gate stops is refused when applied without approval |
| DecisionResolution.DecisionStore.PutRequest | plugins/local_decision_store/store.py:152-189 | a request is stored once, pending, and never changed by another under its id |
| DecisionResolution.DecisionStore.ClaimResponse | plugins/local_decision_store/store.py:234-273 | one response owns a request from PENDING on |
| DecisionResolution.DecisionStore.FinalizeResponse | plugins/local_decision_store/store.py:275-326 | only the owning response closes a request, once |
| DecisionResolution.HumanDecisionService.ResolveClaimed | core/decision/service.py:300-346 | the claimed response is carried to its end as specified |
| DecisionResolution.HumanDecisionService.VerifyCommitted | core/decision/service.py:253-298 | the check against commit history passes exactly when the history confirms the receipt |
| DecisionResolution.HumanDecisionService.ResolveResponse | core/decision/service.py:148-225 | an uninterrupted resolve is the specified sequence of store calls |
| ResolutionRules.OpeningTells | core/decision/service.py:148-225 | what a call answers before it writes, and whether it goes on to claim, to close as stale or to work |
| ResolutionRules.ClaimTells | plugins/local_decision_store/store.py:234-273 | a claim succeeds on a pending request, is repeated by its owner while it resolves, and fails otherwise |
| ResolutionRules.FinalizeTells | plugins/local_decision_store/store.py:275-325 | only the owner closes a request, once; closing it again the same way changes nothing |
| ResolutionRules.HistoryExactly | core/decision/service.py:253-298 | the history check passes exactly when the approval was committed under its key with this receipt, and the snapshot and every recorded Decision are stored as they were |
| Dispositions.RefusalEnds | core/decision/service.py:305-310 | declining a current request ends in DECLINED, asking for a revision in REVISION_REQUESTED, and neither changes the repository |
| Dispositions.OutdatedEnds | core/decision/service.py:210-225 | an answer to a request that is no longer current ends in STALE and changes nothing |
| Dispositions.ApprovalEnds | core/decision/service.py:311-346 | an approval ends in RESOLVED with the receipt of its commit, in STALE when head or pins moved, and stays open otherwise |
| Recovery.CourseSound | core/decision/service.py:148-225 | the two stores stay consistent under crashes after any store call and commits from elsewhere |
| Recovery.ExactlyOnce | core/decision/service.py:300-346 | RESOLVED means the one commit under the request's key with the stored receipt; every other closed state means none |
| Recovery.RetryReturnsFirstReceipt | core/decision/service.py:319-333 | retrying after a lost finalize returns the receipt of the first commit, even if the head has moved, and commits nothing |
| Recovery.ResolvedAlwaysVerifies | core/decision/service.py:253-298 | resolving a resolved request again always passes the history check |
| Recovery.LeftBehindNeverCommits | core/decision/service.py:334-341 | a request whose lineage has moved on is never committed, however calls crash and are retried |
| Dispositions.DispositionDecides | core/decision/service.py:300-346 | over every course with crashes and commits from elsewhere a request is DECLINED, REVISION_REQUESTED or RESOLVED only by an answer of its human that declines, asks for a revision or approves exactly |
| Staleness.OpensStaleExactly | core/decision/service.py:148-225 | a call finds a pending request of the bound human stale exactly when pins, source documents or requirements no longer fit |
| Staleness.CommitsExactlyWhenAccepted | core/decision/service.py:300-346 | an owned, uncommitted request is never committed exactly when its approval is accepted at no later moment, over all crashes, retries and commits from elsewhere |
| Staleness.StaleNeverCommitsExactly | core/decision/service.py:210-225 | a request about to be closed as stale is never committed exactly when the next store call closes it, or the call stops and no later retry is accepted |
| Staleness.StoppedThenRetried | core/decision/service.py:148-225 | read off the state in which the call stops: a request whose approval is accepted there is committed by a retry, one whose lineage has moved on never is |
| StaleSwitch.StalenessForgotten | core/decision/service.py:210-225 | a request with missing sources that is never committed once closed, and is committed by a retry when the call stops first |
| Execution.ExecutionTraceStore.CreateRun | core/execution/testing.py:78-83 | a Run id is used once |
| Execution.ExecutionTraceStore.TransitionRun | core/execution/testing.py:93-108 | a transition is stored with its event exactly when the stored status is the expected one and no pinned field changes |
| Execution.CapabilityExecutionService.Transition | core/execution/service.py:581-614 | an illegal or stale transition changes nothing |
| Execution.CapabilityExecutionService.PrepareRun | core/execution/context_service.py:239-330 | a Run is prepared exactly when its retry parent passes and its id is new, with its attempt number and opening event |
| Execution.CapabilityExecutionService.AcceptOutput | core/execution/service.py:427-507 | an output ends in COMPLETED or FAILED by compare-and-set, and returns a proposal only to the winner |
| Execution.CapabilityExecutionService.CollectExternal | core/execution/service.py:162-235 | only a RUNNING Run collects; a late result changes nothing |
| Execution.CapabilityExecutionService.Abort | core/execution/service.py:237-274 | a terminal Run is left alone, any other is aborted by compare-and-set |
| RunLifecycle.MoveExtends | core/execution/service.py:581-614 | a successful transition extends the Run's chain by one allowed step |
| RunLifecycle.RunsSound | core/execution/testing.py:78-108 | the protocol invariant holds after any interleaving of calls that may stop anywhere |
| RunLifecycle.OneTerminalStep | core/execution/service.py:36-55 | at most one terminal step of a Run ever succeeds, and it is where the Run stands |
| RunLifecycle.EventsFormOneChain | core/execution/service.py:590-601 | events follow allowed steps, and sorted by sequence form one linked chain ending at the stored status |
| RunLifecycle.ProposalsFromWinners | core/execution/service.py:488-579 | a proposal is returned at most once per Run, by the call that completed it |
| RunEndings.MoveExactly | core/execution/service.py:581-614 | a transition happens exactly when the Run stands where the caller saw it and the step is one of its life; it then stores status, handoff and event |
| RunEndings.StepEndsRight | core/execution/service.py:427-507 | a finish that finds its Run RUNNING completes it with its handoff when the output is valid and fails it otherwise; an abort aborts it; no other step ends a Run |
| RunEndings.EndedBecause | core/execution/service.py:616-646 | over every interleaving a Run is COMPLETED only by a finish with a valid output, FAILED only by one with an invalid output, ABORTED only by an abort |
| RunEndings.ProposedExactly | core/execution/service.py:488-579 | over every interleaving a proposal is returned exactly when a finish of the running Run had an output that is valid, not rejected and normalizes |
| RunEndings.RunsAreAsked | core/execution/context_service.py:239-330 | over every interleaving each Run has the project, capability and retry parent of a call for it |
| RunLifecycle.RetryChainsEnd | core/execution/context_service.py:239-268 | retry chains are finite, as long as the attempt number, with terminal parents of the same capability |
| RunLifecycle.StepProjectsExactly | core/execution/context_service.py:239-268 | one step keeps every retry in its parent's project exactly when the retry it prepares, if any, names that project |
| RunLifecycle.RetriesKeepProjectExactly | core/execution/context_service.py:239-268 | over every interleaving retries stay in their parent's project if and only if each one named it when prepared |
| RunLifecycle.PlainRetriesKeepProject | core/execution/service.py:323-339 | prepared by the plain service alone, every retry meets that condition |
| RunLifecycle.ExtendedRetryCrossesProjects | core/execution/context_service.py:239-268 | the service with context extensions admits a retry of another project's Run |
| Sharding.FirstLeast | scripts/ci_test_shards.py:82-82 | the chosen bin is the first of least total |
| Sharding.PackAll | scripts/ci_test_shards.py:80-84 | the loop over modules fills the bins as specified, each with its running total |
| Sharding.Shards | scripts/ci_test_shards.py:77-85 | the shards are the specified packing; choosing among no bins is an error |
| Sharding.LoadIsRecorded | scripts/ci_test_shards.py:77-82 | the load of a shard is the recorded time of its modules, with the default for each that has none |
| Sharding.ByCostSorts | scripts/ci_test_shards.py:81-81 | modules are taken costliest first, each as often as listed |
| Sharding.ShardsDistribute | scripts/ci_test_shards.py:77-85 | the shards hold exactly the given multiset of modules, each in name order |
| Sharding.ShardsBalanced | scripts/ci_test_shards.py:77-85 | m times any load is at most the total plus m-1 times the largest cost |
| Sharding.LargeModulesFit | scripts/ci_test_shards.py:77-85 | when all modules so far exceed a third of the cap, the least loaded bin still takes the next one |
| Sharding.ShardsNearOptimal | scripts/ci_test_shards.py:77-85 | no shard exceeds 4/3 - 1/(3m) times the longest shard of any other distribution |
| SharpBound.BoundIsReached | scripts/ci_test_shards.py:77-85 | for every number of shards some modules reach that bound with equality |
| Whitespace.Normalize | plugins/desktop_research/retention.py:66-81 | the index loops compute the regex normalization and the span of each of its characters |
| NormalForm.NormTells | plugins/desktop_research/retention.py:57-58 | normalizing keeps every other character and every place where blanks stand, and leaves one space there |
| NormalForm.NormalFormUnique | plugins/desktop_research/retention.py:57-58 | characters and gaps determine a text whose only blanks are single spaces |
| Whitespace.NormOfSlice | plugins/desktop_research/retention.py:57-81 | a slice's normalization is the run of normalized characters of the pieces it touches |
| Whitespace.Find | plugins/desktop_research/retention.py:83-85 | the first occurrence, or none |
| Whitespace.MatchingWhitespaceSlice | plugins/desktop_research/retention.py:61-87 | the answer is the leftmost and there longest slice that matches up to whitespace; none exactly when the excerpt is empty or nothing matches |
| DelphiRounds.DelphiStore.KeepsEarlierAnswers | plugins/local_delphi_store.py:376-385 | the loop finds a lost answer exactly when one is lost |
| DelphiRounds.DelphiStore.CaptureRoundRevision | plugins/local_delphi_store.py:317-404 | one transaction stores one revision or changes nothing, with the specified answer |
| DelphiCaptures.CaptureTells | plugins/local_delphi_store.py:317-404 | the answer of a capture for any stored revisions: the stored document, a conflict, an unbound recalculation, a lost answer, or the document under the next version |
| DelphiCaptures.BindsExactly | plugins/local_delphi_store.py:336-365 | a recalculation is bound to a revision exactly when it repeats its instrument, participants and answers |
| DelphiRounds.CaptureSound | plugins/local_delphi_store.py:317-404 | a capture keeps every Round's history sound and every stored revision |
| DelphiRounds.RoundHistory | plugins/local_delphi_store.py:317-404 | versions are exactly 1..n, digests never repeat, answers and participants survive along revisions without the field, recalculations repeat their source |
| DelphiRounds.KeptExactly | plugins/local_delphi_store.py:366-385 | one more revision keeps all earlier answers exactly when it keeps those of the last comparable revision, null fields included |
| DelphiRounds.AnswersSurviveExactly | plugins/local_delphi_store.py:317-404 | through any captures answers survive along all revisions that are no recalculations if and only if each stored one passed that check |
| DelphiRounds.NullFieldForgets | plugins/local_delphi_store.py:366-374 | answers of a revision whose field is null can be dropped by the next |
| SurveyEntries.TriggersKeepCounts | plugins/local_store_schemas.py:149-189 | after any inserts, deletes and kind changes the trigger counters are the real counts |
| SurveyEntries.EntriesSorted | plugins/local_survey_response_store.py:261-271 | the entry list is in key order |
| SurveyEntries.EntriesMatchSummary | plugins/local_survey_response_store.py:218-275 | the projection has as many entries and accepted entries as the summary says |
| SurveyEntries.PageIsSlice | plugins/local_survey_response_store.py:690-771 | a page of any limit and offset is the slice of the entry list |
| SurveyEntries.CapturedDatasetPages | plugins/local_survey_response_store.py:690-771 | paging a captured dataset with any positive limit returns exactly its entry list, never an integrity error |
| SurveyEntries.LocalSurveyResponseStore.InsertEntryRow | plugins/local_store_schemas.py:156-172 | an entry insert fires its counter trigger |
| SurveyEntries.LocalSurveyResponseStore.Capture | plugins/local_survey_response_store.py:397-555 | one transaction stores the dataset and all its entries, or nothing |
| SurveyReads.EntriesTell | plugins/local_survey_response_store.py:218-275 | a dataset has an entry list exactly when an input is recorded for each rejected response and the counts fit; it then lists each accepted response, each rejected one with its last input and each unnamed input, as often as the dataset does |
| SurveyReads.EntriesInOrder | plugins/local_survey_response_store.py:261-271 | the list is ordered by kind, namespace, id, digest and remaining content |
| SurveyReads.CaptureTells | plugins/local_survey_response_store.py:397-555 | which datasets a capture refuses, finds stored already, or stores |
| SurveyReads.LoadTells | plugins/local_survey_response_store.py:690-771 | what a page read answers for any stored rows: an integrity error exactly when counts, positions or kinds do not fit, else the entries from the offset on |
| CandidatePages.ListRows | plugins/local_conversation_store/synthesis.py:60-131 | the page for a kind, or the error for an unknown kind, by the per-producer loop, sort and slice |
| CandidatePages.ProducersOf | plugins/local_conversation_store/synthesis.py:16-22 | the producers of a kind are distinct |
| CandidateListings.ListingTells | plugins/local_conversation_store/synthesis.py:16-131 | for any table, kind, limit and cursor: which error, or the newest offered rows after the cursor, whether more are due, the next cursor and whether the table has unreadable rows |
| CandidatePages.MergeIsOneQuery | plugins/local_conversation_store/synthesis.py:90-131 | merging bounded queries per producer gives the page, truncation and cursor of one query over all |
| CandidatePages.KindIsOneQuery | plugins/local_conversation_store/synthesis.py:60-131 | for every kind the listing is one query over the producers of that kind |
| CandidatePages.FollowVisitsAll | plugins/local_conversation_store/synthesis.py:60-131 | following the cursor visits every row exactly once, newest first, and ends |
| CandidatePages.FollowKind | plugins/local_conversation_store/synthesis.py:60-131 | for every known kind following the cursor visits every row of it exactly once |
| CursorCodec.PaddedRoundTrip | plugins/local_project_input_store.py:34-43 | decoding padded base64url gives the bytes back |
| CursorCodec.TextRoundTrip | plugins/local_project_input_store.py:34-43 | so does stripping and restoring the padding, and the text is URL-safe |
| CursorBits.EncodeTells | plugins/local_project_input_store.py:34-36 | the text spells the bits of the bytes, six to a character of the URL-safe alphabet, filled up with zeros, and nothing else |
| CursorBits.DecodeTells | plugins/local_project_input_store.py:39-42 | text of either alphabet without padding of its own decodes exactly when its length fits whole bytes; then to the bytes that carry the values of its characters |
| ProjectInputs.CursorRoundTrip | plugins/local_project_input_store.py:34-57 | a cursor decodes to the position it encodes, unless a part of it is empty |
| InputListings.PageTells | plugins/local_project_input_store.py:507-554 | for any inputs, limit and cursor: which error, or the first inputs of the project after the position, whether more are due, and the cursor of the last one shown |
| ProjectInputs.FollowVisitsAll | plugins/local_project_input_store.py:507-554 | following next_cursor visits every input of the project exactly once, in order, and ends |
| Exhibits.LocalResearchExhibitStore.ConnectWrite | plugins/local_research_exhibit_store.py:601-628 | a writable open adds the missing metadata rows |
| Exhibits.LocalResearchExhibitStore.CaptureDocument | plugins/local_research_exhibit_store.py:630-698 | a capture stores document, metadata and links, or only what its open wrote, and answers which |
| ExhibitListings.CaptureTells | plugins/local_research_exhibit_store.py:630-698 | in every reachable store a capture changes nothing when a question is named twice, and otherwise leaves each document indexed and stores its own exactly when its id is new |
| ExhibitListings.StoresFiled | plugins/local_research_exhibit_store.py:630-698 | in every reachable store documents are filed under their ids and linked to exactly the questions they name |
| ExhibitListings.ListTells | plugins/local_research_exhibit_store.py:722-790 | in every reachable store a listing shows, newest first, the newest documents of the project, question and position asked for, described field by field |
| Exhibits.IndexAgrees | plugins/local_research_exhibit_store.py:722-790 | in every reachable store the index lists what the documents list, for every query, exactly when no document is missing from it |
| Exhibits.IncompleteExactly | plugins/local_research_exhibit_store.py:601-628 | after any writes a document is missing exactly when an older version stored one after the index existed and no write has opened it since |
| Exhibits.LegacyAfterOpenIsMissed | plugins/local_research_exhibit_store.py:601-628 | one writable open and then one capture by an older version: some listing differs from the documents |
| Exhibits.LegacyFirstComplete | plugins/local_research_exhibit_store.py:601-628 | none is missing when older versions write only before the first writable open |

## Left out

- Messages, stages, affected references and order of validation issues; only the codes are kept.
- JSON Schema and id-pattern checks, the payload-shape codes RT-SCHEMA-001, 002, 004, 007 and 008, the
  epistemic preconditions RT-EPI-001 to 004, profile constraints, project guards, adoption boundaries
  and core trace checks: they enter as the functions of `Service.Policy`, with their own codes.
- RT-CORE-PROV-005, on revisions a research question was derived from: the records have no such field.
  The other core trace checks are `PlanScenarios.TRACED`, the policy of the plans exhibited there.
- `validate_commit_bundle`, which compares a bundle with the request it was just built from.
- Payloads of other shapes than the records (a non-mapping treatment, a member row that is no
  mapping, an incomplete plan beyond its absence) and bundle digests, which the source recomputes
  from the fields the model compares directly.
- Lineage fields that no check reads: status, execution mode, head revision and the pins a child
  copies; `source_refs` of requests and actions.
- Concurrent `resolve` calls on one request, and more than one reader of the Decision store.
- The CANCELLED status of a Decision request and the SUPERSEDED status of a Run as outcomes: no
  modelled operation produces them.
- Rejected-response records, request provenance, research context and the digest fields of a
  Decision request other than its requirement set and bindings.
- Execution documents, artifacts, diagnostics, authorization and adapter lookup: an output is valid
  or not. Context extension storage is idempotent and left out.
- `default_cost`: the cost of a module without a recorded duration is a parameter, so the bounds
  hold for every default.
- Negative durations: the packing bounds need costs that are not negative; the distribution does not.
- `_citation_projection` and `_coverage_projection`, which copy and edit documents around the search.
- `resolve_approval` and the other Delphi document kinds: each is one lookup and one insert. Round
  versions are numbers; a source reference whose version is no canonical number resolves to nothing.
- Survey responses and their duplicate checks inside `capture_dataset`, and summary digests.
- JSON text of cursors: dumping and parsing a position are parameters that are assumed to be a round
  trip.
- CursorBits.DecodeTells: a character outside both alphabets, which the library skips, makes a text
  undecodable, because no cursor that a page hands out has one.
- InputListings.PageTells: a cursor with such a character is refused, for the same reason.
- CandidatePages.ListRows: the LEFT JOIN with the source document adds columns and no rows.
- StateLoops.ValidateReduced: core trace, profile, project guard and adoption boundary checks enter through
  `Service.Policy`, because what they demand is configuration and does not depend on the other checks.
- Service.StateTransitionService.PrepareTransition: payload shapes and epistemic preconditions enter
  through `Service.Policy` in the same way.
- Execution.CapabilityExecutionService.PrepareRun: authorization, documents and context extensions are
  left out, because they only refuse earlier.
- Execution.CapabilityExecutionService.AcceptOutput: output validation is one flag, whatever it looks at.
- Execution.CapabilityExecutionService.CollectExternal: diagnostics and artifacts of late results are left
  out, because they change no Run.
- SurveyEntries.LocalSurveyResponseStore.Capture: response rows and refusals of duplicate records are left
  out, because no count or page reads them.
- ProjectInputs.CursorRoundTrip: JSON dump and parse are an assumed round trip, because they are library
  functions.
- Registering, repairing and deleting project inputs, blobs, file locks and SQLite itself: one
  transaction is one step.
- Invalid stored exhibit documents, which listing and backfilling refuse.
