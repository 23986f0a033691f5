/** The only write path to the Research State (core/runtime/state_transition.py and
    core/runtime/validation.py): checks before reduction, reduction, checks after, one commit. */
module Service {
  import opened Common
  import opened Records
  import opened Authority
  import opened Reducer
  import opened ReducerLoops
  import opened StateLoops
  import opened StateValidation
  import opened Repository

  /** The checks this model takes as parameters: JSON Schema checks of a request, the further
      checks before reduction (payload shape, epistemic preconditions) and the further checks
      of a reduction (schema, profile, project guards, policies). */
  datatype Policy = Policy(
    schema: Request -> set<string>,
    guards: (View, Request) -> set<string>,
    rules: (View, Request, Reduction) -> set<string>)

  datatype Outcome =
    | Committed(receipt: Receipt)
    | Rejected(codes: set<string>, head: Option<Pin>)
    | Missing

  predicate CarriesObject(kind: ActionKind) {
    !kind.ApplyLineagePlan? && !kind.SwitchActiveLineage? && !kind.RecordRunResultAdoption?
  }

  function ActionSchemaCodes(a: Action): set<string> {
    if !CarriesObject(a.kind) then {}
    else if a.payload.None? then {"RT-SCHEMA-006"}
    else
      Flag(a.kind.RecordDecision? && a.payload.value.kind != "decision", "RT-SCHEMA-009")
      + Flag(a.kind.RegisterWritingFeedbackAction? && a.payload.value.kind != "next_action", "RT-SCHEMA-010")
      + Flag((a.kind.VerifyEvidence? || a.kind.ReclassifyEvidence?)
          && a.payload.value.kind != "evidence", "RT-SCHEMA-011")
  }

  function SchemaCodes(req: Request): set<string> {
    Flag(req.actions == [], "RT-SCHEMA-003")
    + (set i, c | 0 <= i < |req.actions| && c in ActionSchemaCodes(req.actions[i]) :: c)
  }

  function PinCodes(v: View, req: Request): set<string> {
    Flag(req.config != v.config, "RT-PIN-002")
    + Flag(req.profile != v.profile, "RT-PIN-003")
    + Flag(req.project != v.project || req.lineage != v.lineage, "RT-PIN-004")
    + Flag(req.head != v.Head(), "RT-HEAD-001")
  }

  function AuthorizationCodes(req: Request): set<string> {
    var t := req.actor.actorType;
    if t != "human" && t != "service" && t != "adapter" && t != "system" then {"RT-AUTH-001"}
    else Flag(t != "human" && req.authorization == [], "RT-AUTH-002")
  }

  function PreCodes(v: View, req: Request): set<string> {
    SchemaCodes(req) + PinCodes(v, req) + AuthorizationCodes(req) + HumanDecisionCodes(v, req) + LineageCodes(v, req)
  }

  function ReceiptOf(v: View, req: Request, red: Reduction): Receipt {
    Receipt(req.transitionId, req.commitId, v.Head(),
            if red.snapshot.Some? then Some(Pin(red.snapshot.value.id, red.snapshot.value.seal)) else None,
            req.lineage, seq(|req.actions|, i requires 0 <= i < |req.actions| => req.actions[i].kind),
            red.used, req.submittedAt, req.actor, req.key)
  }

  function BundleOf(v: View, req: Request, red: Reduction): Bundle {
    Bundle(req.lineage, req.key, req.digest, v.Head(), red, ReceiptOf(v, req, red))
  }

  /** What the service knows when it reaches the commit call. */
  datatype Prepared =
    | Answered(outcome: Outcome)
    | Ready(bundle: Bundle)

  function Judge(p: Policy, v: View, req: Request): Prepared {
    var pre := PreCodes(v, req) + p.guards(v, req);
    if pre != {} then Answered(Rejected(pre, Some(v.Head())))
    else
      match Reduce(v, req)
      case None => Answered(Rejected({"RT-REDUCE-001"}, Some(v.Head())))
      case Some(red) =>
        var post := PostCodes(v, req, red) + p.rules(v, req, red);
        if post != {} then Answered(Rejected(post, Some(v.Head()))) else Ready(BundleOf(v, req, red))
  }

  function Prepare(r: Repo, p: Policy, req: Request): Prepared {
    if req.digest != req.CalculatedDigest() then Answered(Rejected({"RT-PIN-001"}, None))
    else if p.schema(req) != {} then Answered(Rejected(p.schema(req), None))
    else if req.key in r.commits then
      Answered(if r.commits[req.key].digest == req.digest then Committed(r.commits[req.key].receipt)
               else Rejected({"RT-IDEMPOTENCY-001"}, None))
    else
      match LoadView(r, req.project, req.lineage)
      case None => Answered(Missing)
      case Some(v) => Judge(p, v, req)
  }

  /** The answer to a commit call; only a stale head is reported with the head as it now is. */
  function Answer(r: Repo, req: Request, loaded: Pin, persisted: Persisted): Outcome {
    match persisted
    case Stored(receipt) => Committed(receipt)
    case Failed(StaleHeadError) => Rejected({"RT-HEAD-002"}, HeadOf(r, req))
    case Failed(IdempotencyConflictError) => Rejected({"RT-IDEMPOTENCY-002"}, Some(loaded))
    case Failed(AtomicCommitError) => Rejected({"RT-PERSIST-001"}, Some(loaded))
  }

  function HeadOf(r: Repo, req: Request): Option<Pin> {
    match LoadView(r, req.project, req.lineage) case None => None case Some(v) => Some(v.Head())
  }

  /** The commit half, against the repository as it is when the commit runs. */
  function Finish(r: Repo, req: Request, prepared: Prepared): (Repo, Outcome) {
    match prepared
    case Answered(outcome) => (r, outcome)
    case Ready(bundle) =>
      var (next, persisted) := Persist(r, bundle, req.head.digest);
      (next, Answer(next, req, bundle.previous, persisted))
  }

  /** `apply` with nothing in between its load and its commit. */
  function Apply(r: Repo, p: Policy, req: Request): (Repo, Outcome) {
    Finish(r, req, Prepare(r, p, req))
  }

  /** `apply` when the next commit is made to fail: what is answered before it still is. */
  function ApplyFailing(r: Repo, p: Policy, req: Request): Outcome {
    match Prepare(r, p, req)
    case Answered(outcome) => outcome
    case Ready(bundle) => Answer(r, req, bundle.previous, Failed(AtomicCommitError))
  }

  class StateTransitionService {
    const repository: ResearchStateRepository
    const policy: Policy

    constructor (repository: ResearchStateRepository, policy: Policy)
      ensures this.repository == repository && this.policy == policy
    {
      this.repository := repository;
      this.policy := policy;
    }

    /** Everything up to the commit call; writes nothing. */
    method PrepareTransition(req: Request) returns (prepared: Prepared)
      ensures prepared == Prepare(repository.State(), policy, req)
    {
      if req.digest != req.CalculatedDigest() { return Answered(Rejected({"RT-PIN-001"}, None)); }
      var schema := policy.schema(req);
      if schema != {} { return Answered(Rejected(schema, None)); }
      var prior := repository.FindCommit(req.key);
      if prior.Some? {
        return Answered(if prior.value.digest == req.digest then Committed(prior.value.receipt)
                        else Rejected({"RT-IDEMPOTENCY-001"}, None));
      }
      var view := repository.LoadStateView(req.project, req.lineage);
      if view.None? { return Answered(Missing); }
      prepared := JudgeTransition(view.value, req);
    }

    method JudgeTransition(v: View, req: Request) returns (prepared: Prepared)
      ensures prepared == Judge(policy, v, req)
    {
      var decisions := ValidateHumanDecisions(v, req);
      var checked := SchemaCodes(req) + PinCodes(v, req) + AuthorizationCodes(req) + decisions + LineageCodes(v, req);
      var issues := checked + policy.guards(v, req);
      if issues != {} { return Answered(Rejected(issues, Some(v.Head()))); }
      var reduction := ReduceState(v, req);
      if reduction.None? { return Answered(Rejected({"RT-REDUCE-001"}, Some(v.Head()))); }
      var reduced := ValidateReduced(v, req, reduction.value);
      var post := reduced + policy.rules(v, req, reduction.value);
      if post != {} { return Answered(Rejected(post, Some(v.Head()))); }
      return Ready(BundleOf(v, req, reduction.value));
    }

    /** One commit call at most; a rejection or a failed commit leaves the repository as it was. */
    method ApplyTransition(req: Request) returns (outcome: Outcome)
      modifies repository
      ensures !old(repository.failNextCommit) ==>
                (repository.State(), outcome) == Apply(old(repository.State()), policy, req)
      ensures old(repository.failNextCommit) ==>
                repository.State() == old(repository.State())
                    && outcome == ApplyFailing(old(repository.State()), policy, req)
      ensures !outcome.Committed? ==> repository.State() == old(repository.State())
    {
      var prepared := PrepareTransition(req);
      match prepared {
        case Answered(answer) => outcome := answer;
        case Ready(bundle) =>
          var persisted := repository.Commit(bundle, req.head.digest);
          match persisted {
            case Stored(receipt) => outcome := Committed(receipt);
            case Failed(StaleHeadError) =>
              var reloaded := repository.LoadStateView(req.project, req.lineage);
              outcome := Rejected({"RT-HEAD-002"}, if reloaded.None? then None else Some(reloaded.value.Head()));
            case Failed(IdempotencyConflictError) => outcome := Rejected({"RT-IDEMPOTENCY-002"}, Some(bundle.previous));
            case Failed(AtomicCommitError) => outcome := Rejected({"RT-PERSIST-001"}, Some(bundle.previous));
          }
      }
    }
  }
}
