/** Who stands behind the state of every reachable repository: approvals rest on stored human
    Decisions, synthetic evidence stays synthetic, recorded limitations are not dropped silently. */
module Provenance {
  import opened Common
  import opened Records
  import opened Authority
  import opened Reducer
  import opened ReducerFacts
  import opened StateValidation
  import opened Repository
  import opened Service
  import opened CommitFacts
  import opened History
  import opened SingleUse
  import opened Integrity

  // ---------------------------------------------------------------- decisions behind a transition

  lemma {:induction false} PoolOrigin(stored: map<string, Object>, actions: seq<Action>, ref: string)
    requires ref in Pool(stored, actions)
    ensures var d := Pool(stored, actions)[ref];
            (d in DecisionsOf(actions) && d.id == ref) || (ref in stored && d == stored[ref])
  {
    if actions != [] {
      var front, last := actions[..|actions| - 1], actions[|actions| - 1];
      if last.kind.RecordDecision? && last.payload.Some? && last.payload.value.id == ref && ref != "" {
        assert Pool(stored, actions)[ref] == last.payload.value;
        assert last.payload.value in DecisionsOf(actions);
      } else {
        assert ref in Pool(stored, front) && Pool(stored, front)[ref] == Pool(stored, actions)[ref];
        PoolOrigin(stored, front, ref);
        assert forall d :: d in DecisionsOf(front) ==> d in DecisionsOf(actions);
      }
    }
  }

  /** Whatever Decision a stored request cites is in the repository afterwards, unchanged. */
  lemma CitedIsStored(v: View, req: Request, red: Reduction, r: Repo, b: Bundle, ref: string)
    requires Reduce(v, req) == Some(red) && b.reduction == red && Staged(r, b).Some?
    requires Extends(v.decisions, r.decisions) && ref in Pool(v.decisions, req.actions)
    ensures var next := Staged(r, b).value;
            ref in next.decisions && next.decisions[ref] == Pool(v.decisions, req.actions)[ref]
  {
    PoolOrigin(v.decisions, req.actions, ref);
    StagedDecisions(r.decisions, red.decisions);
    RecordedDecisions(v, req, red, Pool(v.decisions, req.actions)[ref]);
  }

  /** With no Decision issue, every requirement of an action has an answer among its references. */
  lemma RequirementAnswered(v: View, req: Request, i: nat, q: Requirement) returns (ref: string)
    requires HumanDecisionCodes(v, req) == {} && i < |req.actions| && q in Required(v, req.actions[i])
    ensures ref in req.actions[i].decisionRefs
    ensures Answers(Pool(v.decisions, req.actions), v, req.project, req.actions[i], q, ref)
  {
    var a, pool := req.actions[i], Pool(v.decisions, req.actions);
    assert "RT-DECISION-001" !in ActionDecisionCodes(pool, v, req.project, a) by {
      forall c | c in ActionDecisionCodes(pool, v, req.project, a) ensures c in HumanDecisionCodes(v, req) {}
    }
    assert !SomeUnanswered(pool, v, req.project, a, Required(v, a));
    var j :| 0 <= j < |Required(v, a)| && Required(v, a)[j] == q;
    assert !Unanswered(pool, v, req.project, a, q);
    var k :| 0 <= k < |a.decisionRefs| && Answers(pool, v, req.project, a, q, a.decisionRefs[k]);
    ref := a.decisionRefs[k];
  }

  // ---------------------------------------------------------------- approvals

  predicate Approved(o: Object) { o.Says("adoption_state", "approved") }

  function Before(k: Key): Key { Key(k.kind, k.id, k.revision - 1) }

  /** The revision filed at `k` is approved and the one before it, if any, is not. */
  predicate NewlyApproved(objects: map<Key, Object>, k: Key) {
    && k in objects && Protected(k.kind) && Approved(objects[k])
    && (Before(k) in objects ==> !Approved(objects[Before(k)]))
  }

  /** The request's lineage plan derives `o`. */
  ghost predicate DerivedByPlan(req: Request, o: Object) {
    exists i, j :: 0 <= i < |req.actions| && req.actions[i].kind.ApplyLineagePlan? && req.actions[i].plan.Some?
      && 0 <= j < |req.actions[i].plan.value.treatments|
      && Reconfirms(req.actions[i].plan.value.treatments[j])
          && req.actions[i].plan.value.treatments[j].derived == Some(o)
  }

  ghost predicate PlanDerived(log: seq<Pending>, o: Object) {
    exists n :: 0 <= n < |log| && DerivedByPlan(log[n].req, o)
  }

  /** Decision `d` is a consumed human answer that approves object `o`, or reconfirms it when
      a stored lineage plan derived it. */
  ghost predicate Approves(r: Repo, log: seq<Pending>, d: string, o: Object) {
    && d in r.used && d in r.decisions
    && r.decisions[d].Says("actor_type", "human")
    && r.decisions[d].Says("project_id", r.project)
    && r.decisions[d].Names(o.kind, o.id)
    && ((r.decisions[d].Says("decision_kind", "research_adoption") && r.decisions[d].Says("choice", "approve")
         && d in o.List("decision_ids"))
        || (PlanDerived(log, o)
            && r.decisions[d].Says("decision_kind", "lineage_reconfirmation")
                && r.decisions[d].Says("choice", "reconfirm")))
  }

  /** Object `o` lists Decision `c`, a stored and consumed Decision of a human. */
  ghost predicate ListsHuman(r: Repo, c: string, o: Object) {
    && c in o.List("decision_ids") && c in r.used
    && c in r.decisions && r.decisions[c].Says("actor_type", "human")
  }

  ghost predicate Backed(r: Repo, log: seq<Pending>, o: Object) {
    (exists d :: Approves(r, log, d, o)) && exists c :: ListsHuman(r, c, o)
  }

  /** Every approval that is not part of the seed is backed. */
  ghost predicate ApprovalsBacked(seed: Repo, r: Repo, log: seq<Pending>) {
    forall k :: NewlyApproved(r.objects, k) && k !in seed.objects ==> Backed(r, log, r.objects[k])
  }

  lemma AdoptionRequired(v: View, a: Action, o: Object)
    requires a.payload == Some(o) && Protected(o.kind) && Approved(o)
    requires TextOf(v.Latest(o.kind, o.id), "adoption_state") != Some("approved")
    ensures Requirement("research_adoption", "approve", o.Identity()) in Required(v, a)
  {
    var q := Requirement("research_adoption", "approve", o.Identity());
    assert AdoptionRequirement(v.Latest(o.kind, o.id), o) == [q];
    assert q in ObjectRequirements(v.Latest(o.kind, o.id), o);
  }

  /** An answered requirement leaves its Decision stored and consumed. */
  lemma AnswerConsumed(v: View, req: Request, red: Reduction, r: Repo, b: Bundle, i: nat, q: Requirement)
    returns (d: string)
    requires HumanDecisionCodes(v, req) == {} && Reduce(v, req) == Some(red)
    requires b.reduction == red && Staged(r, b).Some? && Extends(v.decisions, r.decisions)
    requires i < |req.actions| && q in Required(v, req.actions[i])
    ensures var next := Staged(r, b).value;
            d in next.used && d in next.decisions
            && next.decisions[d].Says("actor_type", "human") && next.decisions[d].Says("project_id", req.project)
            && next.decisions[d].Says("decision_kind", q.decisionKind) && next.decisions[d].Says("choice", q.choice)
            && next.decisions[d].Names(q.subject.kind, q.subject.id)
            && (req.actions[i].payload.Some? ==> d in req.actions[i].payload.value.List("decision_ids"))
  {
    d := RequirementAnswered(v, req, i, q);
    CitedIsStored(v, req, red, r, b, d);
    ReducedUsed(v, req, red);
    assert req.actions[i] in req.actions;
  }

  /** With no lineage issue, a reconfirmed object lists the Decision its treatment names, and the
      action cites it. */
  lemma ReconfirmationCited(v: View, req: Request, i: nat, j: nat)
    requires LineageCodes(v, req) == {}
    requires i < |req.actions| && req.actions[i].kind.ApplyLineagePlan? && req.actions[i].plan.Some?
    requires j < |req.actions[i].plan.value.treatments| && Reconfirms(req.actions[i].plan.value.treatments[j])
    ensures var a, t := req.actions[i], req.actions[i].plan.value.treatments[j];
            t.decisionRef in a.decisionRefs && t.decisionRef in t.derived.value.List("decision_ids")
  {
    var a := req.actions[i];
    var p := a.plan.value;
    var t := p.treatments[j];
    forall c | c in TreatmentCodes(a, t) ensures c in LineageCodes(v, req) {
      assert c in PlanCodes(v, req, a, p);
      assert c in ActionLineageCodes(v, req, req.actions[i]);
    }
    assert "RT-LINEAGE-008" !in TreatmentCodes(a, t) && "RT-LINEAGE-013" !in TreatmentCodes(a, t);
    assert "RT-LINEAGE-014" !in TreatmentCodes(a, t);
  }

  /** The Decision a reconfirmation names is consumed, human and still unused when judged; it is
      itself the answer to the reconfirmation exactly when it says so about the derived object. */
  lemma ReconfirmationProven(v: View, req: Request, i: nat, j: nat)
    requires HumanDecisionCodes(v, req) == {} && LineageCodes(v, req) == {}
    requires i < |req.actions| && req.actions[i].kind.ApplyLineagePlan? && req.actions[i].plan.Some?
    requires j < |req.actions[i].plan.value.treatments| && Reconfirms(req.actions[i].plan.value.treatments[j])
    ensures var a, pool := req.actions[i], Pool(v.decisions, req.actions);
            var t := a.plan.value.treatments[j];
            var o, d := t.derived.value, t.decisionRef;
            && d in o.List("decision_ids") && d in Resolving(v, req.actions)
            && d in pool && d !in v.used && pool[d].Says("actor_type", "human")
            && (Answers(pool, v, req.project, a, Requirement("lineage_reconfirmation", "reconfirm", o.Identity()),
                d) <==>
                  && pool[d].Says("project_id", req.project) && pool[d].Says("decision_kind", "lineage_reconfirmation")
                  && pool[d].Says("choice", "reconfirm") && pool[d].Names(o.kind, o.id)
                  && (a.payload.Some? ==> d in a.payload.value.List("decision_ids")))
  {
    var a := req.actions[i];
    var t := a.plan.value.treatments[j];
    ReconfirmationCited(v, req, i, j);
    ReconfirmationRequired(v, a, t);
    var k :| 0 <= k < |a.decisionRefs| && a.decisionRefs[k] == t.decisionRef;
    ReferenceClean(v, req, i, k);
    assert a in req.actions && Required(v, a) != [];
  }

  lemma ReconfirmedLists(v: View, req: Request, red: Reduction, r: Repo, b: Bundle, i: nat, j: nat)
    requires HumanDecisionCodes(v, req) == {} && LineageCodes(v, req) == {} && Reduce(v, req) == Some(red)
    requires b.reduction == red && Staged(r, b).Some? && Extends(v.decisions, r.decisions)
    requires i < |req.actions| && req.actions[i].kind.ApplyLineagePlan? && req.actions[i].plan.Some?
    requires j < |req.actions[i].plan.value.treatments| && Reconfirms(req.actions[i].plan.value.treatments[j])
    ensures var t := req.actions[i].plan.value.treatments[j];
            ListsHuman(Staged(r, b).value, t.decisionRef, t.derived.value)
  {
    ReconfirmationProven(v, req, i, j);
    CitedIsStored(v, req, red, r, b, req.actions[i].plan.value.treatments[j].decisionRef);
    ReducedUsed(v, req, red);
  }

  lemma NewApprovalBacked(v: View, req: Request, red: Reduction, r: Repo, b: Bundle, o: Object, log: seq<Pending>)
    requires HumanDecisionCodes(v, req) == {} && LineageCodes(v, req) == {} && Reduce(v, req) == Some(red)
    requires b.reduction == red && Staged(r, b).Some? && Extends(v.decisions, r.decisions) && r.project == req.project
    requires o in red.revisions && Protected(o.kind) && Approved(o)
    requires TextOf(v.Latest(o.kind, o.id), "adoption_state") != Some("approved")
    requires log != [] && log[|log| - 1].req == req
    ensures Backed(Staged(r, b).value, log, o)
  {
    RevisionOrigin(v, req, red, o);
    StagedKeepsSetup(r, b);
    var next := Staged(r, b).value;
    if Carried(v, req, o) {
      var i :| 0 <= i < |req.actions| && req.actions[i].payload == Some(o);
      AdoptionRequired(v, req.actions[i], o);
      var d := AnswerConsumed(v, req, red, r, b, i, Requirement("research_adoption", "approve", o.Identity()));
      assert Approves(next, log, d, o) && ListsHuman(next, d, o);
    } else {
      var i, j :| 0 <= i < |req.actions| && req.actions[i].kind.ApplyLineagePlan? && req.actions[i].plan.Some?
                  && 0 <= j < |req.actions[i].plan.value.treatments|
                  && Reconfirms(req.actions[i].plan.value.treatments[j])
                  && req.actions[i].plan.value.treatments[j].derived == Some(o);
      ReconfirmationRequired(v, req.actions[i], req.actions[i].plan.value.treatments[j]);
      var d := AnswerConsumed(v, req, red, r, b, i, Requirement("lineage_reconfirmation", "reconfirm", o.Identity()));
      ReconfirmedLists(v, req, red, r, b, i, j);
      assert DerivedByPlan(log[|log| - 1].req, o);
      assert Approves(next, log, d, o);
    }
  }

  lemma BackedKept(a: Repo, b: Repo, log: seq<Pending>, one: Pending, o: Object)
    requires Grows(a, b) && Backed(a, log, o)
    ensures Backed(b, log + [one], o)
  {
    var d :| Approves(a, log, d, o);
    if PlanDerived(log, o) {
      var n :| 0 <= n < |log| && DerivedByPlan(log[n].req, o);
      assert (log + [one])[n] == log[n];
    }
    assert Approves(b, log + [one], d, o);
    var c :| ListsHuman(a, c, o);
    assert ListsHuman(b, c, o);
  }

  lemma NewEntryIsRevision(r: Repo, b: Bundle, k: Key)
    requires Staged(r, b).Some? && Tidy(b.reduction)
    requires var next := Staged(r, b).value; k in next.objects && k !in r.objects && Unreserved(k.kind)
    ensures var o := Staged(r, b).value.objects[k]; o in b.reduction.revisions && o.Slot() == k
  {
    StagedObjects(r.objects, b.reduction.revisions);
  }

  lemma FollowsBefore(v: View, objects: map<Key, Object>, next: map<Key, Object>, o: Object)
    requires forall k :: k in v.objects ==> v.objects[k].Slot() == k
    requires Extends(v.objects, objects) && GapFree(next) && Follows(v, o)
    ensures v.Latest(o.kind, o.id).None? ==> Before(o.Slot()) !in next
    ensures v.Latest(o.kind, o.id).Some? ==>
              Before(o.Slot()) in objects && objects[Before(o.Slot())] == v.Latest(o.kind, o.id).value
  {
    if v.Latest(o.kind, o.id).Some? { LatestStored(v, o.kind, o.id); }
    if Before(o.Slot()) in next { assert FollowedIn(next, Before(o.Slot())); }
  }

  /** A new entry of a stored bundle is one of its revisions or a reserved entry, and the
      latest revision in view is the one before it. */
  lemma NewEntry(v: View, req: Request, red: Reduction, base: Repo, r: Repo, b: Bundle, k: Key)
    requires WellFormed(base) && WellFormed(r) && Grows(base, r) && Clean(req)
    requires LoadView(base, req.project, req.lineage) == Some(v) && Reduce(v, req) == Some(red)
    requires b.reduction == red && b.key !in r.commits && Staged(r, b).Some?
    requires var next := Staged(r, b).value; k in next.objects && k !in r.objects && Unreserved(k.kind)
    ensures var o := Staged(r, b).value.objects[k];
            o in red.revisions && o.Slot() == k
            && (v.Latest(k.kind, k.id).None? ==> Before(k) !in Staged(r, b).value.objects)
            && (v.Latest(k.kind, k.id).Some? ==>
                  Before(k) in r.objects && r.objects[Before(k)] == v.Latest(k.kind, k.id).value)
  {
    var next := Staged(r, b).value;
    ReducedTidy(v, req, red);
    NewEntryIsRevision(r, b, k);
    StoredIsWellFormed(base, r, req, v, red, b);
    RevisionOrigin(v, req, red, next.objects[k]);
    FollowsBefore(v, r.objects, next.objects, next.objects[k]);
  }

  lemma ApprovalKept(seed: Repo, a: Repo, b: Repo, log: seq<Pending>, one: Pending, k: Key)
    requires Grows(a, b) && GapFree(a.objects) && GapFree(b.objects) && ApprovalsBacked(seed, a, log)
    requires k in a.objects && k !in seed.objects && NewlyApproved(b.objects, k)
    ensures Backed(b, log + [one], b.objects[k])
  {
    if Before(k) in b.objects { BeforeStored(a.objects, b.objects, k); }
    assert NewlyApproved(a.objects, k);
    BackedKept(a, b, log, one, a.objects[k]);
  }

  /** A new approval follows a revision that was not approved, in view of its request. */
  lemma ApprovalIsNew(v: View, objects: map<Key, Object>, before: map<Key, Object>, k: Key)
    requires NewlyApproved(objects, k) && Extends(before, objects)
    requires v.Latest(k.kind, k.id).Some? ==> Before(k) in before && before[Before(k)] == v.Latest(k.kind, k.id).value
    ensures Unreserved(k.kind) && TextOf(v.Latest(k.kind, k.id), "adoption_state") != Some("approved")
  {
  }

  lemma ApprovalNew(base: Repo, r: Repo, req: Request, v: View, red: Reduction, b: Bundle, k: Key, log: seq<Pending>)
    requires WellFormed(base) && WellFormed(r) && Grows(base, r) && Clean(req)
    requires LoadView(base, req.project, req.lineage) == Some(v) && Reduce(v, req) == Some(red)
    requires HumanDecisionCodes(v, req) == {} && LineageCodes(v, req) == {}
    requires b.reduction == red && b.key !in r.commits && Staged(r, b).Some? && Grows(r, Staged(r, b).value)
    requires k !in r.objects && NewlyApproved(Staged(r, b).value.objects, k)
    requires log != [] && log[|log| - 1].req == req
    ensures Backed(Staged(r, b).value, log, Staged(r, b).value.objects[k])
  {
    ViewOfBase(base, req.project, req.lineage);
    NewEntry(v, req, red, base, r, b, k);
    ApprovalIsNew(v, Staged(r, b).value.objects, r.objects, k);
    NewApprovalBacked(v, req, red, r, b, Staged(r, b).value.objects[k], log);
  }

  lemma StoreApprovals(seed: Repo, base: Repo, r: Repo, one: Pending, v: View, red: Reduction, b: Bundle,
                       log: seq<Pending>)
    requires WellFormed(base) && WellFormed(r) && Grows(base, r) && Clean(one.req)
    requires LoadView(base, one.req.project, one.req.lineage) == Some(v) && Reduce(v, one.req) == Some(red)
    requires HumanDecisionCodes(v, one.req) == {} && LineageCodes(v, one.req) == {}
    requires b.reduction == red && b.key !in r.commits && Staged(r, b).Some? && Grows(r, Staged(r, b).value)
    requires GapFree(Staged(r, b).value.objects) && ApprovalsBacked(seed, r, log)
    ensures ApprovalsBacked(seed, Staged(r, b).value, log + [one])
  {
    var next := Staged(r, b).value;
    forall k | NewlyApproved(next.objects, k) && k !in seed.objects ensures Backed(next, log + [one], next.objects[k]) {
      if k in r.objects {
        ApprovalKept(seed, r, next, log, one, k);
      } else {
        ApprovalNew(base, r, one.req, v, red, b, k, log + [one]);
      }
    }
  }

  // ---------------------------------------------------------------- evidence

  /** Each evidence revision that follows a synthetic one is synthetic. */
  ghost predicate SyntheticKept(objects: map<Key, Object>) {
    forall k :: k in objects && k.kind == "evidence" && Before(k) in objects
                && objects[Before(k)].Says("evidence_mode", "synthetic")
      ==> objects[k].Says("evidence_mode", "synthetic")
  }

  /** Request `req` writes object `o`. */
  ghost predicate Writes(req: Request, o: Object) {
    (exists i :: 0 <= i < |req.actions| && req.actions[i].payload == Some(o))
    || (exists i, j :: 0 <= i < |req.actions| && req.actions[i].plan.Some?
                       && 0 <= j < |req.actions[i].plan.value.treatments|
                       && req.actions[i].plan.value.treatments[j].derived == Some(o))
  }

  /** Some stored request wrote `o` and cites a stored human decision to revise it. */
  ghost predicate RevisionJustified(r: Repo, log: seq<Pending>, o: Object) {
    exists n :: 0 <= n < |log| && Writes(log[n].req, o) && RevisionCited(r.decisions, log[n].req.actions, o.id)
  }

  ghost predicate LimitationsKept(seed: Repo, r: Repo, log: seq<Pending>) {
    forall k :: k in r.objects && k !in seed.objects && k.kind == "evidence" && Before(k) in r.objects
                && LosesLimitation(r.objects[Before(k)], r.objects[k])
      ==> RevisionJustified(r, log, r.objects[k])
  }

  lemma OriginWrites(v: View, req: Request, red: Reduction, o: Object)
    requires Reduce(v, req) == Some(red) && o in red.revisions
    ensures Writes(req, o)
  {
    RevisionOrigin(v, req, red, o);
  }

  lemma CitedKept(pool: map<string, Object>, decisions: map<string, Object>, actions: seq<Action>, id: string)
    requires RevisionCited(pool, actions, id)
    requires forall ref :: ref in pool ==> ref in decisions && decisions[ref] == pool[ref]
    ensures RevisionCited(decisions, actions, id)
  {
    var i, j :| 0 <= i < |actions| && actions[i].TargetRef() == Some(Ref("evidence", id))
                && 0 <= j < |actions[i].decisionRefs| && RevisionDecision(pool, actions[i].decisionRefs[j], id);
    assert RevisionDecision(decisions, actions[i].decisionRefs[j], id);
  }

  lemma JustifiedKept(a: Repo, b: Repo, log: seq<Pending>, one: Pending, o: Object)
    requires Extends(a.decisions, b.decisions) && RevisionJustified(a, log, o)
    ensures RevisionJustified(b, log + [one], o)
  {
    var n :| 0 <= n < |log| && Writes(log[n].req, o) && RevisionCited(a.decisions, log[n].req.actions, o.id);
    CitedKept(a.decisions, b.decisions, log[n].req.actions, o.id);
    assert (log + [one])[n] == log[n];
  }

  lemma BeforeStored(a: map<Key, Object>, b: map<Key, Object>, k: Key)
    requires GapFree(a) && GapFree(b) && k in a && Before(k) in b
    ensures Before(k) in a
  {
    assert FollowedIn(a, k) && FollowedIn(b, Before(k));
  }

  lemma StoreEvidence(seed: Repo, base: Repo, r: Repo, log: seq<Pending>, one: Pending, v: View, red: Reduction,
                      b: Bundle)
    requires WellFormed(base) && WellFormed(r) && Grows(base, r) && Clean(one.req)
    requires LoadView(base, one.req.project, one.req.lineage) == Some(v) && Reduce(v, one.req) == Some(red)
    requires forall o :: o in red.revisions ==> EvidenceCodes(v, one.req, o) == {}
    requires b.reduction == red && b.key !in r.commits && Staged(r, b).Some?
    requires SyntheticKept(r.objects) && LimitationsKept(seed, r, log)
    ensures SyntheticKept(Staged(r, b).value.objects)
    ensures LimitationsKept(seed, Staged(r, b).value, log + [one])
  {
    var next := Staged(r, b).value;
    StoredIsWellFormed(base, r, one.req, v, red, b);
    forall k | k in next.objects && k.kind == "evidence" && Before(k) in next.objects
      ensures next.objects[Before(k)].Says("evidence_mode", "synthetic") ==>
                next.objects[k].Says("evidence_mode", "synthetic")
      ensures k !in seed.objects && LosesLimitation(next.objects[Before(k)], next.objects[k]) ==>
                RevisionJustified(next, log + [one], next.objects[k])
    {
      if k in r.objects {
        BeforeStored(r.objects, next.objects, k);
        if k !in seed.objects && LosesLimitation(r.objects[Before(k)], r.objects[k]) {
          JustifiedKept(r, next, log, one, r.objects[k]);
        }
      } else {
        NewEntry(v, one.req, red, base, r, b, k);
        NewEvidence(v, one.req, red, base, r, b, k, log, one);
      }
    }
  }

  lemma NewEvidence(v: View, req: Request, red: Reduction, base: Repo, r: Repo, b: Bundle, k: Key,
                    log: seq<Pending>, one: Pending)
    requires LoadView(base, req.project, req.lineage) == Some(v) && Reduce(v, req) == Some(red)
    requires Grows(base, r) && b.reduction == red && Staged(r, b).Some? && one.req == req
    requires var next := Staged(r, b).value;
             k in next.objects && k.kind == "evidence" && next.objects[k] in red.revisions
                 && next.objects[k].Slot() == k
             && v.Latest(k.kind, k.id).Some? && Before(k) in next.objects
             && next.objects[Before(k)] == v.Latest(k.kind, k.id).value
    requires EvidenceCodes(v, req, Staged(r, b).value.objects[k]) == {}
    ensures var next := Staged(r, b).value;
            (next.objects[Before(k)].Says("evidence_mode", "synthetic") ==>
                next.objects[k].Says("evidence_mode", "synthetic"))
            && (LosesLimitation(next.objects[Before(k)], next.objects[k]) ==>
                RevisionJustified(next, log + [one], next.objects[k]))
  {
    var next := Staged(r, b).value;
    var o, prior := next.objects[k], v.Latest(k.kind, k.id).value;
    assert "RT-EPI-005" !in EvidenceCodes(v, req, o) && "RT-EPI-006" !in EvidenceCodes(v, req, o);
    if LosesLimitation(prior, o) {
      var pool := Pool(v.decisions, req.actions);
      ViewOfBase(base, req.project, req.lineage);
      forall ref | ref in pool ensures ref in next.decisions && next.decisions[ref] == pool[ref] {
        CitedIsStored(v, req, red, r, b, ref);
      }
      CitedKept(pool, next.decisions, req.actions, o.id);
      OriginWrites(v, req, red, o);
      assert (log + [one])[|log|] == one;
    }
  }

  // ---------------------------------------------------------------- every run

  ghost predicate Accountable(seed: Repo, s: System) {
    ApprovalsBacked(seed, s.repo, s.log) && SyntheticKept(s.repo.objects) && LimitationsKept(seed, s.repo, s.log)
  }

  lemma StoreAccountable(seed: Repo, s: System, p: Policy, one: Pending)
    requires Safe(s) && SafePending(s.repo, one) && Accountable(seed, s) && Persists(s, p, one)
    ensures Accountable(seed, System(Next(s, p, one), map[], s.log + [one]))
  {
    var v, red, b := StoredBundle(s, p, one);
    PreClean(v, one.req);
    CleanPost(v, one.req, red);
    StoredIsWellFormed(one.base, s.repo, one.req, v, red, b);
    StoreApprovals(seed, one.base, s.repo, one, v, red, b, s.log);
    StoreEvidence(seed, one.base, s.repo, s.log, one, v, red, b);
  }

  lemma StepAccountable(seed: Repo, s: System, p: Policy, e: Event)
    requires Safe(s) && Accountable(seed, s)
    ensures Accountable(seed, Step(s, p, e))
  {
    if e.Finish? && e.slot in s.pending && !e.fails {
      var one := s.pending[e.slot];
      assert SafePending(s.repo, one);
      if Persists(s, p, one) { StoreAccountable(seed, s, p, one); } else { NotStored(s, p, one); }
    }
  }

  /** Authority and evidence rules over every run, however loads and commits interleave. */
  lemma {:induction false} RunAccountable(seed: Repo, p: Policy, events: seq<Event>)
    requires WellFormed(seed) && SyntheticKept(seed.objects) && CleanEvents(events)
    ensures Accountable(seed, Run(seed, p, events))
  {
    if events != [] {
      var front := events[..|events| - 1];
      RunSafe(seed, p, front);
      RunAccountable(seed, p, front);
      StepAccountable(seed, Run(seed, p, front), p, events[|events| - 1]);
    }
  }

  lemma {:induction false} SyntheticUpward(objects: map<Key, Object>, id: string, n: int, m: int)
    requires SyntheticKept(objects) && GapFree(objects) && n <= m
    requires Key("evidence", id, m) in objects && Key("evidence", id, n) in objects
    requires objects[Key("evidence", id, n)].Says("evidence_mode", "synthetic")
    ensures objects[Key("evidence", id, m)].Says("evidence_mode", "synthetic")
    decreases m - n
  {
    if n < m {
      assert FollowedIn(objects, Key("evidence", id, n));
      RevisionsBelow(objects, "evidence", id, m, m - 1);
      SyntheticUpward(objects, id, n, m - 1);
    }
  }

  /** Once an evidence identity has a synthetic revision, every later revision is synthetic. */
  lemma SyntheticForever(seed: Repo, p: Policy, events: seq<Event>, id: string, n: int, m: int)
    requires WellFormed(seed) && SyntheticKept(seed.objects) && CleanEvents(events)
    requires n <= m
    requires var objects := Run(seed, p, events).repo.objects;
             Key("evidence", id, m) in objects && Key("evidence", id, n) in objects
             && objects[Key("evidence", id, n)].Says("evidence_mode", "synthetic")
    ensures Run(seed, p, events).repo.objects[Key("evidence", id, m)].Says("evidence_mode", "synthetic")
  {
    RunSafe(seed, p, events);
    RunAccountable(seed, p, events);
    SyntheticUpward(Run(seed, p, events).repo.objects, id, n, m);
  }
}
