/** The records of a stored request, as every later repository of the run holds them: its revisions and
    Decisions, the snapshot it made, its audit event and its receipt. */
module StoredRecords {
  import opened Common
  import opened Records
  import opened Reducer
  import opened ReducerFacts
  import opened Repository
  import opened Service
  import opened CommitFacts
  import opened History
  import opened SingleUse
  import opened Integrity
  import opened DecisionRules
  import opened CommitContents

  // ---------------------------------------------------------------- the audit event

  /** What the action is about: its object, else its target, else the lineage or the transition. */
  function AuditSubject(req: Request, a: Action): Ref {
    if a.payload.Some? then Ref(a.payload.value.kind, a.payload.value.id)
    else if a.target.Some? then a.target.value
    else if a.kind == ApplyLineagePlan then
      Ref("research_lineage", if a.plan.Some? then a.plan.value.targetLineage else req.lineage)
    else if a.kind == SwitchActiveLineage then Ref("research_lineage", a.switchTarget)
    else Ref("research_transition", req.transitionId)
  }

  /** The audit event says who did it, when, and each thing it was about, once. */
  ghost predicate AuditTells(o: Object, req: Request) {
    && o.Slot() == Key("audit_event", req.auditId, 0)
    && o.Says("project_id", req.project) && o.Says("occurred_at", req.submittedAt)
    && o.Says("actor_type", if req.actor.actorType == "human" then "human" else "system")
    && o.Says("actor_id", req.actor.id) && o.Says("schema_version", "0.1.0") && o.seal == req.digest
    && (forall r: Ref :: o.Names(r.kind, r.id) <==>
          exists i :: 0 <= i < |req.actions| && AuditSubject(req, req.actions[i]) == r)
    && (forall i, j :: 0 <= i < j < |o.Refs("subjects")| ==> o.Refs("subjects")[i] != o.Refs("subjects")[j])
  }

  lemma SubjectIsAudited(req: Request, a: Action)
    ensures SubjectOf(req, a) == AuditSubject(req, a)
  {
  }

  lemma AuditEventTells(req: Request)
    ensures AuditTells(AuditEvent(req), req)
  {
    var subjects := seq(|req.actions|, i requires 0 <= i < |req.actions| => SubjectOf(req, req.actions[i]));
    var o := AuditEvent(req);
    assert o.Refs("subjects") == Distinct(subjects);
    forall r: Ref ensures o.Names(r.kind, r.id) <==>
                       exists i :: 0 <= i < |req.actions| && AuditSubject(req, req.actions[i]) == r
    {
      assert Ref(r.kind, r.id) == r;
      if i :| 0 <= i < |req.actions| && AuditSubject(req, req.actions[i]) == r {
        SubjectIsAudited(req, req.actions[i]);
        assert subjects[i] == r;
      }
      if r in subjects {
        var i :| 0 <= i < |subjects| && subjects[i] == r;
        SubjectIsAudited(req, req.actions[i]);
      }
    }
  }

  // ---------------------------------------------------------------- the snapshot

  /** The snapshot follows the head the request named, and is sealed over its own content. */
  predicate SnapshotTells(o: Object, req: Request, mode: string) {
    && o.Slot() == Key("snapshot", req.snapshotId, 0)
    && o.Says("project_id", req.project) && o.Says("created_at", req.submittedAt)
    && o.Says("snapshot_type", "research") && o.Says("schema_version", "0.1.0")
    && o.Says("prior_snapshot_id", req.head.ref) && o.Says("mode", mode)
    && o.seal == OfObject(o.(seal := Unsealed))
  }

  /** The mode of the plan if it names one, else that of the snapshot it starts from, else "real". */
  function ModeAfter(v: View, req: Request): string {
    var inherited := if "mode" in v.snapshot.text then v.snapshot.text["mode"] else "real";
    match PlanOf(req.actions)
    case None => inherited
    case Some(p) => p.executionMode.GetOr(inherited)
  }

  lemma BuiltTells(v: View, req: Request, members: map<Ref, Object>, mode: string)
    requires req.head == v.Head()
    ensures SnapshotTells(BuildSnapshot(v, req, members, mode), req, mode)
  {
    var s := BuildSnapshot(v, req, members, mode);
    assert s.text.Keys == {"schema_version", "project_id", "snapshot_type", "created_at", "mode", "prior_snapshot_id"};
  }

  lemma ReducedSnapshotTells(v: View, req: Request, red: Reduction)
    requires Reduce(v, req) == Some(red) && req.head == v.Head() && red.snapshot.Some?
    ensures SnapshotTells(red.snapshot.value, req, ModeAfter(v, req))
  {
    ReducedAs(v, req, red);
    if PlanOf(req.actions).Some? {
      var p := PlanOf(req.actions).value;
      BuiltTells(v, req, ChildMembers(v, p, Baseline(v)), p.executionMode.GetOr(Mode(v)));
    } else {
      BuiltTells(v, req, Fold(v.Effective(), ObjectsOf(req.actions)), Mode(v));
    }
  }

  /** The member after an ordinary request: a written object at its new revision, anything else as the
      view has it. */
  ghost predicate MemberAfter(v: View, req: Request, members: map<Ref, Row>, m: Ref) {
    if Writes(req, m) then m in members && RowOfWritten(req, m, members[m])
    else (m in members <==> m in v.Effective()) && (m in members ==> members[m] == RowOf(v.Effective()[m]))
  }

  function RowOf(o: Object): Row { Row(o.revision, OfObject(o)) }

  ghost predicate Writes(req: Request, m: Ref) { exists o :: RevisesTo(req, o) && o.Identity() == m }

  ghost predicate RowOfWritten(req: Request, m: Ref, row: Row) {
    exists o :: RevisesTo(req, o) && o.Identity() == m && row == RowOf(o)
  }

  ghost predicate MembersAfter(v: View, req: Request, members: map<Ref, Row>) {
    forall m :: MemberAfter(v, req, members, m)
  }

  lemma {:induction false} OfIdentityHas(s: seq<Object>, r: Ref, o: Object)
    ensures o in OfIdentity(s, r) <==> o in s && o.Identity() == r
  {
    if s != [] { OfIdentityHas(s[1..], r, o); }
  }

  ghost predicate Lists(revisions: seq<Object>, req: Request) {
    forall o :: o in revisions <==> RevisesTo(req, o)
  }

  lemma ListsRevisions(v: View, req: Request, red: Reduction)
    requires Reduce(v, req) == Some(red)
    ensures Lists(red.revisions, req)
  {
    forall o ensures o in red.revisions <==> RevisesTo(req, o) { ReducedRevises(v, req, red, o); }
  }

  lemma WritesRevision(revisions: seq<Object>, req: Request, m: Ref)
    requires Lists(revisions, req)
    ensures Writes(req, m) <==> OfIdentity(revisions, m) != []
    ensures var own := OfIdentity(revisions, m);
            own != [] ==> RevisesTo(req, own[|own| - 1]) && own[|own| - 1].Identity() == m
  {
    var own := OfIdentity(revisions, m);
    if o :| RevisesTo(req, o) && o.Identity() == m { OfIdentityHas(revisions, m, o); }
    if own != [] { OfIdentityHas(revisions, m, own[|own| - 1]); }
  }

  lemma FoldedMember(v: View, req: Request, revisions: seq<Object>, m: Ref)
    requires Writes(req, m) <==> OfIdentity(revisions, m) != []
    requires var own := OfIdentity(revisions, m);
             own != [] ==> RevisesTo(req, own[|own| - 1]) && own[|own| - 1].Identity() == m
    ensures MemberAfter(v, req, Rows(Fold(v.Effective(), revisions)), m)
  {
    FoldAt(v.Effective(), revisions, m);
  }

  lemma OrdinaryMembers(v: View, req: Request, red: Reduction)
    requires Ordinary(req) && Reduce(v, req) == Some(red)
    ensures red.snapshot.Some? && MembersAfter(v, req, red.snapshot.value.members)
  {
    ReducerValidatorAgree(v, req, red);
    ListsRevisions(v, req, red);
    forall m ensures MemberAfter(v, req, red.snapshot.value.members, m) {
      WritesRevision(red.revisions, req, m);
      FoldedMember(v, req, red.revisions, m);
    }
  }

  // ---------------------------------------------------------------- the records in the repository

  /** The repository holds every record of the request, judged on this view. */
  ghost predicate RecordsKept(r: Repo, v: View, req: Request) {
    && (forall o :: RevisesTo(req, o) ==> o.Slot() in r.objects && r.objects[o.Slot()] == o)
    && (forall i :: 0 <= i < |req.actions| && req.actions[i].kind == RecordDecision && req.actions[i].payload.Some? ==>
          RecordUnder(r.decisions, req.actions[i].payload.value.id) == req.actions[i].payload)
    && req.auditId in r.audits && AuditTells(r.audits[req.auditId], req)
    && Lookup(r.objects, Key("audit_event", req.auditId, 0)) == Some(r.audits[req.auditId])
    && (SwitchOf(req.actions).None? ==>
          && req.snapshotId in r.snapshots && SnapshotTells(r.snapshots[req.snapshotId], req, ModeAfter(v, req))
          && Lookup(r.objects, Key("snapshot", req.snapshotId, 0)) == Some(r.snapshots[req.snapshotId])
          && (PlanOf(req.actions).None? ==> MembersAfter(v, req, r.snapshots[req.snapshotId].members)))
    && req.key in r.commits && r.commits[req.key].digest == req.digest
    && ReceiptTells(r, r, v, req, r.commits[req.key].receipt)
  }

  function RecordUnder(decisions: map<string, Object>, id: string): Option<Object> {
    if id in decisions then Some(decisions[id]) else None
  }

  lemma RevisionsKept(v: View, req: Request, red: Reduction, r: Repo, next: Repo)
    requires Clean(req) && Reduce(v, req) == Some(red) && Staged(r, BundleOf(v, req, red)) == Some(next)
    ensures forall o :: RevisesTo(req, o) ==> o.Slot() in next.objects && next.objects[o.Slot()] == o
    ensures forall i :: 0 <= i < |req.actions| && req.actions[i].kind == RecordDecision
                        && req.actions[i].payload.Some? ==>
              RecordUnder(next.decisions, req.actions[i].payload.value.id) == req.actions[i].payload
  {
    ReducedTidy(v, req, red);
    forall o | RevisesTo(req, o) ensures o.Slot() in next.objects && next.objects[o.Slot()] == o {
      ReducedRevises(v, req, red, o);
      RevisionsUnreserved(v, req, red, o);
      RevisionFiled(r, BundleOf(v, req, red), o);
    }
    StagedDecisions(r.decisions, red.decisions);
    forall i | 0 <= i < |req.actions| && req.actions[i].kind == RecordDecision && req.actions[i].payload.Some?
      ensures RecordUnder(next.decisions, req.actions[i].payload.value.id) == req.actions[i].payload
    {
      ReducedRecords(v, req, red, req.actions[i].payload.value);
    }
  }

  lemma ReducedAudit(v: View, req: Request, red: Reduction)
    requires Reduce(v, req) == Some(red)
    ensures red.audit == AuditEvent(req)
  {
    ReducedAs(v, req, red);
  }

  lemma ReservedKept(v: View, req: Request, red: Reduction, r: Repo, next: Repo)
    requires Reduce(v, req) == Some(red) && Staged(r, BundleOf(v, req, red)) == Some(next)
    ensures req.auditId in next.audits && next.audits[req.auditId] == AuditEvent(req)
    ensures Lookup(next.objects, Key("audit_event", req.auditId, 0)) == Some(AuditEvent(req))
    ensures red.snapshot.Some? ==>
              && req.snapshotId in next.snapshots && next.snapshots[req.snapshotId] == red.snapshot.value
              && Lookup(next.objects, Key("snapshot", req.snapshotId, 0)) == red.snapshot
  {
    ReducedAudit(v, req, red);
    ReducedTidy(v, req, red);
  }

  lemma ReceiptStays(a: Repo, b: Repo, c: Repo, v: View, req: Request, receipt: Receipt)
    requires ReceiptTells(a, b, v, req, receipt) && Extends(b.snapshots, c.snapshots)
    requires SwitchOf(req.actions).None? ==> req.snapshotId in b.snapshots
    ensures ReceiptTells(c, c, v, req, receipt)
  {
  }

  lemma StoredKept(base: Repo, r: Repo, v: View, req: Request, red: Reduction, next: Repo)
    requires LoadView(base, req.project, req.lineage) == Some(v) && Grows(base, r) && Keyed(base) && Clean(req)
    requires Reduce(v, req) == Some(red) && Staged(r, BundleOf(v, req, red)) == Some(next)
    requires req.head == v.Head() && req.key !in r.commits
    ensures RecordsKept(next, v, req)
  {
    StoredWrote(base, r, v, req, red, next);
    RevisionsKept(v, req, red, r, next);
    ReservedKept(v, req, red, r, next);
    AuditEventTells(req);
    ReducedSwitch(v, req, red);
    ReducedAs(v, req, red);
    if red.snapshot.Some? { ReducedSnapshotTells(v, req, red); }
    if SwitchOf(req.actions).None? && PlanOf(req.actions).None? { OrdinaryMembers(v, req, red); }
    ReceiptStays(r, next, next, v, req, next.commits[req.key].receipt);
  }

  lemma KeptLater(a: Repo, b: Repo, v: View, req: Request)
    requires Grows(a, b) && RecordsKept(a, v, req)
    ensures RecordsKept(b, v, req)
  {
    ReceiptStays(a, a, b, v, req, a.commits[req.key].receipt);
  }

  ghost predicate AllRecordsKept(r: Repo, log: seq<Pending>) {
    forall n :: 0 <= n < |log| ==> RecordedAt(r, log[n])
  }

  ghost predicate RecordedAt(r: Repo, one: Pending) {
    exists v :: LoadView(one.base, one.req.project, one.req.lineage) == Some(v) && RecordsKept(r, v, one.req)
  }

  lemma LogMoreKept(a: Repo, b: Repo, log: seq<Pending>, one: Pending)
    requires Grows(a, b) && AllRecordsKept(a, log) && RecordedAt(b, one)
    ensures AllRecordsKept(b, log + [one])
  {
    forall n | 0 <= n < |log + [one]| ensures RecordedAt(b, (log + [one])[n]) {
      if n < |log| {
        var v :| LoadView(log[n].base, log[n].req.project, log[n].req.lineage) == Some(v)
                 && RecordsKept(a, v, log[n].req);
        KeptLater(a, b, v, log[n].req);
      }
    }
  }

  lemma StoreKept(s: System, p: Policy, one: Pending)
    requires Safe(s) && SafePending(s.repo, one) && Persists(s, p, one) && AllRecordsKept(s.repo, s.log)
    ensures AllRecordsKept(Next(s, p, one), s.log + [one])
  {
    var v, red, b := StoredBundle(s, p, one);
    PreClean(v, one.req);
    StoredIsWellFormed(one.base, s.repo, one.req, v, red, b);
    StoredKept(one.base, s.repo, v, one.req, red, Next(s, p, one));
    LogMoreKept(s.repo, Next(s, p, one), s.log, one);
  }

  /** Over every run each stored request's records are in the repository as it asked for them. */
  lemma {:induction false} RunRecordsKept(seed: Repo, p: Policy, events: seq<Event>)
    requires WellFormed(seed) && CleanEvents(events)
    ensures AllRecordsKept(Run(seed, p, events).repo, Run(seed, p, events).log)
  {
    if events != [] {
      var front, e := events[..|events| - 1], events[|events| - 1];
      var s := Run(seed, p, front);
      RunSafe(seed, p, front);
      RunRecordsKept(seed, p, front);
      StepRepo(s, p, e);
      if StoresAt(s, p, e) {
        assert SafePending(s.repo, s.pending[e.slot]);
        StoreKept(s, p, s.pending[e.slot]);
      }
    }
  }
}
