/** What every stored plan and switch of a run is, whatever its view was
    (core/runtime/authority_validation.py:205-362). */
module LawfulPlans {
  import opened Records
  import opened Repository
  import opened Service
  import opened History
  import opened SingleUse
  import opened ReductionRules

  ghost predicate LogLawful(log: seq<Pending>) {
    forall n :: 0 <= n < |log| ==> RequestLawful(log[n].req)
  }

  ghost predicate RequestLawful(req: Request) { forall i :: 0 <= i < |req.actions| ==> Lawful(req.actions[i]) }

  lemma StoreLawful(s: System, p: Policy, one: Pending)
    requires Persists(s, p, one)
    ensures RequestLawful(one.req)
  {
    var v, red, b := StoredBundle(s, p, one);
    PreClean(v, one.req);
    forall i | 0 <= i < |one.req.actions| ensures Lawful(one.req.actions[i]) { AcceptedLawful(v, one.req, i); }
  }

  /** Over every run each stored plan is of a known kind, treats its members in known ways and proves each
      reconfirmation, and each stored switch names its target. */
  lemma {:induction false} RunLawful(seed: Repo, p: Policy, events: seq<Event>)
    ensures LogLawful(Run(seed, p, events).log)
  {
    if events != [] {
      var front, e := events[..|events| - 1], events[|events| - 1];
      var s := Run(seed, p, front);
      RunLawful(seed, p, front);
      StepRepo(s, p, e);
      if StoresAt(s, p, e) { StoreLawful(s, p, s.pending[e.slot]); }
    }
  }
}
