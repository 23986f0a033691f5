/** The ways one `apply` call can go, told apart by what they leave in the repository. */
module ApplyOutcomes {
  import opened Common
  import opened Records
  import opened Reducer
  import opened StateValidation
  import opened Repository
  import opened Service
  import opened CommitFacts

  // ---------------------------------------------------------------- accepted transitions

  /** Everything that held when a bundle became ready. */
  ghost predicate Accepted(r: Repo, v: View, req: Request, red: Reduction) {
    && LoadView(r, req.project, req.lineage) == Some(v)
    && PreCodes(v, req) == {}
    && Reduce(v, req) == Some(red)
    && PostCodes(v, req, red) == {}
  }

  lemma ReadyMeansAccepted(r: Repo, p: Policy, req: Request) returns (v: View, red: Reduction)
    requires Prepare(r, p, req).Ready?
    ensures Accepted(r, v, req, red)
    ensures Prepare(r, p, req).bundle == BundleOf(v, req, red)
    ensures req.digest == req.CalculatedDigest() && p.schema(req) == {} && req.key !in r.commits
  {
    v := LoadView(r, req.project, req.lineage).value;
    red := Reduce(v, req).value;
  }

  // ---------------------------------------------------------------- the three ways

  /** An earlier receipt again, a refusal, or a new commit. */
  datatype Way = Replay | Refusal | Anew(view: View, reduction: Reduction)

  ghost predicate Went(way: Way, r: Repo, p: Policy, t: Request, next: Repo, outcome: Outcome) {
    match way
    case Replay =>
      && t.digest == t.CalculatedDigest() && p.schema(t) == {}
      && next == r && outcome.Committed?
          && CommitUnder(r.commits, t.key) == Some(CommitRecord(t.digest, outcome.receipt))
    case Refusal =>
      && next == r && !outcome.Committed?
      && (t.key in r.commits ==>
           t.digest != t.CalculatedDigest() || p.schema(t) != {} || r.commits[t.key].digest != t.digest)
    case Anew(v, red) =>
      && t.digest == t.CalculatedDigest() && p.schema(t) == {} && t.key !in r.commits
      && Accepted(r, v, t, red)
      && Staged(r, BundleOf(v, t, red)) == Some(next) && outcome == Committed(ReceiptOf(v, t, red))
  }

  lemma JudgeNeverCommits(p: Policy, v: View, t: Request)
    ensures Judge(p, v, t).Answered? ==> !Judge(p, v, t).outcome.Committed?
  {
  }

  lemma AnsweredGoes(r: Repo, p: Policy, t: Request) returns (way: Way)
    requires Prepare(r, p, t).Answered?
    ensures !way.Anew? && Went(way, r, p, t, r, Prepare(r, p, t).outcome)
  {
    if LoadView(r, t.project, t.lineage).Some? { JudgeNeverCommits(p, LoadView(r, t.project, t.lineage).value, t); }
    way := if Prepare(r, p, t).outcome.Committed? then Replay else Refusal;
  }

  lemma ReadyGoes(r: Repo, t: Request, v: View, red: Reduction, b: Bundle) returns (stored: bool)
    requires b == BundleOf(v, t, red) && t.key !in r.commits
    ensures var (next, outcome) := Finish(r, t, Ready(b));
            if stored then Staged(r, b) == Some(next) && outcome == Committed(ReceiptOf(v, t, red))
            else next == r && !outcome.Committed?
  {
    stored := Stores(r, b, t.head.digest);
    StoresIsPersist(r, b, t.head.digest);
  }

  /** `apply` returns a recorded receipt, refuses, or stores one accepted bundle, and only the
      last changes the repository. */
  lemma ApplyGoes(r: Repo, p: Policy, t: Request) returns (way: Way)
    ensures Went(way, r, p, t, Apply(r, p, t).0, Apply(r, p, t).1)
  {
    if Prepare(r, p, t).Ready? {
      var v, red := ReadyMeansAccepted(r, p, t);
      var stored := ReadyGoes(r, t, v, red, Prepare(r, p, t).bundle);
      way := if stored then Anew(v, red) else Refusal;
    } else {
      way := AnsweredGoes(r, p, t);
    }
  }
}
