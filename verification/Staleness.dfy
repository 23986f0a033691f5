/** When a request that was found stale is committed all the same: exactly when the call that
    found it stale stops before its finalize and the approval is accepted on a later retry. */
module Staleness {
  import opened Common
  import opened Records
  import opened Repository
  import opened Service
  import opened ApplyOutcomes
  import opened DecisionGate
  import opened DecisionResolution
  import opened Recovery

  // ---------------------------------------------------------------- runs from any sound world

  lemma {:induction false} SoundCourse(w: World, p: Policy, events: seq<Happening>)
    requires Sound(w, p) && ForeignEvents(w.desk, events)
    ensures Sound(Course(w, p, events), p) && Course(w, p, events).desk.Keys == w.desk.Keys
  {
    if events != [] {
      var front := events[..|events| - 1];
      SoundCourse(w, p, front);
      AfterSound(Course(w, p, front), p, events[|events| - 1]);
      DeskKeys(Course(w, p, front), p, events[|events| - 1]);
    }
  }

  lemma CourseMore(w: World, p: Policy, events: seq<Happening>, e: Happening)
    ensures Course(w, p, events + [e]) == After(Course(w, p, events), p, e)
  {
    assert (events + [e])[..|events|] == events;
  }

  lemma CourseThree(w: World, p: Policy, events: seq<Happening>, a: Happening, b: Happening, c: Happening)
    ensures Course(w, p, events + [a, b, c]) == After(After(After(Course(w, p, events), p, a), p, b), p, c)
  {
    CourseMore(w, p, events, a);
    CourseMore(w, p, events + [a], b);
    CourseMore(w, p, events + [a] + [b], c);
    assert events + [a] + [b] + [c] == events + [a, b, c];
  }

  lemma DeskAfter(w: World, p: Policy, e: Happening)
    ensures After(w, p, e).desk == w.desk
            || (w.phase.Claiming? && After(w, p, e).desk == Claim(w.desk, w.phase.response).0)
            || (w.phase.Closing? && After(w, p, e).desk
                  == Finalize(w.desk, w.phase.response, w.phase.status, w.phase.receipt).GetOr(w.desk))
  {
  }

  /** The claim of entry `id` stands, and so does the whole entry once it is final. */
  predicate Stays(a: Desk, b: Desk, id: string) {
    id in a && !a[id].status.Pending? ==>
      id in b && !b[id].status.Pending? && b[id].claimed == a[id].claimed && (IsFinal(a[id].status) ==> b[id] == a[id])
  }

  lemma ClaimKeeps(desk: Desk, response: Response, id: string)
    ensures Stays(desk, Claim(desk, response).0, id)
  {
  }

  lemma FinalizeKeeps(desk: Desk, response: Response, status: Status, receipt: Option<Receipt>, id: string)
    requires IsFinal(status)
    ensures Stays(desk, Finalize(desk, response, status, receipt).GetOr(desk), id)
  {
  }

  lemma ClosesFinally(w: World, p: Policy)
    requires Sound(w, p) && w.phase.Closing?
    ensures IsFinal(w.phase.status)
  {
  }

  /** A claim is never given to another response, and a final entry never changes. */
  lemma EntryStays(w: World, p: Policy, e: Happening, id: string)
    requires Sound(w, p)
    ensures Stays(w.desk, After(w, p, e).desk, id)
  {
    DeskAfter(w, p, e);
    if w.phase.Claiming? {
      ClaimKeeps(w.desk, w.phase.response, id);
    } else if w.phase.Closing? {
      ClosesFinally(w, p);
      FinalizeKeeps(w.desk, w.phase.response, w.phase.status, w.phase.receipt, id);
    }
  }

  lemma {:induction false} ClaimStays(w: World, p: Policy, events: seq<Happening>, id: string)
    requires Sound(w, p) && ForeignEvents(w.desk, events)
    ensures Stays(w.desk, Course(w, p, events).desk, id)
  {
    if events != [] {
      var front := events[..|events| - 1];
      SoundCourse(w, p, front);
      ClaimStays(w, p, front, id);
      EntryStays(Course(w, p, front), p, events[|events| - 1], id);
    }
  }

  // ---------------------------------------------------------------- whether a request is ever committed

  /** No run from here, whatever else commits, commits this request. */
  ghost predicate NeverCommits(w: World, p: Policy, id: string) {
    forall events :: ForeignEvents(w.desk, events) ==> KeyOf(id) !in Course(w, p, events).repo.commits
  }

  /** The response still owns its request, and its approval would be accepted now. */
  ghost predicate AcceptedAt(w: World, p: Policy, response: Response) {
    var t := Approval(response.request, response.actor, response.at);
    Owns(w.desk, response) && response.disposition.ApproveExact? && t.Some? && Apply(w.repo, p, t.value).1.Committed?
  }

  ghost predicate AcceptedLater(w: World, p: Policy, response: Response) {
    exists events :: ForeignEvents(w.desk, events) && AcceptedAt(Course(w, p, events), p, response)
  }

  /** A request closed in any way but RESOLVED is never committed. */
  lemma FinalNeverCommits(w: World, p: Policy, id: string)
    requires Sound(w, p) && id in w.desk && IsFinal(w.desk[id].status) && !w.desk[id].status.Resolved?
    ensures NeverCommits(w, p, id)
  {
    forall events | ForeignEvents(w.desk, events) ensures KeyOf(id) !in Course(w, p, events).repo.commits {
      SoundCourse(w, p, events);
      ClaimStays(w, p, events, id);
      var end := Course(w, p, events);
      assert EntrySound(id, end.desk[id], end.repo, p);
    }
  }

  lemma AcceptedMeansNew(r: Repo, p: Policy, t: Request, key: string)
    requires key !in r.commits && key in Apply(r, p, t).0.commits
    ensures t.key == key && Apply(r, p, t).1.Committed?
  {
    var way := ApplyGoes(r, p, t);
  }

  lemma AcceptedIsCommitted(r: Repo, p: Policy, t: Request)
    requires Apply(r, p, t).1.Committed?
    ensures t.key in Apply(r, p, t).0.commits
  {
    var way := ApplyGoes(r, p, t);
  }

  /** The step that commits a request is the accepted approval of the response that owns it. */
  lemma CommitIsAccepted(w: World, p: Policy, e: Happening, response: Response)
    requires Sound(w, p) && (e.Elsewhere? ==> Foreign(w.desk, e.req))
    requires response.request.id in w.desk && !w.desk[response.request.id].status.Pending?
    requires w.desk[response.request.id].claimed == Some(response)
    requires KeyOf(response.request.id) !in w.repo.commits && KeyOf(response.request.id) in After(w, p, e).repo.commits
    ensures AcceptedAt(w, p, response)
  {
    var id := response.request.id;
    RepoAfter(w, p, e);
    if e.Elsewhere? {
      AcceptedMeansNew(w.repo, p, e.req, KeyOf(id));
    } else {
      CallAccepted(w, p, e, id);
    }
  }

  lemma CallAccepted(w: World, p: Policy, e: Happening, id: string)
    requires Sound(w, p) && e.Call? && w.phase.Working? && id in w.desk
    requires var own := w.phase.response;
             var t := Approval(own.request, own.actor, own.at);
             t.Some? && After(w, p, e).repo == Apply(w.repo, p, t.value).0
    requires KeyOf(id) !in w.repo.commits && KeyOf(id) in After(w, p, e).repo.commits
    ensures w.phase.response.request.id == id && AcceptedAt(w, p, w.phase.response)
  {
    var own := w.phase.response;
    var t := Approval(own.request, own.actor, own.at).value;
    AcceptedMeansNew(w.repo, p, t, KeyOf(id));
    ApprovalKey(own.request, own.actor, own.at);
    KeysDiffer(id, own.request.id);
    WritesByApproval(w, p, e);
  }

  lemma WritesByApproval(w: World, p: Policy, e: Happening)
    requires e.Call? && w.phase.Working? && After(w, p, e).repo != w.repo
    ensures w.phase.response.disposition.ApproveExact?
  {
  }

  lemma {:induction false} CommitNeedsAcceptance(w: World, p: Policy, events: seq<Happening>, response: Response)
    requires Sound(w, p) && ForeignEvents(w.desk, events) && Owns(w.desk, response)
    requires KeyOf(response.request.id) !in w.repo.commits
    requires KeyOf(response.request.id) in Course(w, p, events).repo.commits
    ensures AcceptedLater(w, p, response)
  {
    var front, e := events[..|events| - 1], events[|events| - 1];
    if KeyOf(response.request.id) in Course(w, p, front).repo.commits {
      CommitNeedsAcceptance(w, p, front, response);
    } else {
      LaterAt(w, p, front, e, response);
    }
  }

  lemma LaterAt(w: World, p: Policy, front: seq<Happening>, e: Happening, response: Response)
    requires Sound(w, p) && ForeignEvents(w.desk, front) && (e.Elsewhere? ==> Foreign(w.desk, e.req))
    requires Owns(w.desk, response) && KeyOf(response.request.id) !in Course(w, p, front).repo.commits
    requires KeyOf(response.request.id) in After(Course(w, p, front), p, e).repo.commits
    ensures AcceptedLater(w, p, response)
  {
    SoundCourse(w, p, front);
    ClaimStays(w, p, front, response.request.id);
    CommitIsAccepted(Course(w, p, front), p, e, response);
  }

  /** Crash, retry, and let the retry commit. */
  lemma AcceptedCommits(w: World, p: Policy, response: Response)
    requires Sound(w, p) && AcceptedAt(w, p, response)
    ensures var end := After(After(After(w, p, Crash), p, Open(response, true)), p, Call(false));
            KeyOf(response.request.id) in end.repo.commits
  {
    var id := response.request.id;
    var t := Approval(response.request, response.actor, response.at).value;
    assert EntrySound(id, w.desk[id], w.repo, p);
    assert Opening(w.desk, w.repo, response, true) == (Working(response), None);
    AcceptedIsCommitted(w.repo, p, t);
    ApprovalKey(response.request, response.actor, response.at);
    RetryApplies(World(w.desk, w.repo, Working(response)), p, t);
  }

  lemma RetryApplies(w: World, p: Policy, t: Request)
    requires w.phase.Working? && w.phase.response.disposition.ApproveExact?
    requires Approval(w.phase.response.request, w.phase.response.actor, w.phase.response.at) == Some(t)
    ensures After(w, p, Call(false)).repo == Apply(w.repo, p, t).0
  {
  }

  lemma AcceptedLaterCommits(w: World, p: Policy, events: seq<Happening>, response: Response)
    requires Sound(w, p) && ForeignEvents(w.desk, events) && AcceptedAt(Course(w, p, events), p, response)
    ensures !NeverCommits(w, p, response.request.id)
  {
    var longer := events + [Crash, Open(response, true), Call(false)];
    SoundCourse(w, p, events);
    CourseThree(w, p, events, Crash, Open(response, true), Call(false));
    AcceptedCommits(Course(w, p, events), p, response);
    ForeignMore(w.desk, events, Crash, Open(response, true), Call(false));
    NotNever(w, p, longer, response.request.id);
  }

  lemma ForeignMore(desk: Desk, events: seq<Happening>, a: Happening, b: Happening, c: Happening)
    requires ForeignEvents(desk, events) && !a.Elsewhere? && !b.Elsewhere? && !c.Elsewhere?
    ensures ForeignEvents(desk, events + [a, b, c])
  {
  }

  lemma NotNever(w: World, p: Policy, events: seq<Happening>, id: string)
    requires ForeignEvents(w.desk, events) && KeyOf(id) in Course(w, p, events).repo.commits
    ensures !NeverCommits(w, p, id)
  {
  }

  /** A request owned by a response and not committed yet is never committed exactly when its
      approval is accepted at no later moment at which it is still owned. */
  lemma CommitsExactlyWhenAccepted(w: World, p: Policy, response: Response)
    requires Sound(w, p) && Owns(w.desk, response) && KeyOf(response.request.id) !in w.repo.commits
    ensures NeverCommits(w, p, response.request.id) <==> !AcceptedLater(w, p, response)
  {
    if AcceptedLater(w, p, response) {
      var events :| ForeignEvents(w.desk, events) && AcceptedAt(Course(w, p, events), p, response);
      AcceptedLaterCommits(w, p, events, response);
    } else {
      forall events | ForeignEvents(w.desk, events)
        ensures KeyOf(response.request.id) !in Course(w, p, events).repo.commits
      {
        if KeyOf(response.request.id) in Course(w, p, events).repo.commits {
          CommitNeedsAcceptance(w, p, events, response);
        }
      }
    }
  }

  // ---------------------------------------------------------------- stale requests

  /** A call finds its request stale exactly when the request is pending, the human is the bound
      one, and the pins, the source documents or the requirements no longer fit. */
  lemma OpensStaleExactly(desk: Desk, r: Repo, response: Response, sources: bool)
    ensures Opening(desk, r, response, sources) == (Claiming(response, true), None) <==>
              var id := response.request.id;
              && id in desk && desk[id].request == response.request && desk[id].status.Pending?
              && response.actor.actorType == "human" && response.actor.id == desk[id].request.human
              && var v := LoadView(r, desk[id].request.project, desk[id].request.lineage);
                 v.Some? && (!PinsHold(desk[id].request, v.value) || !sources
                             || (UnitsCurrent(desk[id].request)
                                 && UnitsOf(v.value, desk[id].request.actions) != desk[id].request.requirementSet))
  {
  }

  /** Its claim, the next store call, leaves it about to be closed as stale. */
  lemma StaleClaimed(w: World, p: Policy, response: Response, sources: bool, fails: bool)
    requires Sound(w, p) && w.phase.Idle?
    requires Opening(w.desk, w.repo, response, sources) == (Claiming(response, true), None)
    ensures var next := After(After(w, p, Open(response, sources)), p, Call(fails));
            Sound(next, p) && next.phase == Closing(response, Stale, None) && next.repo == w.repo
  {
    OpensStaleExactly(w.desk, w.repo, response, sources);
    AfterSound(w, p, Open(response, sources));
    AfterSound(After(w, p, Open(response, sources)), p, Call(fails));
  }

  /** Whatever made a request stale, once its call is about to close it the request is never
      committed if and only if the next store call of that call happens, or the call stops
      there and no later retry has its approval accepted. */
  lemma StaleNeverCommitsExactly(w: World, p: Policy, response: Response, e: Happening)
    requires Sound(w, p) && w.phase == Closing(response, Stale, None) && (e.Call? || e.Crash?)
    ensures NeverCommits(After(w, p, e), p, response.request.id) <==>
              e.Call? || !AcceptedLater(After(w, p, e), p, response)
  {
    AfterSound(w, p, e);
    if e.Call? {
      FinalNeverCommits(After(w, p, e), p, response.request.id);
    } else {
      CommitsExactlyWhenAccepted(After(w, p, e), p, response);
    }
  }

  /** The two ends of the second case, read off the state itself: stopped while the approval is
      accepted, a retry commits the request; stopped when its lineage has moved on, none ever does. */
  lemma StoppedThenRetried(w: World, p: Policy, response: Response)
    requires Sound(w, p) && w.phase == Closing(response, Stale, None)
    ensures AcceptedAt(w, p, response) ==> !NeverCommits(After(w, p, Crash), p, response.request.id)
    ensures LeftBehind(w.repo, response.request) && KeyOf(response.request.id) !in w.repo.commits ==>
              NeverCommits(After(w, p, Crash), p, response.request.id)
  {
    var stopped := After(w, p, Crash);
    AfterSound(w, p, Crash);
    if AcceptedAt(w, p, response) {
      assert Course(stopped, p, []) == stopped;
      AcceptedLaterCommits(stopped, p, [], response);
    }
    if LeftBehind(w.repo, response.request) && KeyOf(response.request.id) !in w.repo.commits {
      forall events | ForeignEvents(stopped.desk, events)
        ensures KeyOf(response.request.id) !in Course(stopped, p, events).repo.commits
      {
        LeftBehindNeverCommits(stopped, p, events, response.request.id);
      }
    }
  }
}
