/** The checks on the proposed next state as the source runs them: loops that append issues
    (core/runtime/state_validation.py), proved against the codes of `StateValidation`. */
module StateLoops {
  import opened Records
  import opened Authority
  import opened Reducer
  import opened StateValidation

  /** `_effective_object_map`. */
  method FoldObjects(base: map<Ref, Object>, revisions: seq<Object>) returns (result: map<Ref, Object>)
    ensures result == Fold(base, revisions)
  {
    result := base;
    for i := 0 to |revisions|
      invariant result == Fold(base, revisions[..i])
    {
      assert revisions[..i + 1][..i] == revisions[..i];
      result := result[revisions[i].Identity() := revisions[i]];
    }
    assert revisions[..|revisions|] == revisions;
  }

  predicate AllResolve(members: map<Ref, Object>, project: string, references: seq<Ref>) {
    forall i :: 0 <= i < |references| ==> Resolves(members, project, references[i])
  }

  method CheckResolves(members: map<Ref, Object>, project: string, references: seq<Ref>) returns (ok: bool)
    ensures ok <==> AllResolve(members, project, references)
  {
    for i := 0 to |references|
      invariant forall k :: 0 <= k < i ==> Resolves(members, project, references[k])
    {
      if !Resolves(members, project, references[i]) { return false; }
    }
    return true;
  }

  /** What each object points at. */
  function ReferencesOf(members: map<Ref, Object>): map<Ref, seq<Ref>> {
    map m | m in members :: References(members[m])
  }

  lemma ClosedByObject(members: map<Ref, Object>, project: string, references: map<Ref, seq<Ref>>)
    requires references == ReferencesOf(members)
    ensures Closed(members, project) <==> forall m :: m in references ==> AllResolve(members, project, references[m])
  {
    assert forall m :: m in members ==> references[m] == References(members[m]);
  }

  method CheckClosed(members: map<Ref, Object>, project: string, references: map<Ref, seq<Ref>>) returns (closed: bool)
    ensures closed <==> forall m :: m in references ==> AllResolve(members, project, references[m])
  {
    var order := Ordered(references.Keys);
    for i := 0 to |order|
      invariant forall k :: 0 <= k < i ==> AllResolve(members, project, references[order[k]])
    {
      var one := CheckResolves(members, project, references[order[i]]);
      if !one {
        assert order[i] in references;
        return false;
      }
    }
    assert forall m :: m in references ==> m in order;
    return true;
  }

  /** `_validate_reference_integrity`. */
  method ValidateReferences(v: View, revisions: seq<Object>) returns (closed: bool)
    ensures closed <==> Closed(Fold(v.Effective(), revisions), v.project)
  {
    var members := FoldObjects(v.Effective(), revisions);
    var references := ReferencesOf(members);
    closed := CheckClosed(members, v.project, references);
    ClosedByObject(members, v.project, references);
  }

  method ValidateStoredRevisions(v: View, revisions: seq<Object>) returns (replaced: bool)
    ensures replaced <==> exists i :: 0 <= i < |revisions| && Replaces(v, revisions[i])
  {
    for i := 0 to |revisions|
      invariant forall k :: 0 <= k < i ==> !Replaces(v, revisions[k])
    {
      if Replaces(v, revisions[i]) { return true; }
    }
    return false;
  }

  /** `_validate_lineage_postconditions`. */
  method ValidateLineageEffects(v: View, req: Request, red: Reduction) returns (issues: set<string>)
    ensures issues == set i, c | 0 <= i < |req.actions| && c in LineageEffectCodes(v, req, red, req.actions[i]) :: c
  {
    issues := {};
    for i := 0 to |req.actions|
      invariant forall k :: 0 <= k < i ==> LineageEffectCodes(v, req, red, req.actions[k]) <= issues
      invariant forall c :: c in issues ==>
                  exists k :: 0 <= k < i && c in LineageEffectCodes(v, req, red, req.actions[k])
    {
      issues := issues + LineageEffectCodes(v, req, red, req.actions[i]);
    }
  }

  /** `_validate_epistemic_postconditions`. */
  method ValidateEvidence(v: View, req: Request, revisions: seq<Object>) returns (issues: set<string>)
    ensures issues == set i, c | 0 <= i < |revisions| && c in EvidenceCodes(v, req, revisions[i]) :: c
  {
    issues := {};
    for i := 0 to |revisions|
      invariant forall k :: 0 <= k < i ==> EvidenceCodes(v, req, revisions[k]) <= issues
      invariant forall c :: c in issues ==> exists k :: 0 <= k < i && c in EvidenceCodes(v, req, revisions[k])
    {
      issues := issues + EvidenceCodes(v, req, revisions[i]);
    }
  }

  method OverlayRevisions(objects: map<Key, Object>, revisions: seq<Object>) returns (result: map<Key, Object>)
    ensures result == Overlay(objects, revisions)
  {
    result := objects;
    for i := 0 to |revisions|
      invariant result == Overlay(objects, revisions[..i])
    {
      assert revisions[..i + 1][..i] == revisions[..i];
      result := result[revisions[i].Slot() := revisions[i]];
    }
    assert revisions[..|revisions|] == revisions;
  }

  /** The loop over the snapshot's members. */
  method CheckMembers(exact: map<Key, Object>, members: map<Ref, Row>) returns (unresolved: bool, mismatched: bool)
    ensures unresolved <==> exists m :: m in members && MemberUnresolved(exact, m, members[m])
    ensures mismatched <==> exists m :: m in members && MemberMismatched(exact, m, members[m])
  {
    var order := Ordered(members.Keys);
    unresolved, mismatched := false, false;
    for i := 0 to |order|
      invariant forall k :: 0 <= k < i ==> (MemberUnresolved(exact, order[k], members[order[k]]) ==> unresolved)
      invariant forall k :: 0 <= k < i ==> (MemberMismatched(exact, order[k], members[order[k]]) ==> mismatched)
      invariant unresolved ==> exists m :: m in members && MemberUnresolved(exact, m, members[m])
      invariant mismatched ==> exists m :: m in members && MemberMismatched(exact, m, members[m])
    {
      var m := order[i];
      assert m in members;
      unresolved := unresolved || MemberUnresolved(exact, m, members[m]);
      mismatched := mismatched || MemberMismatched(exact, m, members[m]);
    }
    assert forall m :: m in members ==> m in order;
  }

  /** `_validate_next_state`. */
  method ValidateNextState(v: View, red: Reduction) returns (issues: set<string>)
    ensures issues == if red.snapshot.None? then {} else SnapshotCodes(v, red.revisions, red.snapshot.value)
  {
    if red.snapshot.None? { return {}; }
    var s := red.snapshot.value;
    var exact := OverlayRevisions(v.objects, red.revisions);
    var unresolved, mismatched := CheckMembers(exact, s.members);
    return Flag(v.Latest("snapshot", s.id).Some? || s.id == v.snapshot.id, "RT-STATE-001")
           + Flag(unresolved, "RT-STATE-003") + Flag(mismatched, "RT-STATE-004")
           + Flag(s.seal != CanonicalDigest(s.(seal := Unsealed)), "RT-STATE-005");
  }

  /** Every check after reduction, in the source's order. */
  method ValidateReduced(v: View, req: Request, red: Reduction) returns (issues: set<string>)
    ensures issues == PostCodes(v, req, red)
  {
    var closed := ValidateReferences(v, red.revisions);
    var replaced := ValidateStoredRevisions(v, red.revisions);
    var lineage := ValidateLineageEffects(v, req, red);
    var evidence := ValidateEvidence(v, req, red.revisions);
    var next := ValidateNextState(v, red);
    issues := Flag(!closed, "RT-REF-001") + Flag(replaced, "RT-CORE-PROV-002") + lineage + evidence + next;
  }
}
