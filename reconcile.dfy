/**
 * The assignment reconciler: compares the desired group ids with the
 * principals already holding the target app role and assigns the role to the
 * groups that lack it, one POST per group, in order. Nothing is ever removed.
 */
module Reconcile {
  import opened Graph

  /** Whether some assignment's principal is `item`. */
  function InGroup(groups: seq<Assignment>, item: string): (b: bool)
    ensures b <==> exists i :: 0 <= i < |groups| && groups[i].principalId == item
  {
    if groups == [] then false
    else groups[0].principalId == item || InGroup(groups[1..], item)
  }

  /** The assignments of one app role, in their original order (see `WithRoleAppend`). */
  function WithRole(assignments: seq<Assignment>, appRoleId: string): (r: seq<Assignment>)
    ensures forall a :: a in r <==> a in assignments && a.appRoleId == appRoleId
    ensures |r| <= |assignments|
  {
    if assignments == [] then []
    else
      var last := assignments[|assignments| - 1];
      WithRole(assignments[..|assignments| - 1], appRoleId) + (if last.appRoleId == appRoleId then [last] else [])
  }

  /** Filtering keeps order: the filter of a concatenation is the concatenation of the filters. */
  lemma {:induction false} WithRoleAppend(a: seq<Assignment>, b: seq<Assignment>, appRoleId: string)
    ensures WithRole(a + b, appRoleId) == WithRole(a, appRoleId) + WithRole(b, appRoleId)
    decreases |b|
  {
    if b == [] {
      assert a + b == a;
    } else {
      var b', last := b[..|b| - 1], b[|b| - 1];
      var tail := if last.appRoleId == appRoleId then [last] else [];
      WithRoleAppend(a, b', appRoleId);
      assert (a + b)[..|a + b| - 1] == a + b' && (a + b)[|a + b| - 1] == last;
      assert WithRole(a + b, appRoleId) == WithRole(a + b', appRoleId) + tail;
      assert WithRole(b, appRoleId) == WithRole(b', appRoleId) + tail;
    }
  }

  /** Lists the application's assignments and keeps those of the target role. */
  method GetAppGroupAssignments(client: GraphClient, appRoleId: string) returns (appGroups: seq<Assignment>)
    modifies client`trace
    ensures client.trace == old(client.trace) + [ListAssignments]
    ensures appGroups == WithRole(client.assignments, appRoleId)
  {
    var all := client.ListAppRoleAssignedTo();
    appGroups := WithRole(all, appRoleId);
  }

  /** The desired ids no current assignment holds, in the order of `groups`. */
  function Missing(groups: seq<string>, appGroups: seq<Assignment>): seq<string>
  {
    if groups == [] then []
    else
      var g := groups[|groups| - 1];
      Missing(groups[..|groups| - 1], appGroups) + (if InGroup(appGroups, g) then [] else [g])
  }

  /** The POSTs that assign `appRoleId` to each of `ids`, in order. */
  function Posts(ids: seq<string>, appRoleId: string): (posts: seq<Event>)
    ensures |posts| == |ids|
  {
    seq(|ids|, i requires 0 <= i < |ids| => PostAssignment(ids[i], appRoleId))
  }

  /** The assignments those POSTs create. */
  function NewAssignments(ids: seq<string>, appRoleId: string): (created: seq<Assignment>)
    ensures |created| == |ids|
  {
    seq(|ids|, i requires 0 <= i < |ids| => Assignment(ids[i], appRoleId))
  }

  /**
   * Assigns the role to every desired group that no current assignment holds,
   * in order, and reports whether it assigned any.
   */
  method AddGroupsToApp(client: GraphClient, appRoleId: string, groups: seq<string>, appGroups: seq<Assignment>)
    returns (added: bool)
    modifies client`trace, client`assignments
    ensures added <==> Missing(groups, appGroups) != []
    ensures client.trace == old(client.trace) + Posts(Missing(groups, appGroups), appRoleId)
    ensures client.assignments == old(client.assignments) + NewAssignments(Missing(groups, appGroups), appRoleId)
  {
    added := false;
    for k := 0 to |groups|
      invariant added <==> Missing(groups[..k], appGroups) != []
      invariant client.trace == old(client.trace) + Posts(Missing(groups[..k], appGroups), appRoleId)
      invariant client.assignments == old(client.assignments) + NewAssignments(Missing(groups[..k], appGroups), appRoleId)
    {
      assert groups[..k + 1][..k] == groups[..k];
      ghost var before := Missing(groups[..k], appGroups);
      if !InGroup(appGroups, groups[k]) {
        client.AddGroupToApp(appRoleId, groups[k]);
        added := true;
        assert Posts(before + [groups[k]], appRoleId) == Posts(before, appRoleId) + [PostAssignment(groups[k], appRoleId)];
        assert NewAssignments(before + [groups[k]], appRoleId) ==
          NewAssignments(before, appRoleId) + [Assignment(groups[k], appRoleId)];
      }
    }
    assert groups[..|groups|] == groups;
  }

  /** Exactly the desired ids that no assignment holds are missing. */
  lemma {:induction false} MissingExactly(groups: seq<string>, appGroups: seq<Assignment>)
    ensures forall g :: g in Missing(groups, appGroups) <==> g in groups && !InGroup(appGroups, g)
    ensures |Missing(groups, appGroups)| <= |groups|
  {
    if groups != [] {
      var pre := groups[..|groups| - 1];
      MissingExactly(pre, appGroups);
      assert groups == pre + [groups[|groups| - 1]];
    }
  }

  /** Missing ids keep the order of the desired ids: the filter distributes over concatenation. */
  lemma {:induction false} MissingAppend(a: seq<string>, b: seq<string>, appGroups: seq<Assignment>)
    ensures Missing(a + b, appGroups) == Missing(a, appGroups) + Missing(b, appGroups)
    decreases |b|
  {
    if b == [] {
      assert a + b == a;
    } else {
      var b', g := b[..|b| - 1], b[|b| - 1];
      var tail := if InGroup(appGroups, g) then [] else [g];
      assert (a + b)[..|a + b| - 1] == a + b';
      calc {
        Missing(a + b, appGroups);
        Missing(a + b', appGroups) + tail;
        { MissingAppend(a, b', appGroups); }
        (Missing(a, appGroups) + Missing(b', appGroups)) + tail;
        Missing(a, appGroups) + (Missing(b', appGroups) + tail);
        Missing(a, appGroups) + Missing(b, appGroups);
      }
    }
  }

  /** Nothing is missing exactly when every desired id is already assigned. */
  lemma AllAssignedIffNothingMissing(groups: seq<string>, appGroups: seq<Assignment>)
    ensures Missing(groups, appGroups) == [] <==> forall g :: g in groups ==> InGroup(appGroups, g)
  {
    MissingExactly(groups, appGroups);
    if Missing(groups, appGroups) != [] {
      assert Missing(groups, appGroups)[0] in Missing(groups, appGroups);
    }
  }

  /** Appending assignments keeps every principal that held the role and adds each appended holder. */
  lemma HoldersAfterAppend(current: seq<Assignment>, extra: seq<Assignment>, appRoleId: string, g: string)
    requires InGroup(WithRole(current, appRoleId), g) || Assignment(g, appRoleId) in extra
    ensures InGroup(WithRole(current + extra, appRoleId), g)
  {
    var before := WithRole(current, appRoleId);
    var after := WithRole(current + extra, appRoleId);
    var x: Assignment;
    if InGroup(before, g) {
      var i :| 0 <= i < |before| && before[i].principalId == g;
      x := before[i];
      assert x in before;
      assert x in current;
    } else {
      x := Assignment(g, appRoleId);
    }
    assert x in current + extra && x.appRoleId == appRoleId;
    assert x in after;
    MemberHolds(after, x);
  }

  /** A principal that holds one of the assignments is found by `InGroup`. */
  lemma MemberHolds(assignments: seq<Assignment>, x: Assignment)
    requires x in assignments
    ensures InGroup(assignments, x.principalId)
  {
  }

  /** After a pass, every desired id holds the role. */
  lemma EveryGroupHoldsRole(groups: seq<string>, current: seq<Assignment>, appRoleId: string)
    ensures
      var added := Missing(groups, WithRole(current, appRoleId));
      var after := current + NewAssignments(added, appRoleId);
      forall g :: g in groups ==> InGroup(WithRole(after, appRoleId), g)
  {
    var before := WithRole(current, appRoleId);
    var added := Missing(groups, before);
    var extra := NewAssignments(added, appRoleId);
    MissingExactly(groups, before);
    forall g | g in groups
      ensures InGroup(WithRole(current + extra, appRoleId), g)
    {
      if !InGroup(before, g) {
        var i :| 0 <= i < |added| && added[i] == g;
        assert extra[i] == Assignment(g, appRoleId);
      }
      HoldersAfterAppend(current, extra, appRoleId, g);
    }
  }

  /**
   * Reconciling again against the assignments left by a first pass adds
   * nothing: every id the first pass found missing now holds the role.
   */
  lemma SecondPassAddsNothing(groups: seq<string>, current: seq<Assignment>, appRoleId: string)
    ensures
      var added := Missing(groups, WithRole(current, appRoleId));
      var after := current + NewAssignments(added, appRoleId);
      Missing(groups, WithRole(after, appRoleId)) == []
  {
    var added := Missing(groups, WithRole(current, appRoleId));
    var after := current + NewAssignments(added, appRoleId);
    EveryGroupHoldsRole(groups, current, appRoleId);
    AllAssignedIffNothingMissing(groups, WithRole(after, appRoleId));
  }

  /** Distinct desired ids give distinct POSTs: no group is assigned twice in one pass. */
  lemma {:induction false} MissingDistinct(groups: seq<string>, appGroups: seq<Assignment>)
    requires forall i, j :: 0 <= i < j < |groups| ==> groups[i] != groups[j]
    ensures var m := Missing(groups, appGroups);
      forall i, j :: 0 <= i < j < |m| ==> m[i] != m[j]
  {
    if groups != [] {
      var init := groups[..|groups| - 1];
      var g := groups[|groups| - 1];
      MissingDistinct(init, appGroups);
      MissingExactly(init, appGroups);
      assert g !in init;
    }
  }

  /** Three desired groups of which only the last is unassigned: exactly one POST, for that group. */
  lemma OneOfThreeMissing(a: string, b: string, c: string, appGroups: seq<Assignment>)
    requires InGroup(appGroups, a) && InGroup(appGroups, b) && !InGroup(appGroups, c)
    ensures Missing([a, b, c], appGroups) == [c]
  {
    assert [a, b, c][..2] == [a, b] && [a, b][..1] == [a] && [a][..0] == [];
    assert Missing([a], appGroups) == [];
    assert Missing([a, b], appGroups) == [];
  }
}
