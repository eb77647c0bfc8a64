/**
 * The mapping parser and the group deduplicator: the configured
 * `team[:group]` lists of each permission level become `GroupMapping`
 * records, and the records' identity-provider group ids are collapsed into
 * the distinct ids the action resolves and assigns.
 */
module Mappings {
  import opened Wrappers
  import opened Strings

  /**
   * One configured entry: the permission level it was listed under, the
   * GitHub team, the identity-provider group id (possibly empty) and the
   * group's display name once it has been looked up.
   */
  datatype GroupMapping = GroupMapping(
    permissions: string,
    githubTeam: string,
    idpGroup: string,
    idpGroupName: Option<string>)

  /** The position of the last `c` in `s`, or -1 when `s` holds none. */
  function LastIndex(s: string, c: char): (k: int)
    ensures -1 <= k < |s|
    ensures k >= 0 ==> s[k] == c
    ensures forall j :: k < j < |s| ==> s[j] != c
  {
    if s == [] then -1
    else if s[|s| - 1] == c then |s| - 1
    else LastIndex(s[..|s| - 1], c)
  }

  /**
   * One comma-separated entry: the text after the last `:` is the group id
   * and everything before it is the team; without a `:` the whole entry is
   * the team and the group id is empty.
   */
  function ParseEntry(level: string, entry: string): (m: GroupMapping)
    ensures m.permissions == level && m.idpGroupName == None
    ensures ':' !in m.idpGroup
    ensures ':' in entry ==> m.githubTeam + ":" + m.idpGroup == entry
    ensures ':' !in entry ==> m.githubTeam == entry && m.idpGroup == ""
  {
    var k := LastIndex(entry, ':');
    if k < 0 then GroupMapping(level, entry, "", None)
    else
      assert entry == entry[..k] + ":" + entry[k + 1..];
      GroupMapping(level, entry[..k], entry[k + 1..], None)
  }

  /**
   * The entry parsed the way the action does it: split on every `:`, pop the
   * last piece as the group id when there is more than one piece, and join the
   * remaining pieces back with `:` as the team.
   */
  lemma ParseEntrySplitPopJoin(level: string, entry: string)
    ensures var components := Split(entry, ':');
      var m := ParseEntry(level, entry);
      if |components| > 1 then
        m.githubTeam == Join(components[..|components| - 1], ':') && m.idpGroup == components[|components| - 1]
      else
        m.githubTeam == Join(components, ':') && m.idpGroup == ""
  {
    var m := ParseEntry(level, entry);
    SplitSingle(entry, ':');
    if ':' in entry {
      SplitAppendPiece(m.githubTeam, m.idpGroup, ':');
      JoinSplit(m.githubTeam, ':');
      assert m.githubTeam + [':'] + m.idpGroup == entry;
    }
  }

  /** The mappings of one level's entries, one per entry, in entry order. */
  function ParseEntries(level: string, entries: seq<string>): seq<GroupMapping>
  {
    if entries == [] then []
    else ParseEntries(level, entries[..|entries| - 1]) + [ParseEntry(level, entries[|entries| - 1])]
  }

  lemma {:induction false} ParseEntriesAt(level: string, entries: seq<string>)
    ensures |ParseEntries(level, entries)| == |entries|
    ensures forall i :: 0 <= i < |entries| ==> ParseEntries(level, entries)[i] == ParseEntry(level, entries[i])
  {
    if entries != [] {
      ParseEntriesAt(level, entries[..|entries| - 1]);
    }
  }

  /** Parses one level's configured string: split on `,`, then parse each entry. */
  method GroupToArray(level: string, groups: string) returns (groupArray: seq<GroupMapping>)
    ensures groupArray == ParseEntries(level, Split(groups, ','))
  {
    var entries := Split(groups, ',');
    groupArray := [];
    for k := 0 to |entries|
      invariant groupArray == ParseEntries(level, entries[..k])
    {
      assert entries[..k + 1][..k] == entries[..k];
      groupArray := groupArray + [ParseEntry(level, entries[k])];
    }
    assert entries[..|entries|] == entries;
  }

  /** The mappings one `(level, string)` pair of the configuration contributes. */
  function LevelMappings(group: (string, string)): seq<GroupMapping>
  {
    if group.1 != "" then ParseEntries(group.0, Split(group.1, ',')) else []
  }

  /** The parsed levels of the configuration, one sequence of mappings per key, in key order. */
  function Levels(groups: seq<(string, string)>): (levels: seq<seq<GroupMapping>>)
    ensures |levels| == |groups|
  {
    seq(|groups|, i requires 0 <= i < |groups| => LevelMappings(groups[i]))
  }

  /** The levels' mappings, one level after the other. */
  function Flatten(levels: seq<seq<GroupMapping>>): seq<GroupMapping>
  {
    if levels == [] then [] else Flatten(levels[..|levels| - 1]) + levels[|levels| - 1]
  }

  /**
   * All levels' mappings, level after level in key order; a level whose
   * configured string is empty contributes nothing.
   */
  function ParseAll(groups: seq<(string, string)>): seq<GroupMapping>
  {
    Flatten(Levels(groups))
  }

  /** Parses every level of the configuration object, in key order. */
  method GroupsToArray(groups: seq<(string, string)>) returns (groupsArr: seq<GroupMapping>)
    ensures groupsArr == ParseAll(groups)
  {
    ghost var levels := Levels(groups);
    groupsArr := [];
    for k := 0 to |groups|
      invariant groupsArr == Flatten(levels[..k])
    {
      assert levels[..k + 1][..k] == levels[..k];
      if groups[k].1 != "" {
        var curr := GroupToArray(groups[k].0, groups[k].1);
        groupsArr := groupsArr + curr;
      }
    }
    assert levels[..|groups|] == levels;
  }

  lemma {:induction false} FlattenAppend(x: seq<seq<GroupMapping>>, y: seq<seq<GroupMapping>>)
    ensures Flatten(x + y) == Flatten(x) + Flatten(y)
    decreases |y|
  {
    if y == [] {
      assert x + y == x;
    } else {
      var y', last := y[..|y| - 1], y[|y| - 1];
      assert (x + y)[..|x + y| - 1] == x + y';
      calc {
        Flatten(x + y);
        Flatten(x + y') + last;
        { FlattenAppend(x, y'); }
        (Flatten(x) + Flatten(y')) + last;
        Flatten(x) + (Flatten(y') + last);
        Flatten(x) + Flatten(y);
      }
    }
  }

  /** Parsing distributes over the configuration's keys: the result is the levels' results concatenated in key order. */
  lemma ParseAllAppend(a: seq<(string, string)>, b: seq<(string, string)>)
    ensures ParseAll(a + b) == ParseAll(a) + ParseAll(b)
  {
    assert Levels(a + b) == Levels(a) + Levels(b);
    FlattenAppend(Levels(a), Levels(b));
  }

  /** One level alone: an empty string yields nothing, any other one mapping per comma-separated entry. */
  lemma ParseAllSingle(level: string, raw: string)
    ensures raw == "" ==> ParseAll([(level, raw)]) == []
    ensures raw != "" ==> ParseAll([(level, raw)]) == ParseEntries(level, Split(raw, ','))
  {
    var levels := Levels([(level, raw)]);
    assert levels == [LevelMappings((level, raw))];
    assert levels[..0] == [];
    assert Flatten(levels) == Flatten(levels[..0]) + levels[0];
  }

  /** Each mapping of the flattened levels comes from one of the levels. */
  lemma {:induction false} FlattenOrigin(levels: seq<seq<GroupMapping>>, m: GroupMapping)
    requires m in Flatten(levels)
    ensures exists i :: 0 <= i < |levels| && m in levels[i]
  {
    var pre := levels[..|levels| - 1];
    if m in Flatten(pre) {
      FlattenOrigin(pre, m);
      var i :| 0 <= i < |pre| && m in pre[i];
      assert levels[i] == pre[i];
    }
  }

  /**
   * Every parsed mapping comes from a level whose string is non-empty, carries
   * that level and has no display name yet.
   */
  lemma ParseAllOrigin(groups: seq<(string, string)>, m: GroupMapping)
    requires m in ParseAll(groups)
    ensures m.idpGroupName == None
    ensures exists i :: 0 <= i < |groups| && groups[i].0 == m.permissions && groups[i].1 != ""
  {
    FlattenOrigin(Levels(groups), m);
    var i :| 0 <= i < |groups| && m in Levels(groups)[i];
    ParseEntriesAt(groups[i].0, Split(groups[i].1, ','));
  }

  /** The distinct non-empty group ids, in the order they are first seen. */
  function UniqueIds(ms: seq<GroupMapping>): seq<string>
  {
    if ms == [] then []
    else
      var seen := UniqueIds(ms[..|ms| - 1]);
      var g := ms[|ms| - 1].idpGroup;
      if g != "" && g !in seen then seen + [g] else seen
  }

  /** Collects the distinct non-empty group ids, skipping ids already collected. */
  method GetUniqueGroups(groupsArray: seq<GroupMapping>) returns (uniqueGroups: seq<string>)
    ensures uniqueGroups == UniqueIds(groupsArray)
  {
    uniqueGroups := [];
    for k := 0 to |groupsArray|
      invariant uniqueGroups == UniqueIds(groupsArray[..k])
    {
      assert groupsArray[..k + 1][..k] == groupsArray[..k];
      var idpGroup := groupsArray[k].idpGroup;
      if idpGroup != "" && idpGroup !in uniqueGroups {
        uniqueGroups := uniqueGroups + [idpGroup];
      }
    }
    assert groupsArray[..|groupsArray|] == groupsArray;
  }

  /** No id is collected twice and the empty id never is. */
  lemma {:induction false} UniqueIdsDistinct(ms: seq<GroupMapping>)
    ensures "" !in UniqueIds(ms)
    ensures forall i, j :: 0 <= i < j < |UniqueIds(ms)| ==> UniqueIds(ms)[i] != UniqueIds(ms)[j]
  {
    if ms != [] {
      UniqueIdsDistinct(ms[..|ms| - 1]);
    }
  }

  /** The collected ids are exactly the non-empty ids some mapping carries. */
  lemma {:induction false} UniqueIdsComplete(ms: seq<GroupMapping>)
    ensures forall g :: g in UniqueIds(ms) <==>
      g != "" && exists k :: 0 <= k < |ms| && ms[k].idpGroup == g
  {
    if ms != [] {
      var pre := ms[..|ms| - 1];
      UniqueIdsComplete(pre);
      forall g | g != "" && (exists k :: 0 <= k < |ms| && ms[k].idpGroup == g)
        ensures g in UniqueIds(ms)
      {
        var k :| 0 <= k < |ms| && ms[k].idpGroup == g;
        if k < |ms| - 1 {
          assert pre[k] == ms[k];
        }
      }
      forall g | g in UniqueIds(ms)
        ensures g != "" && exists k :: 0 <= k < |ms| && ms[k].idpGroup == g
      {
        if g in UniqueIds(pre) {
          var k :| 0 <= k < |pre| && pre[k].idpGroup == g;
          assert ms[k] == pre[k];
        } else {
          assert ms[|ms| - 1].idpGroup == g;
        }
      }
    }
  }

  /** `k` is the position of the first mapping whose group id is `g`. */
  ghost predicate FirstAt(ms: seq<GroupMapping>, g: string, k: int)
  {
    0 <= k < |ms| && ms[k].idpGroup == g && forall k' :: 0 <= k' < k ==> ms[k'].idpGroup != g
  }

  /** Earlier collected ids are first seen earlier in the mappings. */
  lemma {:induction false} UniqueIdsFirstSeen(ms: seq<GroupMapping>, i: int, j: int, ki: int, kj: int)
    requires 0 <= i < j < |UniqueIds(ms)|
    requires FirstAt(ms, UniqueIds(ms)[i], ki) && FirstAt(ms, UniqueIds(ms)[j], kj)
    ensures ki < kj
  {
    var pre := ms[..|ms| - 1];
    var seen := UniqueIds(pre);
    var u := UniqueIds(ms);
    UniqueIdsComplete(pre);
    // an id already collected from `pre` is first seen inside `pre`
    assert FirstBefore: forall g, k :: g in seen && FirstAt(ms, g, k) ==> k < |pre| && FirstAt(pre, g, k) by {
      forall g, k | g in seen && FirstAt(ms, g, k)
        ensures k < |pre| && FirstAt(pre, g, k)
      {
        var k0 :| 0 <= k0 < |pre| && pre[k0].idpGroup == g;
        assert ms[k0] == pre[k0];
      }
    }
    if j < |seen| {
      assert u[i] == seen[i] && u[j] == seen[j];
      UniqueIdsFirstSeen(pre, i, j, ki, kj);
    } else {
      assert u[i] == seen[i] && u[i] in seen;
      assert u[j] == ms[|ms| - 1].idpGroup && u[j] !in seen;
    }
  }

  /**
   * The display name recorded for a mapping once the names of `ids` have been
   * looked up in `directory` (group id to display name).
   */
  function WithName(m: GroupMapping, ids: seq<string>, directory: map<string, string>): (named: GroupMapping)
    ensures named.permissions == m.permissions && named.githubTeam == m.githubTeam && named.idpGroup == m.idpGroup
    ensures m.idpGroup in ids && m.idpGroup in directory ==> named.idpGroupName == Some(directory[m.idpGroup])
    ensures !(m.idpGroup in ids && m.idpGroup in directory) ==> named == m
  {
    if m.idpGroup in ids && m.idpGroup in directory then m.(idpGroupName := Some(directory[m.idpGroup])) else m
  }

  /** The mappings after every id in `ids` has been looked up and named, in order. */
  function NameAll(ms: seq<GroupMapping>, ids: seq<string>, directory: map<string, string>): (named: seq<GroupMapping>)
    ensures |named| == |ms|
  {
    seq(|ms|, i requires 0 <= i < |ms| => WithName(ms[i], ids, directory))
  }

  /**
   * Once every collected id has a name, exactly the mappings with a non-empty
   * group id carry that group's name; the others are left as they were.
   */
  lemma NamesAttached(ms: seq<GroupMapping>, directory: map<string, string>)
    requires forall g :: g in UniqueIds(ms) ==> g in directory
    ensures forall i :: 0 <= i < |ms| ==>
      && (ms[i].idpGroup == "" ==> NameAll(ms, UniqueIds(ms), directory)[i] == ms[i])
      && (ms[i].idpGroup != "" ==>
            ms[i].idpGroup in directory &&
            NameAll(ms, UniqueIds(ms), directory)[i] == ms[i].(idpGroupName := Some(directory[ms[i].idpGroup])))
  {
    UniqueIdsComplete(ms);
    UniqueIdsDistinct(ms);
  }

  /** Records `name` on every mapping whose group id is `group`, in place. */
  method SetGroupName(a: array<GroupMapping>, group: string, name: string)
    modifies a
    ensures forall i :: 0 <= i < a.Length ==>
      a[i] == if old(a[i]).idpGroup == group then old(a[i]).(idpGroupName := Some(name)) else old(a[i])
  {
    for i := 0 to a.Length
      invariant forall j :: 0 <= j < i ==>
        a[j] == if old(a[j]).idpGroup == group then old(a[j]).(idpGroupName := Some(name)) else old(a[j])
      invariant forall j :: i <= j < a.Length ==> a[j] == old(a[j])
    {
      if a[i].idpGroup == group {
        a[i] := a[i].(idpGroupName := Some(name));
      }
    }
  }
}
