/**
 * The output formatter: one output per permission level, named
 * `<level>_idp_mappings`, whose value is the level's `team` or
 * `team:groupName` entries joined with `,` (an array's `toString`).
 */
module Outputs {
  import opened Wrappers
  import opened Strings
  import opened Mappings

  /** The levels that are output even when no mapping names them, in the action's order. */
  const DefaultLevels: seq<string> := ["admin", "maintain", "triage", "write", "read"]

  /** One value handed to the CI runner: an output name and its string value. */
  datatype Output = Output(name: string, value: string)

  /** `team`, followed by `:` and the group's display name when one was recorded (an empty name counts as none). */
  function Format(m: GroupMapping): (value: string)
    ensures m.githubTeam <= value
    ensures value == m.githubTeam <==> !(m.idpGroupName.Some? && m.idpGroupName.value != "")
    ensures m.idpGroupName.Some? && m.idpGroupName.value != "" ==>
      value[|m.githubTeam|..] == [':'] + m.idpGroupName.value
  {
    if m.idpGroupName.Some? && m.idpGroupName.value != "" then m.githubTeam + ":" + m.idpGroupName.value
    else m.githubTeam
  }

  /** The output's levels: the defaults, then each further level in the order it is first met. */
  function OutputKeys(ms: seq<GroupMapping>): seq<string>
  {
    if ms == [] then DefaultLevels
    else
      var keys := OutputKeys(ms[..|ms| - 1]);
      var level := ms[|ms| - 1].permissions;
      if level in keys then keys else keys + [level]
  }

  /** The formatted entries of one level, in mapping order. */
  function LevelValues(ms: seq<GroupMapping>, level: string): seq<string>
  {
    if ms == [] then []
    else
      LevelValues(ms[..|ms| - 1], level) +
      (if ms[|ms| - 1].permissions == level then [Format(ms[|ms| - 1])] else [])
  }

  /** The output a level is reported under: the level, then `_idp_mappings`. */
  function OutputName(level: string): (name: string)
    ensures level <= name && name[|level|..] == "_idp_mappings"
  {
    level + "_idp_mappings"
  }

  /** Different levels are reported under different output names. */
  lemma OutputNameInjective(a: string, b: string)
    requires OutputName(a) == OutputName(b)
    ensures a == b
  {
  }

  /** No output is set twice: the formatter's output names are pairwise distinct. */
  lemma OutputNamesDistinct(ms: seq<GroupMapping>)
    ensures var outs := OutputsFor(ms);
      forall i, j :: 0 <= i < j < |outs| ==> outs[i].name != outs[j].name
  {
    var outs := OutputsFor(ms);
    var keys := OutputKeys(ms);
    KeysDistinctAndComplete(ms);
    forall i, j | 0 <= i < j < |outs|
      ensures outs[i].name != outs[j].name
    {
      if outs[i].name == outs[j].name {
        OutputNameInjective(keys[i], keys[j]);
      }
    }
  }

  /**
   * A level with no entries and a level whose only entry is the empty string
   * are output with the same value.
   */
  lemma EmptyLevelIndistinct(ms: seq<GroupMapping>, level: string)
    requires LevelValues(ms, level) == [] || LevelValues(ms, level) == [""]
    ensures Join(LevelValues(ms, level), ',') == ""
  {
  }

  /** Everything the formatter outputs, one entry per output level in key order. */
  function OutputsFor(ms: seq<GroupMapping>): (outs: seq<Output>)
    ensures |outs| == |OutputKeys(ms)|
  {
    var keys := OutputKeys(ms);
    seq(|keys|, j requires 0 <= j < |keys| => Output(OutputName(keys[j]), Join(LevelValues(ms, keys[j]), ',')))
  }

  /** A level that is not among the keys has no entries. */
  lemma {:induction false} UnseenLevelEmpty(ms: seq<GroupMapping>, level: string)
    requires level !in OutputKeys(ms)
    ensures LevelValues(ms, level) == []
  {
    if ms != [] {
      UnseenLevelEmpty(ms[..|ms| - 1], level);
    }
  }

  /**
   * The formatter's first loop: collects each mapping's formatted entry under
   * its level, adding a level the first time it is met.
   */
  method CollectValues(groupsArray: seq<GroupMapping>) returns (keys: seq<string>, lists: map<string, seq<string>>)
    ensures keys == OutputKeys(groupsArray)
    ensures forall k :: k in lists <==> k in keys
    ensures forall k :: k in keys ==> lists[k] == LevelValues(groupsArray, k)
  {
    keys := DefaultLevels;
    lists := map k | k in DefaultLevels :: [];
    for i := 0 to |groupsArray|
      invariant keys == OutputKeys(groupsArray[..i])
      invariant forall k :: k in lists <==> k in keys
      invariant forall k :: k in keys ==> lists[k] == LevelValues(groupsArray[..i], k)
    {
      assert groupsArray[..i + 1][..i] == groupsArray[..i];
      var group := groupsArray[i];
      if group.permissions !in lists {
        UnseenLevelEmpty(groupsArray[..i], group.permissions);
        keys := keys + [group.permissions];
        lists := lists[group.permissions := []];
      }
      var value := group.githubTeam;
      if group.idpGroupName.Some? && group.idpGroupName.value != "" {
        value := value + ":" + group.idpGroupName.value;
      }
      lists := lists[group.permissions := lists[group.permissions] + [value]];
    }
    assert groupsArray[..|groupsArray|] == groupsArray;
  }

  /**
   * Collects each mapping's formatted entry under its level, then turns every
   * level's list into one comma-joined output.
   */
  method OutputGroups(groupsArray: seq<GroupMapping>) returns (outputs: seq<Output>)
    ensures outputs == OutputsFor(groupsArray)
  {
    var keys, lists := CollectValues(groupsArray);
    ghost var wanted := OutputsFor(groupsArray);
    outputs := [];
    for j := 0 to |keys|
      invariant outputs == wanted[..j]
    {
      assert wanted[j] == Output(OutputName(keys[j]), Join(lists[keys[j]], ','));
      assert wanted[..j + 1] == wanted[..j] + [wanted[j]];
      outputs := outputs + [Output(OutputName(keys[j]), Join(lists[keys[j]], ','))];
    }
    assert wanted[..|keys|] == wanted;
  }

  /** The five default levels are always the first five outputs, in order, whatever the mappings. */
  lemma {:induction false} DefaultsFirst(ms: seq<GroupMapping>)
    ensures |OutputKeys(ms)| >= |DefaultLevels|
    ensures OutputKeys(ms)[..|DefaultLevels|] == DefaultLevels
  {
    if ms != [] {
      DefaultsFirst(ms[..|ms| - 1]);
    }
  }

  /** Every output level is output once only, and every mapping's level is output. */
  lemma {:induction false} KeysDistinctAndComplete(ms: seq<GroupMapping>)
    ensures forall i, j :: 0 <= i < j < |OutputKeys(ms)| ==> OutputKeys(ms)[i] != OutputKeys(ms)[j]
    ensures forall m :: m in ms ==> m.permissions in OutputKeys(ms)
  {
    if ms != [] {
      KeysDistinctAndComplete(ms[..|ms| - 1]);
      forall m | m in ms ensures m.permissions in OutputKeys(ms) {
        if m != ms[|ms| - 1] {
          assert m in ms[..|ms| - 1];
        }
      }
    }
  }

  /** Each entry of a level's list is the formatted form of a mapping of that level. */
  lemma {:induction false} LevelValuesOrigin(ms: seq<GroupMapping>, level: string, v: string)
    requires v in LevelValues(ms, level)
    ensures exists m :: m in ms && m.permissions == level && v == Format(m)
  {
    var pre := ms[..|ms| - 1];
    if v in LevelValues(pre, level) {
      LevelValuesOrigin(pre, level, v);
      var m :| m in pre && m.permissions == level && v == Format(m);
      assert m in ms;
    } else {
      assert ms[|ms| - 1] in ms;
    }
  }

  /**
   * A level's output value splits back into its entries when it has at least
   * one and none of them contains a comma.
   */
  lemma OutputValueSplits(ms: seq<GroupMapping>, level: string)
    requires LevelValues(ms, level) != []
    requires forall i :: 0 <= i < |LevelValues(ms, level)| ==> ',' !in LevelValues(ms, level)[i]
    ensures Split(Join(LevelValues(ms, level), ','), ',') == LevelValues(ms, level)
  {
    SplitJoin(LevelValues(ms, level), ',');
  }
}
