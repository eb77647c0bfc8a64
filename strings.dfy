/**
 * JavaScript's `String.prototype.split` and `Array.prototype.join` for a
 * one-character separator, the only form the action uses (`","` and `":"`).
 * Both are defined from the right-hand end, which is the shape every proof
 * about them follows.
 */
module Strings {

  /** `s.split(c)`: the pieces between the separators; never empty, `"".split(c)` is `[""]`. */
  function Split(s: string, c: char): (parts: seq<string>)
    ensures |parts| >= 1
    ensures forall i :: 0 <= i < |parts| ==> c !in parts[i]
    decreases |s|
  {
    if s == [] then [""]
    else
      var init := Split(s[..|s| - 1], c);
      if s[|s| - 1] == c then init + [""]
      else init[..|init| - 1] + [init[|init| - 1] + [s[|s| - 1]]]
  }

  /** `parts.join(c)`: the pieces with one separator between neighbours. */
  function Join(parts: seq<string>, c: char): (joined: string)
    ensures |parts| >= 1 ==> parts[0] <= joined
    ensures |parts| >= 2 ==> c in joined
  {
    if |parts| == 0 then ""
    else if |parts| == 1 then parts[0]
    else Join(parts[..|parts| - 1], c) + [c] + parts[|parts| - 1]
  }

  /** Extending the last piece by one character extends the join by that character. */
  lemma JoinExtendLast(parts: seq<string>, x: char, c: char)
    requires |parts| >= 1
    ensures Join(parts[..|parts| - 1] + [parts[|parts| - 1] + [x]], c) == Join(parts, c) + [x]
  {
  }

  /** Joining the pieces of a split gives back the original string. */
  lemma {:induction false} JoinSplit(s: string, c: char)
    ensures Join(Split(s, c), c) == s
    decreases |s|
  {
    if s != [] {
      var pre := s[..|s| - 1];
      var init := Split(pre, c);
      JoinSplit(pre, c);
      assert s == pre + [s[|s| - 1]];
      if s[|s| - 1] == c {
        assert Split(s, c) == init + [""];
        assert (init + [""])[..|init|] == init;
      } else {
        assert Split(s, c) == init[..|init| - 1] + [init[|init| - 1] + [s[|s| - 1]]];
        JoinExtendLast(init, s[|s| - 1], c);
      }
    }
  }

  /** A string without the separator splits into itself alone, and only such a string does. */
  lemma {:induction false} SplitSingle(s: string, c: char)
    ensures c !in s <==> Split(s, c) == [s]
    decreases |s|
  {
    if s != [] {
      var pre := s[..|s| - 1];
      SplitSingle(pre, c);
      var init := Split(pre, c);
      if s[|s| - 1] != c {
        if c !in pre {
          assert init == [pre];
          assert s == pre + [s[|s| - 1]];
        } else {
          assert |init| > 1 by {
            if |init| <= 1 {
              assert |init| == 1;
              JoinSplit(pre, c);
            }
          }
        }
      }
    }
  }

  /** Splitting `a + [c] + b`, where `b` holds no separator, adds `b` as one last piece. */
  lemma {:induction false} SplitAppendPiece(a: string, b: string, c: char)
    requires c !in b
    ensures Split(a + [c] + b, c) == Split(a, c) + [b]
    decreases |b|
  {
    if b == [] {
      assert (a + [c] + b)[..|a + [c] + b| - 1] == a;
    } else {
      var b' := b[..|b| - 1];
      SplitAppendPiece(a, b', c);
      assert (a + [c] + b)[..|a + [c] + b| - 1] == a + [c] + b';
      assert b' + [b[|b| - 1]] == b;
    }
  }

  /** Splitting the join of separator-free pieces gives back the pieces. */
  lemma {:induction false} SplitJoin(parts: seq<string>, c: char)
    requires |parts| >= 1
    requires forall i :: 0 <= i < |parts| ==> c !in parts[i]
    ensures Split(Join(parts, c), c) == parts
  {
    if |parts| == 1 {
      SplitSingle(parts[0], c);
    } else {
      var init := parts[..|parts| - 1];
      SplitJoin(init, c);
      SplitAppendPiece(Join(init, c), parts[|parts| - 1], c);
    }
  }
}
