/** The wildcard matcher for paths: '*' stands for any string, '?' for any one character. */
module Glob {
  /** What a pattern means, read from its front. */
  predicate Matches(pattern: string, value: string)
    decreases |pattern| + |value|
  {
    if pattern == [] then value == []
    else if pattern[0] == '*' then
      Matches(pattern[1..], value) || (value != [] && Matches(pattern, value[1..]))
    else value != [] && (pattern[0] == '?' || pattern[0] == value[0]) && Matches(pattern[1..], value[1..])
  }

  ghost predicate MatchesPrefix(pattern: string, value: string) {
    exists j :: 0 <= j <= |value| && Matches(pattern, value[..j])
  }

  /** A last '*' absorbs any suffix. */
  lemma {:induction false} StarAtEnd(pattern: string, value: string)
    ensures Matches(pattern + "*", value) <==> MatchesPrefix(pattern, value)
    decreases |pattern| + |value|
  {
    if pattern == [] {
      StarMatchesAll(value);
      assert pattern + "*" == "*" && value[..0] == [];
    } else {
      assert (pattern + "*")[1..] == pattern[1..] + "*";
      StarAtEnd(pattern[1..], value);
      if value != [] {
        StarAtEnd(pattern, value[1..]);
        StarAtEnd(pattern[1..], value[1..]);
      }
      PrefixUnfolds(pattern, value);
    }
  }

  lemma {:induction false} StarMatchesAll(value: string)
    ensures Matches("*", value)
    decreases |value|
  {
    assert "*"[1..] == [];
    if value != [] {
      StarMatchesAll(value[1..]);
    }
  }

  /** MatchesPrefix satisfies the same equations as Matches. */
  lemma PrefixUnfolds(pattern: string, value: string)
    requires pattern != []
    ensures MatchesPrefix(pattern, value) <==>
      if pattern[0] == '*' then
        MatchesPrefix(pattern[1..], value) || (value != [] && MatchesPrefix(pattern, value[1..]))
      else
        value != [] && (pattern[0] == '?' || pattern[0] == value[0]) && MatchesPrefix(pattern[1..], value[1..])
  {
    forall j | 0 <= j < |value|
      ensures value[..j + 1][1..] == value[1..][..j]
    {
    }
    if MatchesPrefix(pattern, value) {
      var j :| 0 <= j <= |value| && Matches(pattern, value[..j]);
      assert j > 0 ==> value[..j][1..] == value[1..][..j - 1];
    }
    if value != [] && MatchesPrefix(pattern[1..], value[1..]) {
      var j :| 0 <= j <= |value[1..]| && Matches(pattern[1..], value[1..][..j]);
      assert value[..j + 1][1..] == value[1..][..j];
      assert Matches(pattern[1..], value[..j + 1][1..]);
    }
    if value != [] && MatchesPrefix(pattern, value[1..]) {
      var j :| 0 <= j <= |value[1..]| && Matches(pattern, value[1..][..j]);
      assert value[..j + 1][1..] == value[1..][..j];
      assert pattern[0] == '*' ==> Matches(pattern, value[..j + 1]);
    }
  }

  /** Any other last token takes exactly the last character. */
  lemma {:induction false} TokenAtEnd(pattern: string, token: char, value: string)
    requires token != '*'
    ensures Matches(pattern + [token], value) <==>
      value != [] && (token == '?' || token == value[|value| - 1]) && Matches(pattern, value[..|value| - 1])
    decreases |pattern| + |value|
  {
    var whole := pattern + [token];
    if pattern == [] {
      assert whole[1..] == [];
    } else {
      assert whole[1..] == pattern[1..] + [token];
      TokenAtEnd(pattern[1..], token, value);
      if value != [] {
        var init := value[..|value| - 1];
        TokenAtEnd(pattern, token, value[1..]);
        TokenAtEnd(pattern[1..], token, value[1..]);
        assert |value| > 1 ==> value[1..][..|value| - 2] == init[1..];
      }
    }
  }

  lemma StarStep(pattern: string, value: string)
    ensures MatchesPrefix(pattern, value) <==>
      Matches(pattern, value) || (value != [] && MatchesPrefix(pattern, value[..|value| - 1]))
  {
    assert value[..|value|] == value;
    if MatchesPrefix(pattern, value) && !Matches(pattern, value) {
      var j :| 0 <= j <= |value| && Matches(pattern, value[..j]);
      assert value[..|value| - 1][..j] == value[..j];
    }
    if value != [] && MatchesPrefix(pattern, value[..|value| - 1]) {
      var j :| 0 <= j <= |value| - 1 && Matches(pattern, value[..|value| - 1][..j]);
      assert value[..|value| - 1][..j] == value[..j];
    }
  }

  /** Entry j says whether the pattern matches the first j characters. */
  ghost predicate IsRow(row: array<bool>, pattern: string, value: string, upTo: nat)
    requires row.Length == |value| + 1 && upTo <= row.Length
    reads row
  {
    forall j | 0 <= j < upTo :: row[j] == Matches(pattern, value[..j])
  }

  method StarRow(previous: array<bool>, current: array<bool>, pattern: string, value: string)
    requires previous != current && previous.Length == current.Length == |value| + 1
    requires IsRow(previous, pattern, value, |value| + 1)
    modifies current
    ensures IsRow(current, pattern + "*", value, |value| + 1)
  {
    current[0] := previous[0];
    StarAtEnd(pattern, value[..0]);
    StarStep(pattern, value[..0]);
    for j := 1 to |value| + 1
      invariant IsRow(current, pattern + "*", value, j)
    {
      StarAtEnd(pattern, value[..j]);
      StarAtEnd(pattern, value[..j - 1]);
      StarStep(pattern, value[..j]);
      assert value[..j][..j - 1] == value[..j - 1];
      current[j] := previous[j] || current[j - 1];
    }
  }

  method TokenRow(previous: array<bool>, current: array<bool>, pattern: string, token: char, value: string)
    requires previous != current && previous.Length == current.Length == |value| + 1
    requires IsRow(previous, pattern, value, |value| + 1) && token != '*' && !current[0]
    modifies current
    ensures IsRow(current, pattern + [token], value, |value| + 1)
  {
    TokenAtEnd(pattern, token, value[..0]);
    for j := 1 to |value| + 1
      invariant IsRow(current, pattern + [token], value, j)
    {
      TokenAtEnd(pattern, token, value[..j]);
      assert value[..j][..j - 1] == value[..j - 1];
      current[j] := previous[j - 1] && (token == '?' || token == value[j - 1]);
    }
  }

  /** The two-row dynamic program: after k tokens the row is the one of the k-token prefix. */
  method Wildcard(pattern: string, value: string) returns (matches: bool)
    ensures matches == Matches(pattern, value)
  {
    var n := |value|;
    var previous, current := new bool[n + 1](_ => false), new bool[n + 1](_ => false);
    previous[0] := true;
    for k := 0 to |pattern|
      invariant fresh(previous) && fresh(current)
      invariant previous != current && previous.Length == current.Length == n + 1
      invariant IsRow(previous, pattern[..k], value, n + 1)
    {
      forall j | 0 <= j <= n { current[j] := false; }
      assert pattern[..k + 1] == pattern[..k] + [pattern[k]];
      if pattern[k] == '*' {
        StarRow(previous, current, pattern[..k], value);
      } else {
        TokenRow(previous, current, pattern[..k], pattern[k], value);
      }
      previous, current := current, previous;
    }
    assert pattern[..|pattern|] == pattern && value[..n] == value;
    matches := previous[n];
  }
}
