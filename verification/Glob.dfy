/** Shell patterns as fnmatch.fnmatchcase reads them, and the escape that makes one match a single string
    (literal_resource_pattern in shadowscan/registry.py). */
module Glob {
  // ---------------------------------------------------------------- patterns

  datatype Member = Single(c: char) | Span(low: char, high: char)

  datatype Token = Star | Any | Literal(c: char) | Class(negated: bool, members: seq<Member>)

  // The first position of a closing bracket at or after i, or |p|.
  function Closing(p: string, i: nat): (j: nat)
    requires i <= |p|
    ensures i <= j <= |p| && (j < |p| ==> p[j] == ']') && forall k :: i <= k < j ==> p[k] != ']'
    decreases |p| - i
  {
    if i == |p| || p[i] == ']' then i else Closing(p, i + 1)
  }

  // Where the class that p opens ends: a `!` and a bracket right after it belong to the class.
  function ClassEnd(p: string): (j: nat)
    requires p != ""
    ensures 0 < j <= |p|
  {
    var i := if 1 < |p| && p[1] == '!' then 2 else 1;
    Closing(p, if i < |p| && p[i] == ']' then i + 1 else i)
  }

  function Members(s: string): seq<Member> {
    if s == "" then []
    else if 2 < |s| && s[1] == '-' then [Span(s[0], s[2])] + Members(s[3..])
    else [Single(s[0])] + Members(s[1..])
  }

  function ClassOf(s: string): Token {
    if s != "" && s[0] == '!' then Class(true, Members(s[1..])) else Class(false, Members(s))
  }

  function Tokens(p: string): seq<Token>
    decreases |p|
  {
    if p == "" then []
    else if p[0] == '*' then [Star] + Tokens(p[1..])
    else if p[0] == '?' then [Any] + Tokens(p[1..])
    else if p[0] == '[' && ClassEnd(p) < |p| then [ClassOf(p[1..ClassEnd(p)])] + Tokens(p[ClassEnd(p) + 1..])
    else [Literal(p[0])] + Tokens(p[1..])
  }

  predicate Includes(m: Member, c: char) {
    match m
    case Single(x) => x == c
    case Span(low, high) => low <= c <= high
  }

  predicate Accepts(t: Token, c: char) {
    match t
    case Star => false
    case Any => true
    case Literal(x) => x == c
    case Class(negated, members) => negated != exists m :: m in members && Includes(m, c)
  }

  predicate MatchesTokens(s: string, ts: seq<Token>)
    decreases |ts|, |s|
  {
    if ts == [] then s == ""
    else if ts[0].Star? then MatchesTokens(s, ts[1..]) || (s != "" && MatchesTokens(s[1..], ts))
    else s != "" && Accepts(ts[0], s[0]) && MatchesTokens(s[1..], ts[1..])
  }

  /** fnmatchcase: the whole string against the whole pattern. */
  predicate Matches(s: string, pattern: string) {
    MatchesTokens(s, Tokens(pattern))
  }

  // ---------------------------------------------------------------- the escape

  function Escaped(c: char): string {
    if c == '*' then "[*]" else if c == '?' then "[?]" else if c == '[' then "[[]" else [c]
  }

  function LiteralPattern(resource: string): string {
    if resource == "" then "" else Escaped(resource[0]) + LiteralPattern(resource[1..])
  }

  function EscapedToken(c: char): Token {
    if c == '*' || c == '?' || c == '[' then Class(false, [Single(c)]) else Literal(c)
  }

  lemma EscapedCharIsOneToken(c: char, rest: string)
    ensures Tokens(Escaped(c) + rest) == [EscapedToken(c)] + Tokens(rest)
  {
    var p := Escaped(c) + rest;
    if c == '*' || c == '?' || c == '[' {
      assert p[0] == '[' && p[1] == c && p[2] == ']';
      assert Closing(p, 2) == 2 && Closing(p, 1) == 2 && ClassEnd(p) == 2;
      assert p[1..2] == [c] && p[3..] == rest;
      assert Members([c]) == [Single(c)] by { assert [c][1..] == ""; }
    } else {
      assert p[0] == c && p[1..] == rest;
    }
  }

  lemma EscapedTokenAcceptsOnly(c: char, x: char)
    ensures Accepts(EscapedToken(c), x) <==> x == c
  {
    if c == '*' || c == '?' || c == '[' {
      assert Single(c) in [Single(c)];
    }
  }

  /** An escaped resource matches exactly itself. */
  lemma {:induction false} LiteralMatchesOnlyItself(resource: string, s: string)
    ensures Matches(s, LiteralPattern(resource)) <==> s == resource
  {
    if resource != "" {
      var c, rest := resource[0], resource[1..];
      EscapedCharIsOneToken(c, LiteralPattern(rest));
      var ts := Tokens(LiteralPattern(resource));
      assert ts[0] == EscapedToken(c) && ts[1..] == Tokens(LiteralPattern(rest));
      assert resource == [c] + rest;
      if s != "" {
        EscapedTokenAcceptsOnly(c, s[0]);
        LiteralMatchesOnlyItself(rest, s[1..]);
        assert s == [s[0]] + s[1..];
      }
    }
  }

  /** Without the escape a resource can match others: the escape is what makes the approval exact. */
  lemma UnescapedMatchesMore()
    ensures Matches("agent-1", "agent-*") && !Matches("agent-1", LiteralPattern("agent-*"))
  {
    LiteralMatchesOnlyItself("agent-*", "agent-1");
    assert Tokens("*") == [Star] by { assert "*"[1..] == ""; }
    PlainPrefix("agent-", "*");
    PlainMatch("agent-", "1", Tokens("*"));
    assert "agent-" + "*" == "agent-*" && "agent-" + "1" == "agent-1";
    assert MatchesTokens("1", [Star]) by { assert "1"[1..] == "" && [Star][1..] == []; assert MatchesTokens("", [Star]); }
  }

  function Literals(s: string): seq<Token> {
    seq(|s|, i requires 0 <= i < |s| => Literal(s[i]))
  }

  lemma {:induction false} PlainPrefix(s: string, rest: string)
    requires forall c :: c in s ==> c !in "*?["
    ensures Tokens(s + rest) == Literals(s) + Tokens(rest)
  {
    if s == "" {
      assert s + rest == rest;
    } else {
      assert (s + rest)[1..] == s[1..] + rest;
      assert s[0] in s;
      PlainPrefix(s[1..], rest);
      assert Literals(s) == [Literal(s[0])] + Literals(s[1..]);
    }
  }

  lemma {:induction false} PlainMatch(s: string, rest: string, ts: seq<Token>)
    ensures MatchesTokens(s + rest, Literals(s) + ts) <==> MatchesTokens(rest, ts)
  {
    if s == "" {
      assert s + rest == rest && Literals(s) + ts == ts;
    } else {
      assert (s + rest)[1..] == s[1..] + rest;
      assert (Literals(s) + ts)[1..] == Literals(s[1..]) + ts;
      PlainMatch(s[1..], rest, ts);
    }
  }
}
