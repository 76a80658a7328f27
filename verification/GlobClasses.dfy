/** What the wildcards and character classes of a shell pattern stand for. */
module GlobClasses {
  import opened Glob

  // ---------------------------------------------------------------- the wildcards

  /** `?` stands for one character, whichever. */
  lemma AnyMatchesOne(s: string, p: string)
    ensures Matches(s, "?" + p) <==> s != "" && Matches(s[1..], p)
  {
    assert ("?" + p)[1..] == p;
  }

  /** `*` stands for any text, of any length. */
  lemma {:induction false} StarMatchesAll(s: string, p: string)
    ensures Matches(s, "*" + p) <==> exists k :: 0 <= k <= |s| && Matches(s[k..], p)
  {
    assert ("*" + p)[1..] == p;
    assert s[0..] == s;
    if s != "" {
      StarMatchesAll(s[1..], p);
      forall k | 0 <= k <= |s[1..]| ensures s[1..][k..] == s[k + 1..] { }
      if k :| 0 <= k <= |s| && Matches(s[k..], p) {
        if k > 0 { assert s[1..][k - 1..] == s[k..]; }
      }
      if k :| 0 <= k <= |s[1..]| && Matches(s[1..][k..], p) { assert s[k + 1..] == s[1..][k..]; }
    }
  }

  // ---------------------------------------------------------------- classes

  // A class with the text s between its brackets, in front of p.
  lemma ClassToken(s: string, p: string)
    requires s != "" && s != "!"
    requires forall i :: (if s[0] == '!' then 2 else 1) <= i < |s| ==> s[i] != ']'
    ensures Tokens("[" + s + "]" + p) == [ClassOf(s)] + Tokens(p)
  {
    var q := "[" + s + "]" + p;
    var n := |s| + 1;
    assert q[0] == '[' && q[n] == ']' && (forall i :: 1 <= i < n ==> q[i] == s[i - 1]);
    var first := if s[0] == '!' then 2 else 1;
    var from := if q[first] == ']' then first + 1 else first;
    assert Closing(q, from) == n by {
      assert from <= n && forall i :: from <= i < n ==> q[i] != ']';
    }
    assert ClassEnd(q) == n;
    assert q[1..n] == s && q[n + 1..] == p;
  }

  lemma ClassMatches(s: string, c: char, t: string, p: string)
    requires s != "" && s != "!"
    requires forall i :: (if s[0] == '!' then 2 else 1) <= i < |s| ==> s[i] != ']'
    ensures Matches([c] + t, "[" + s + "]" + p) <==> Accepts(ClassOf(s), c) && Matches(t, p)
    ensures !Matches("", "[" + s + "]" + p)
  {
    ClassToken(s, p);
    assert ([c] + t)[1..] == t;
    var ts := [ClassOf(s)] + Tokens(p);
    assert ts[1..] == Tokens(p) && !ts[0].Star?;
  }

  /** `[a-b]` stands for any character from a to b, both included. */
  lemma RangeMatches(a: char, b: char, c: char, t: string, p: string)
    requires a != '!' && b != ']'
    ensures Matches([c] + t, "[" + [a, '-', b] + "]" + p) <==> a <= c <= b && Matches(t, p)
  {
    var s := [a, '-', b];
    assert s[3..] == "" && Members("") == [];
    assert Members(s) == [Span(a, b)];
    assert Span(a, b) in [Span(a, b)];
    ClassMatches(s, c, t, p);
  }

  lemma {:induction false} PlainMembers(s: string, c: char)
    requires '-' !in s
    ensures (exists m :: m in Members(s) && Includes(m, c)) <==> c in s
  {
    if s != "" {
      PlainMembers(s[1..], c);
      var first := Single(s[0]);
      assert s == [s[0]] + s[1..];
      assert Members(s) == [first] + Members(s[1..]);
      assert first in Members(s) && (Includes(first, c) <==> c == s[0]);
    }
  }

  /** `[xyz]` stands for any of the characters it lists, and a bracket that comes first is one of them. */
  lemma ListMatches(s: string, c: char, t: string, p: string)
    requires s != "" && s[0] != '!' && '-' !in s && ']' !in s[1..]
    ensures Matches([c] + t, "[" + s + "]" + p) <==> c in s && Matches(t, p)
  {
    assert forall i :: 1 <= i < |s| ==> s[i] in s[1..];
    PlainMembers(s, c);
    ClassMatches(s, c, t, p);
  }

  /** `[!x]` stands for any character but x, a closing bracket included. */
  lemma NegatedMatches(x: char, c: char, t: string, p: string)
    ensures Matches([c] + t, "[" + ['!', x] + "]" + p) <==> c != x && Matches(t, p)
  {
    var s := ['!', x];
    assert s[1..] == [x] && [x][1..] == "";
    assert Members([x]) == [Single(x)];
    assert Single(x) in [Single(x)];
    ClassMatches(s, c, t, p);
  }

  /** A class can hold a range and a character at once. */
  lemma RangeAndMore(a: char, b: char, x: char, c: char, t: string, p: string)
    requires a != '!' && b != ']' && x != ']'
    ensures Matches([c] + t, "[" + [a, '-', b, x] + "]" + p) <==> (a <= c <= b || c == x) && Matches(t, p)
  {
    var s := [a, '-', b, x];
    assert s[3..] == [x] && [x][1..] == "";
    assert Members([x]) == [Single(x)];
    assert Members(s) == [Span(a, b), Single(x)];
    assert Span(a, b) in Members(s) && Single(x) in Members(s);
    ClassMatches(s, c, t, p);
  }

  /** A bracket that nothing closes stands for itself, and so does one whose only closing bracket belongs to the class. */
  lemma UnclosedIsLiteral(s: string, t: string)
    requires forall i :: 1 <= i < |s| ==> s[i] != ']'
    ensures Matches(t, "[" + s) <==> t != "" && t[0] == '[' && Matches(t[1..], s)
  {
    var q := "[" + s;
    assert q[1..] == s && forall i :: 2 <= i < |q| ==> q[i] == s[i - 1];
    var first := if 1 < |q| && q[1] == '!' then 2 else 1;
    assert ClassEnd(q) == |q|;
    assert Tokens(q) == [Literal('[')] + Tokens(s);
    assert ([Literal('[')] + Tokens(s))[1..] == Tokens(s);
  }
}
