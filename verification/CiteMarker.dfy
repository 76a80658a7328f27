/** The single-pass search for citation markers (_has_cite_marker in shadowscan/registry.py) against the regular
    expression it stands for. */
module CiteMarker {
  // ---------------------------------------------------------------- the regular expression

  // Except(c) is a run of characters other than c.
  datatype Regex = Text(text: string) | Except(c: char) | Optional(r: Regex) | Then(first: Regex, rest: Regex)

  ghost predicate InLanguage(s: string, r: Regex)
    decreases r
  {
    match r
    case Text(text) => s == text
    case Except(c) => c !in s
    case Optional(x) => s == "" || InLanguage(s, x)
    case Then(a, b) => exists k :: 0 <= k <= |s| && InLanguage(s[..k], a) && InLanguage(s[k..], b)
  }

  // \[cite(?:_start)?(?::[^\]]*)?\]
  const CITE: Regex :=
    Then(Text("[cite"), Then(Optional(Text("_start")), Then(Optional(Then(Text(":"), Except(']'))), Text("]"))))

  /** CITE.search(text) finds something. */
  ghost predicate Found(text: string) {
    exists i :: 0 <= i <= |text| && MatchFrom(text, i)
  }

  ghost predicate MatchFrom(text: string, i: nat)
    requires i <= |text|
  {
    exists j :: i <= j <= |text| && InLanguage(text[i..j], CITE)
  }

  // ---------------------------------------------------------------- what a marker looks like

  predicate StartsWith(text: string, prefix: string, i: nat) {
    i + |prefix| <= |text| && text[i..i + |prefix|] == prefix
  }

  // Where the optional "_start" after "[cite" at i ends.
  function AfterStart(text: string, i: nat): (k: nat)
    requires StartsWith(text, "[cite", i)
    ensures k <= |text|
  {
    if StartsWith(text, "_start", i + 5) then i + 11 else i + 5
  }

  // A marker begins at i: a closing bracket follows at once, or a colon and, later, a closing bracket.
  predicate MarkerAt(text: string, i: nat) {
    && StartsWith(text, "[cite", i)
    && var k := AfterStart(text, i);
       StartsWith(text, "]", k) || (StartsWith(text, ":", k) && exists j :: k < j < |text| && text[j] == ']')
  }

  lemma TextSplit(s: string, prefix: string, r: Regex)
    ensures InLanguage(s, Then(Text(prefix), r)) <==> |prefix| <= |s| && s[..|prefix|] == prefix && InLanguage(s[|prefix|..], r)
  {
    if |prefix| <= |s| && s[..|prefix|] == prefix && InLanguage(s[|prefix|..], r) {
      assert InLanguage(s[..|prefix|], Text(prefix));
    }
  }

  lemma OptionalSplit(s: string, x: Regex, r: Regex)
    ensures InLanguage(s, Then(Optional(x), r)) <==> InLanguage(s, r) || InLanguage(s, Then(x, r))
  {
    if InLanguage(s, r) {
      assert s[..0] == "" && s[0..] == s;
      assert InLanguage(s[..0], Optional(x));
    }
    if InLanguage(s, Then(x, r)) {
      var k :| 0 <= k <= |s| && InLanguage(s[..k], x) && InLanguage(s[k..], r);
      assert InLanguage(s[..k], Optional(x));
    }
    if InLanguage(s, Then(Optional(x), r)) {
      var k :| 0 <= k <= |s| && InLanguage(s[..k], Optional(x)) && InLanguage(s[k..], r);
      if k == 0 || s[..k] == "" { assert s[k..] == s; }
    }
  }

  const BODY: Regex := Then(Text(":"), Except(']'))
  const TAIL: Regex := Then(Optional(BODY), Text("]"))

  predicate IsTail(s: string) {
    s == "]" || IsLongTail(s)
  }

  lemma TailIs(s: string)
    ensures InLanguage(s, TAIL) <==> IsTail(s)
  {
    OptionalSplit(s, BODY, Text("]"));
    LongTailIs(s);
    hide InLanguage;
    assert InLanguage(s, Text("]")) <==> s == "]" by { TextIs(s, "]"); }
  }

  lemma TextIs(s: string, text: string)
    ensures InLanguage(s, Text(text)) <==> s == text
  {
  }

  predicate IsLongTail(s: string) {
    |s| >= 2 && s[0] == ':' && s[|s| - 1] == ']' && forall k :: 0 <= k < |s| - 1 ==> s[k] != ']'
  }

  lemma LongTailIs(s: string)
    ensures InLanguage(s, Then(BODY, Text("]"))) <==> IsLongTail(s)
  {
    if InLanguage(s, Then(BODY, Text("]"))) {
      var k :| 0 <= k <= |s| && InLanguage(s[..k], BODY) && InLanguage(s[k..], Text("]"));
      TextIs(s[k..], "]");
      BodyIs(s[..k]);
      hide InLanguage;
      assert s[k..][0] == s[k] && k == |s| - 1;
      forall i | 0 <= i < k ensures s[i] != ']' { assert s[i] == s[..k][i]; }
      assert s[0] == s[..k][0];
    }
    if IsLongTail(s) {
      var k := |s| - 1;
      BodyIs(s[..k]);
      assert s[k..] == "]";
      TextIs(s[k..], "]");
      assert InLanguage(s[..k], BODY) && InLanguage(s[k..], Text("]"));
    }
  }

  lemma BodyIs(s: string)
    ensures InLanguage(s, BODY) <==> s != "" && s[0] == ':' && forall k :: 0 <= k < |s| ==> s[k] != ']'
  {
    TextSplit(s, ":", Except(']'));
    if s != "" {
      assert s[..1] == ":" <==> s[0] == ':';
      assert forall k :: 1 <= k < |s| ==> s[k] == s[1..][k - 1];
    }
  }

  lemma CiteIs(s: string)
    ensures InLanguage(s, CITE) <==>
            |s| >= 5 && s[..5] == "[cite"
            && (IsTail(s[5..]) || (|s| >= 11 && s[5..11] == "_start" && IsTail(s[11..])))
  {
    TextSplit(s, "[cite", Then(Optional(Text("_start")), TAIL));
    if |s| >= 5 {
      var t := s[5..];
      OptionalSplit(t, Text("_start"), TAIL);
      TextSplit(t, "_start", TAIL);
      TailIs(t);
      if |t| >= 6 {
        assert t[..6] == s[5..11] && t[6..] == s[11..];
        TailIs(t[6..]);
      }
    }
  }

  // A tail can be cut from position k.
  ghost predicate TailFrom(text: string, k: nat) {
    exists j :: k <= j <= |text| && IsTail(text[k..j])
  }

  lemma TailFromIs(text: string, k: nat)
    requires k <= |text|
    ensures TailFrom(text, k) <==>
            StartsWith(text, "]", k) || (StartsWith(text, ":", k) && exists j :: k < j < |text| && text[j] == ']')
  {
    if TailFrom(text, k) {
      var j :| k <= j <= |text| && IsTail(text[k..j]);
      var s := text[k..j];
      assert s[0] == text[k] && s[|s| - 1] == text[j - 1];
      assert text[k..k + 1] == [text[k]];
    }
    if StartsWith(text, "]", k) {
      assert IsTail(text[k..k + 1]);
    } else if StartsWith(text, ":", k) && exists j :: k < j < |text| && text[j] == ']' {
      var j := FirstBracket(text, k + 1);
      assert text[k] == text[k..k + 1][0] == ':';
      var s := text[k..j + 1];
      assert s[0] == ':' && s[|s| - 1] == ']' && forall i :: 0 <= i < |s| - 1 ==> s[i] == text[k + i];
      assert IsTail(s);
    }
  }

  lemma FirstBracket(text: string, k: nat) returns (j: nat)
    requires exists i :: k <= i < |text| && text[i] == ']'
    ensures k <= j < |text| && text[j] == ']' && forall i :: k <= i < j ==> text[i] != ']'
    decreases |text| - k
  {
    if text[k] == ']' { j := k; } else { j := FirstBracket(text, k + 1); }
  }

  /** The expression matches at i exactly when a marker begins there. */
  lemma MarkerIsMatch(text: string, i: nat)
    requires i <= |text|
    ensures MarkerAt(text, i) <==> MatchFrom(text, i)
  {
    if MarkerAt(text, i) { MarkerMatches(text, i); }
    if MatchFrom(text, i) { MatchIsMarker(text, i); }
  }

  lemma SliceOfSlice(text: string, i: nat, j: nat, a: nat, b: nat)
    requires i <= j <= |text| && a <= b <= j - i
    ensures text[i..j][a..b] == text[i + a..i + b] && text[i..j][a..] == text[i + a..j]
  {
    var s := text[i..j];
    forall k | 0 <= k < b - a ensures s[a..b][k] == text[i + a..i + b][k] { }
    assert s[a..b] == text[i + a..i + b];
    forall k | 0 <= k < j - i - a ensures s[a..][k] == text[i + a..j][k] { }
    assert s[a..] == text[i + a..j];
  }

  lemma MarkerMatches(text: string, i: nat)
    requires i <= |text| && MarkerAt(text, i)
    ensures MatchFrom(text, i)
  {
    hide InLanguage, IsTail;
    var k := AfterStart(text, i);
    TailFromIs(text, k);
    var j :| k <= j <= |text| && IsTail(text[k..j]);
    var s := text[i..j];
    SliceOfSlice(text, i, j, 0, 5);
    SliceOfSlice(text, i, j, 5, 5);
    if k == i + 11 {
      SliceOfSlice(text, i, j, 5, 11);
      SliceOfSlice(text, i, j, 11, 11);
    }
    CiteIs(s);
  }

  lemma MatchIsMarker(text: string, i: nat)
    requires i <= |text| && MatchFrom(text, i)
    ensures MarkerAt(text, i)
  {
    hide InLanguage, IsTail, IsLongTail;
    var j :| i <= j <= |text| && InLanguage(text[i..j], CITE);
    var s := text[i..j];
    CiteIs(s);
    SliceOfSlice(text, i, j, 0, 5);
    SliceOfSlice(text, i, j, 5, 5);
    assert StartsWith(text, "[cite", i);
    TailHead(s[5..]);
    if IsTail(s[5..]) {
      assert s[5..][0] == text[i + 5];
      NotStart(text, i + 5);
      assert IsTail(text[AfterStart(text, i)..j]);
    } else {
      SliceOfSlice(text, i, j, 5, 11);
      SliceOfSlice(text, i, j, 11, 11);
      assert IsTail(text[AfterStart(text, i)..j]);
    }
    assert TailFrom(text, AfterStart(text, i));
    TailFromIs(text, AfterStart(text, i));
  }

  lemma TailHead(t: string)
    ensures IsTail(t) ==> t != "" && (t[0] == ':' || t[0] == ']')
  {
  }

  lemma NotStart(text: string, k: nat)
    requires k < |text| && (text[k] == ':' || text[k] == ']')
    ensures !StartsWith(text, "_start", k)
  {
    if k + 6 <= |text| { assert text[k..k + 6][0] == text[k]; }
  }

  // ---------------------------------------------------------------- the search

  // str.find: the first occurrence of sub at or after `from`, or -1.
  method Find(text: string, sub: string, from: nat) returns (r: int)
    requires sub != ""
    ensures r == -1 || (from <= r && StartsWith(text, sub, r))
    ensures forall i :: from <= i && (r == -1 || i < r) ==> !StartsWith(text, sub, i)
  {
    r := from;
    while r + |sub| <= |text|
      invariant from <= r
      invariant forall i :: from <= i < r ==> !StartsWith(text, sub, i)
    {
      if text[r..r + |sub|] == sub {
        return;
      }
      r := r + 1;
    }
    r := -1;
  }

  /** After an unclosed "[cite:" no later marker can close either. */
  lemma NothingClosesLater(text: string, start: nat, i: nat)
    requires StartsWith(text, "[cite", start) && StartsWith(text, ":", AfterStart(text, start))
    requires forall j :: AfterStart(text, start) < j < |text| ==> text[j] != ']'
    requires start <= i
    ensures !MarkerAt(text, i)
  {
    var k := AfterStart(text, start);
    assert text[start..start + 5] == "[cite" && text[k..k + 1] == ":";
    forall j | start <= j <= k ensures text[j] != ']' {
      if j < start + 5 { assert text[j] == text[start..start + 5][j - start]; }
      else if j < k { assert text[start + 5..start + 11] == "_start"; assert text[j] == text[start + 5..start + 11][j - start - 5]; }
      else { assert text[j] == text[k..k + 1][0]; }
    }
    if StartsWith(text, "[cite", i) { BracketAt(text, AfterStart(text, i)); }
  }

  lemma BracketAt(text: string, m: nat)
    ensures StartsWith(text, "]", m) <==> m < |text| && text[m] == ']'
  {
    if m < |text| { assert text[m..m + 1] == [text[m]]; }
  }

  method HasCiteMarker(text: string) returns (found: bool)
    ensures found <==> Found(text)
  {
    var start := Find(text, "[cite", 0);
    while start >= 0
      invariant start == -1 || (0 <= start && StartsWith(text, "[cite", start))
      invariant forall i :: 0 <= i && (start == -1 || i < start) ==> !MarkerAt(text, i)
      decreases if start >= 0 then |text| - start else -1
    {
      var after := start + |"[cite"|;
      if StartsWith(text, "_start", after) {
        after := after + |"_start"|;
      }
      if StartsWith(text, "]", after) {
        MarkerIsMatch(text, start);
        return true;
      }
      if StartsWith(text, ":", after) {
        var close := Find(text, "]", after + 1);
        found := close >= 0;
        if found {
          BracketAt(text, close);
          MarkerIsMatch(text, start);
        } else {
          forall j | after < j < |text| ensures text[j] != ']' { BracketAt(text, j); }
          forall i | start <= i ensures !MarkerAt(text, i) { NothingClosesLater(text, start, i); }
          NothingFound(text);
        }
        return;
      }
      start := Find(text, "[cite", start + 1);
    }
    NothingFound(text);
    found := false;
  }

  lemma NothingFound(text: string)
    requires forall i :: 0 <= i ==> !MarkerAt(text, i)
    ensures !Found(text)
  {
    forall i | 0 <= i <= |text| ensures !MatchFrom(text, i) {
      MarkerIsMatch(text, i);
    }
  }
}
