/** Searching file names: the search text is escaped so that LIKE takes it literally. */
module LikeEscape {
  import opened FrameResults

  /** Every occurrence of one character replaced by a text. */
  function ReplaceAll(s: string, c: char, with: string): string {
    if s == "" then "" else (if s[0] == c then with else [s[0]]) + ReplaceAll(s[1..], c, with)
  }

  /** The three replacements, one after the other. */
  function Escape(s: string): string {
    ReplaceAll(ReplaceAll(ReplaceAll(s, '\\', "\\\\"), '%', "\\%"), '_', "\\_")
  }

  predicate Special(c: char) {
    c == '\\' || c == '%' || c == '_'
  }

  /** One pass: a backslash before each special character. */
  function EscapeOnce(s: string): string {
    if s == "" then "" else (if Special(s[0]) then ['\\', s[0]] else [s[0]]) + EscapeOnce(s[1..])
  }

  lemma {:induction false} ReplaceConcat(a: string, b: string, c: char, with: string)
    ensures ReplaceAll(a + b, c, with) == ReplaceAll(a, c, with) + ReplaceAll(b, c, with)
  {
    if a == "" {
      assert a + b == b;
    } else {
      assert (a + b)[1..] == a[1..] + b;
      ReplaceConcat(a[1..], b, c, with);
    }
  }

  lemma EscapeConcat(a: string, b: string)
    ensures Escape(a + b) == Escape(a) + Escape(b)
  {
    var a1, b1 := ReplaceAll(a, '\\', "\\\\"), ReplaceAll(b, '\\', "\\\\");
    ReplaceConcat(a, b, '\\', "\\\\");
    ReplaceConcat(a1, b1, '%', "\\%");
    ReplaceConcat(ReplaceAll(a1, '%', "\\%"), ReplaceAll(b1, '%', "\\%"), '_', "\\_");
  }

  lemma ReplaceTwo(x: char, y: char, c: char, with: string)
    requires x != c && y != c
    ensures ReplaceAll([x, y], c, with) == [x, y]
  {
    assert [x, y] == [x] + [y];
    ReplaceConcat([x], [y], c, with);
  }

  lemma EscapeOne(c: char)
    ensures Escape([c]) == if Special(c) then ['\\', c] else [c]
  {
    if c == '\\' {
      ReplaceTwo('\\', '\\', '%', "\\%");
      ReplaceTwo('\\', '\\', '_', "\\_");
    } else if c == '%' {
      ReplaceTwo('\\', '%', '_', "\\_");
    }
  }

  /** The order of the replacements is right: no inserted backslash is escaped again. */
  lemma {:induction false} EscapeIsOnePass(s: string)
    ensures Escape(s) == EscapeOnce(s)
  {
    if s == "" {
    } else {
      assert s == [s[0]] + s[1..];
      EscapeConcat([s[0]], s[1..]);
      EscapeOne(s[0]);
      EscapeIsOnePass(s[1..]);
    }
  }

  // ----- LIKE -----

  /**
   The LIKE predicate with escape character `\` (section 8.5 of ISO/IEC 9075-2).  `same` says
   which characters are taken as equal, so ILIKE is the instance that ignores case.
   */
  predicate Like(p: string, x: string, same: (char, char) -> bool)
    decreases |p|
  {
    if p == "" then x == ""
    else if p[0] == '\\' then |p| >= 2 && x != "" && same(p[1], x[0]) && Like(p[2..], x[1..], same)
    else if p[0] == '%' then exists k :: 0 <= k <= |x| && Like(p[1..], x[k..], same)
    else if p[0] == '_' then x != "" && Like(p[1..], x[1..], same)
    else x != "" && same(p[0], x[0]) && Like(p[1..], x[1..], same)
  }

  predicate StartsWith(x: string, s: string, same: (char, char) -> bool) {
    |s| <= |x| && forall i :: 0 <= i < |s| ==> same(s[i], x[i])
  }

  ghost predicate Contains(x: string, s: string, same: (char, char) -> bool) {
    exists k :: 0 <= k <= |x| && StartsWith(x[k..], s, same)
  }

  lemma TrailingPercent(x: string, same: (char, char) -> bool)
    ensures Like("%", x, same)
  {
    assert "%"[1..] == "" && x[|x|..] == "";
    assert Like("%"[1..], x[|x|..], same);
  }

  /** An escaped text matches itself literally, whatever it contains. */
  lemma {:induction false} EscapedIsLiteral(s: string, x: string, same: (char, char) -> bool)
    ensures Like(EscapeOnce(s) + "%", x, same) <==> StartsWith(x, s, same)
  {
    var p := EscapeOnce(s) + "%";
    if s == "" {
      assert p == "%";
      TrailingPercent(x, same);
    } else {
      var rest := EscapeOnce(s[1..]) + "%";
      assert p == (if Special(s[0]) then ['\\', s[0]] else [s[0]]) + rest;
      assert if Special(s[0]) then p[2..] == rest else p[1..] == rest;
      if x != "" {
        EscapedIsLiteral(s[1..], x[1..], same);
        assert StartsWith(x, s, same) <==> same(s[0], x[0]) && StartsWith(x[1..], s[1..], same);
      }
    }
  }

  /** The pattern built for a search matches exactly the names that contain the text. */
  lemma SearchIsContains(s: string, x: string, same: (char, char) -> bool)
    ensures Like("%" + Escape(s) + "%", x, same) <==> Contains(x, s, same)
  {
    EscapeIsOnePass(s);
    var rest := EscapeOnce(s) + "%";
    var p := "%" + Escape(s) + "%";
    assert p == "%" + rest && p[1..] == rest;
    forall k | 0 <= k <= |x|
      ensures Like(rest, x[k..], same) <==> StartsWith(x[k..], s, same)
    {
      EscapedIsLiteral(s, x[k..], same);
    }
    assert Like(p, x, same) <==> exists k :: 0 <= k <= |x| && Like(p[1..], x[k..], same);
  }

  /** The filter a listing applies: none for a blank search. */
  predicate Listed(search: string, name: string, same: (char, char) -> bool) {
    var s := TrimSpace(search);
    s == "" || Like("%" + Escape(s) + "%", name, same)
  }

  /** A listing shows exactly the names containing the trimmed search text. */
  lemma ListedIsContains(search: string, name: string, same: (char, char) -> bool)
    ensures Listed(search, name, same) <==> Contains(name, TrimSpace(search), same)
  {
    var s := TrimSpace(search);
    SearchIsContains(s, name, same);
    if s == "" {
      assert StartsWith(name[0..], s, same);
    }
  }
}
