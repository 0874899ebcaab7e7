/**
 Which part of a Rust source counts: the two expressions that find a test-only file and test modules, matched
 from left to right, and the cut before a trailing test module.
 */
module RustHeaders {
  import opened Options
  import opened RustScanner

  const CLOSE_BRACKET: Unit := 93
  const CLOSE_PAREN: Unit := 41
  const OPEN_PAREN: Unit := 40
  const CFG_START: Text := Units("\n#[cfg(")
  const CFG_END: Text := Units(")]")
  const TEST: Text := Units("test")
  const PUB: Text := Units("pub")
  const MOD_TESTS: Text := Units("mod tests {")
  const INNER_CFG_TEST: Text := Units("#![cfg(test)]")

  function Units(s: string): (u: Text)
    requires forall i :: 0 <= i < |s| ==> s[i] as int < 0x80
    ensures |u| == |s| && forall i :: 0 <= i < |s| ==> u[i] == s[i] as int
  {
    seq(|s|, i requires 0 <= i < |s| => s[i] as int)
  }

  /** The units of `\w`. */
  predicate IsWord(u: Unit) {
    48 <= u <= 57 || 65 <= u <= 90 || u == 95 || 97 <= u <= 122
  }

  /** `\b` in front of unit k. */
  predicate Boundary(text: Text, k: nat)
    requires k <= |text|
  {
    (k > 0 && IsWord(text[k - 1])) != (k < |text| && IsWord(text[k]))
  }

  // ---- What the expressions match ----

  predicate Spaces(text: Text, a: nat, b: nat) {
    a <= b <= |text| && forall i :: a <= i < b ==> IsSpace(text[i])
  }

  /** `[^\]\n]*` from a to b. */
  predicate WithinLine(text: Text, a: nat, b: nat) {
    a <= b <= |text| && forall i :: a <= i < b ==> text[i] != CLOSE_BRACKET && text[i] != NEWLINE
  }

  /** `\btest\b` at k. */
  predicate TestAt(text: Text, k: nat) {
    HasAt(text, k, TEST) && Boundary(text, k) && Boundary(text, k + 4)
  }

  /** `(?:\([^)]*\))?` from a to v. */
  predicate Scope(text: Text, a: nat, v: nat) {
    || a == v
    || (a + 1 < v <= |text| && text[a] == OPEN_PAREN && text[v - 1] == CLOSE_PAREN
        && forall i :: a < i < v - 1 ==> text[i] != CLOSE_PAREN)
  }

  /** `(?:pub(?:\([^)]*\))?\s+)?` from a to m. */
  ghost predicate Visibility(text: Text, a: nat, m: nat) {
    a == m || (HasAt(text, a, PUB) && exists v: nat :: Scope(text, a + 3, v) && v < m && Spaces(text, v, m))
  }

  /** The whole expression matches from unit i on, up to and including the brace. */
  ghost predicate HeaderMatch(text: Text, i: nat, brace: nat) {
    HasAt(text, i, CFG_START) && exists k: nat, c: nat, n: nat, m: nat :: MatchParts(text, i, k, c, n, m, brace)
  }

  /** The parts of a match: the word at k, the closing of the attribute at c, the last newline at n, the module at m. */
  ghost predicate MatchParts(text: Text, i: nat, k: nat, c: nat, n: nat, m: nat, brace: nat) {
    && WithinLine(text, i + |CFG_START|, c) && i + |CFG_START| <= k && k + 4 <= c && TestAt(text, k)
    && HasAt(text, c, CFG_END) && Spaces(text, c + 2, n) && Has(text, n, NEWLINE)
    && Visibility(text, n + 1, m) && HasAt(text, m, MOD_TESTS) && brace == m + |MOD_TESTS| - 1
  }

  // ---- Matching without going back ----

  function SpacesEnd(text: Text, a: nat): (r: nat)
    requires a <= |text|
    ensures Spaces(text, a, r) && (r < |text| ==> !IsSpace(text[r]))
    decreases |text| - a
  {
    if a < |text| && IsSpace(text[a]) then SpacesEnd(text, a + 1) else a
  }

  function LineEnd(text: Text, a: nat): (r: nat)
    requires a <= |text|
    ensures WithinLine(text, a, r) && (r < |text| ==> text[r] == CLOSE_BRACKET || text[r] == NEWLINE)
    decreases |text| - a
  {
    if a < |text| && text[a] != CLOSE_BRACKET && text[a] != NEWLINE then LineEnd(text, a + 1) else a
  }

  function ParenEnd(text: Text, a: nat): (r: nat)
    requires a <= |text|
    ensures a <= r <= |text| && (forall i :: a <= i < r ==> text[i] != CLOSE_PAREN) && (r < |text| ==> text[r] == CLOSE_PAREN)
    decreases |text| - a
  {
    if a < |text| && text[a] != CLOSE_PAREN then ParenEnd(text, a + 1) else a
  }

  /** Is there the word `test` between k and c? */
  predicate FindsTest(text: Text, k: nat, c: nat)
    requires c <= |text|
    ensures FindsTest(text, k, c) <==> exists x :: k <= x && x + 4 <= c && TestAt(text, x)
    decreases c - k
  {
    k + 4 <= c && (TestAt(text, k) || FindsTest(text, k + 1, c))
  }

  function ScopeEnd(text: Text, a: nat): Option<nat> {
    if !Has(text, a, OPEN_PAREN) then Some(a)
    else
      var q := ParenEnd(text, a + 1);
      if q < |text| then Some(q + 1) else None
  }

  /** The brace of the module header at w, with or without its visibility. */
  function ModuleAt(text: Text, w: nat): Option<nat> {
    if HasAt(text, w, MOD_TESTS) then Some(w + |MOD_TESTS| - 1)
    else if !HasAt(text, w, PUB) || ScopeEnd(text, w + 3).None? || ScopeEnd(text, w + 3).value > |text| then None
    else
      var s := ScopeEnd(text, w + 3).value;
      var m := SpacesEnd(text, s);
      if m > s && HasAt(text, m, MOD_TESTS) then Some(m + |MOD_TESTS| - 1) else None
  }

  /** The brace of the match that starts with unit i. */
  function HeaderAt(text: Text, i: nat): Option<nat> {
    if !HasAt(text, i, CFG_START) then None
    else
      var start := i + |CFG_START|;
      var b := LineEnd(text, start);
      if b == start || !Has(text, b, CLOSE_BRACKET) || text[b - 1] != CLOSE_PAREN || !FindsTest(text, start, b - 1) then None
      else
        var w := SpacesEnd(text, b + 1);
        if w == b + 1 || text[w - 1] != NEWLINE then None else ModuleAt(text, w)
  }

  // ---- It is what the expression matches ----

  lemma {:induction false} SpacesEndIs(text: Text, a: nat, r: nat)
    requires Spaces(text, a, r) && (r < |text| ==> !IsSpace(text[r]))
    ensures SpacesEnd(text, a) == r
    decreases r - a
  {
    if a < r {
      SpacesEndIs(text, a + 1, r);
    }
  }

  lemma {:induction false} LineEndIs(text: Text, a: nat, r: nat)
    requires WithinLine(text, a, r) && r < |text| && (text[r] == CLOSE_BRACKET || text[r] == NEWLINE)
    ensures LineEnd(text, a) == r
    decreases r - a
  {
    if a < r {
      LineEndIs(text, a + 1, r);
    }
  }

  lemma {:induction false} ParenEndIs(text: Text, a: nat, r: nat)
    requires a <= r < |text| && text[r] == CLOSE_PAREN && forall i :: a <= i < r ==> text[i] != CLOSE_PAREN
    ensures ParenEnd(text, a) == r
    decreases r - a
  {
    if a < r {
      ParenEndIs(text, a + 1, r);
    }
  }

  lemma FirstUnit(text: Text, i: nat, part: Text)
    requires HasAt(text, i, part) && part != []
    ensures text[i] == part[0]
  {
    assert text[i..i + |part|][0] == text[i];
  }

  /** A module header or a visibility begins with a letter, so the white space before it ends there. */
  lemma HeaderIsNoSpace(text: Text, i: nat)
    requires HasAt(text, i, MOD_TESTS) || HasAt(text, i, PUB)
    ensures i < |text| && !IsSpace(text[i]) && text[i] != OPEN_PAREN
    ensures HasAt(text, i, MOD_TESTS) ==> !HasAt(text, i, PUB)
  {
    if HasAt(text, i, MOD_TESTS) {
      FirstUnit(text, i, MOD_TESTS);
      assert MOD_TESTS[0] == 'm' as int;
    }
    if HasAt(text, i, PUB) {
      FirstUnit(text, i, PUB);
      assert PUB[0] == 'p' as int;
    }
  }

  /** What it means that a module header with its visibility begins at w. */
  ghost predicate ModuleMatch(text: Text, w: nat, brace: nat) {
    exists m: nat :: Visibility(text, w, m) && HasAt(text, m, MOD_TESTS) && brace == m + |MOD_TESTS| - 1
  }

  lemma ModuleIsMatch(text: Text, w: nat, brace: nat)
    requires ModuleAt(text, w) == Some(brace)
    ensures ModuleMatch(text, w, brace)
  {
    hide HasAt, Spaces, IsSpace;
    if HasAt(text, w, MOD_TESTS) {
      assert Visibility(text, w, w);
    } else {
      var s := ScopeEnd(text, w + 3).value;
      assert Scope(text, w + 3, s);
      hide Scope, ScopeEnd;
      assert Visibility(text, w, SpacesEnd(text, s));
    }
  }

  lemma ModuleIsFound(text: Text, w: nat, m: nat)
    requires Visibility(text, w, m) && HasAt(text, m, MOD_TESTS)
    ensures ModuleAt(text, w) == Some(m + |MOD_TESTS| - 1)
  {
    HeaderIsNoSpace(text, m);
    hide HasAt;
    if m != w {
      HeaderIsNoSpace(text, w);
      var v: nat :| Scope(text, w + 3, v) && v < m && Spaces(text, v, m);
      ScopeEndIs(text, w + 3, v);
      hide Scope, ScopeEnd;
      SpacesEndIs(text, v, m);
      hide Spaces, IsSpace;
    }
  }

  lemma ModuleAtMatches(text: Text, w: nat, brace: nat)
    ensures ModuleAt(text, w) == Some(brace) <==> ModuleMatch(text, w, brace)
  {
    hide ModuleAt, Visibility, HasAt;
    if ModuleAt(text, w) == Some(brace) {
      ModuleIsMatch(text, w, brace);
    }
    if ModuleMatch(text, w, brace) {
      var m: nat :| Visibility(text, w, m) && HasAt(text, m, MOD_TESTS) && brace == m + |MOD_TESTS| - 1;
      ModuleIsFound(text, w, m);
    }
  }

  lemma ScopeEndIs(text: Text, a: nat, v: nat)
    requires Scope(text, a, v) && v < |text| && IsSpace(text[v])
    ensures ScopeEnd(text, a) == Some(v)
  {
    if a < v {
      ParenEndIs(text, a + 1, v - 1);
    }
  }

  /** The matcher that never goes back finds exactly what the expression matches. */
  lemma HeaderAtMatches(text: Text, i: nat, brace: nat)
    ensures HeaderAt(text, i) == Some(brace) <==> HeaderMatch(text, i, brace)
  {
    if HeaderAt(text, i) == Some(brace) {
      FoundIsMatch(text, i, brace);
    }
    if HeaderMatch(text, i, brace) {
      var k: nat, c: nat, n: nat, m: nat :| MatchParts(text, i, k, c, n, m, brace);
      MatchIsFound(text, i, k, c, n, m, brace);
    }
  }

  lemma WithinShorter(text: Text, a: nat, b: nat)
    requires WithinLine(text, a, b) && a != b
    ensures WithinLine(text, a, b - 1)
  {
  }

  lemma SpacesShorter(text: Text, a: nat, b: nat)
    requires Spaces(text, a, b) && a != b
    ensures b <= |text| && Spaces(text, a, b - 1)
  {
  }

  lemma AttributeClosing(text: Text, b: nat)
    requires 0 < b < |text| && text[b - 1] == CLOSE_PAREN && text[b] == CLOSE_BRACKET
    ensures HasAt(text, b - 1, CFG_END)
  {
    assert text[b - 1..b + 1] == CFG_END;
  }

  lemma FoundIsMatch(text: Text, i: nat, brace: nat)
    requires HeaderAt(text, i) == Some(brace)
    ensures HeaderMatch(text, i, brace)
  {
    hide HasAt, TestAt, IsSpace, WithinLine, Spaces, ModuleAt, Visibility;
    var start := i + |CFG_START|;
    var b := LineEnd(text, start);
    assert FindsTest(text, start, b - 1);
    var k :| start <= k && k + 4 <= b - 1 && TestAt(text, k);
    var w := SpacesEnd(text, b + 1);
    ModuleAtMatches(text, w, brace);
    var m: nat :| Visibility(text, w, m) && HasAt(text, m, MOD_TESTS) && brace == m + |MOD_TESTS| - 1;
    WithinShorter(text, start, b);
    SpacesShorter(text, b + 1, w);
    AttributeClosing(text, b);
    assert MatchParts(text, i, k, b - 1, w - 1, m, brace);
  }

  /** The attribute of a match ends at the first bracket. */
  lemma AttributeEnds(text: Text, start: nat, k: nat, c: nat)
    requires WithinLine(text, start, c) && start <= k && k + 4 <= c && TestAt(text, k) && HasAt(text, c, CFG_END)
    ensures start <= c && c + 1 < |text| && LineEnd(text, start) == c + 1
    ensures text[c] == CLOSE_PAREN && text[c + 1] == CLOSE_BRACKET && FindsTest(text, start, c)
  {
    hide TestAt;
    assert text[c..c + 2][0] == text[c] && text[c..c + 2][1] == text[c + 1];
    assert CFG_END[0] == ')' as int && CFG_END[1] == ']' as int;
    LineEndIs(text, start, c + 1);
  }

  /** The white space behind it ends with the line break in front of the module. */
  lemma LineEndsSpace(text: Text, a: nat, n: nat, m: nat)
    requires Spaces(text, a, n) && Has(text, n, NEWLINE) && Visibility(text, n + 1, m) && HasAt(text, m, MOD_TESTS)
    ensures a <= |text| && SpacesEnd(text, a) == n + 1
  {
    HeaderIsNoSpace(text, n + 1);
    hide HasAt;
    SpacesEndIs(text, a, n + 1);
  }

  lemma MatchIsFound(text: Text, i: nat, k: nat, c: nat, n: nat, m: nat, brace: nat)
    requires HasAt(text, i, CFG_START) && MatchParts(text, i, k, c, n, m, brace)
    ensures HeaderAt(text, i) == Some(brace)
  {
    hide HasAt, TestAt, FindsTest, Spaces, WithinLine, Visibility, ModuleAt, IsSpace;
    AttributeEnds(text, i + |CFG_START|, k, c);
    LineEndsSpace(text, c + 2, n, m);
    ModuleAtMatches(text, n + 1, brace);
  }

  // ---- All matches ----

  /** A match of the test-module header: where it begins, and its opening brace. */
  datatype Header = Header(index: nat, brace: nat)

  lemma MatchEndsInBrace(text: Text, i: nat, brace: nat)
    requires HeaderMatch(text, i, brace)
    ensures i < brace < |text| && text[brace] == OPEN
  {
    var k: nat, c: nat, n: nat, m: nat :| MatchParts(text, i, k, c, n, m, brace);
    assert text[m..m + |MOD_TESTS|][|MOD_TESTS| - 1] == text[brace];
    assert MOD_TESTS[10] == '{' as int;
  }

  /** `matchAll` from unit i on: the leftmost match, then the next one behind it. */
  ghost function AllHeaders(text: Text, i: nat): seq<Header>
    decreases |text| - i
  {
    if i >= |text| then []
    else
      match HeaderAt(text, i)
      case None => AllHeaders(text, i + 1)
      case Some(brace) => if brace < i then [] else [Header(i, brace)] + AllHeaders(text, brace + 1)
  }

  method FindHeaders(text: Text) returns (headers: seq<Header>)
    ensures headers == AllHeaders(text, 0)
  {
    hide HeaderAt, HeaderMatch;
    headers := [];
    var i := 0;
    while i < |text|
      invariant AllHeaders(text, 0) == headers + AllHeaders(text, i)
      decreases |text| - i
    {
      var brace := HeaderAt(text, i);
      if brace.None? {
        i := i + 1;
      } else {
        HeaderAtMatches(text, i, brace.value);
        MatchEndsInBrace(text, i, brace.value);
        headers := headers + [Header(i, brace.value)];
        i := brace.value + 1;
      }
    }
  }

  /** Where they lie: from unit i on, each a match, one behind the other. */
  lemma {:induction false} AllHeadersAreMatches(text: Text, i: nat)
    ensures forall h :: h in AllHeaders(text, i) ==> i <= h.index <= h.brace && HeaderMatch(text, h.index, h.brace)
    ensures forall k, l :: 0 <= k < l < |AllHeaders(text, i)| ==> AllHeaders(text, i)[k].brace < AllHeaders(text, i)[l].index
    decreases |text| - i
  {
    hide HeaderMatch, HeaderAt;
    if i < |text| {
      var here := HeaderAt(text, i);
      if here.None? {
        AllHeadersAreMatches(text, i + 1);
      } else {
        HeaderAtMatches(text, i, here.value);
        MatchEndsInBrace(text, i, here.value);
        AllHeadersAreMatches(text, here.value + 1);
      }
    }
  }

  /** No match is missed: where one begins, one of them begins or is under way. */
  lemma {:induction false} NoMatchIsMissed(text: Text, i: nat, x: nat, y: nat)
    requires i <= x && HeaderMatch(text, x, y)
    ensures exists h :: h in AllHeaders(text, i) && h.index <= x <= h.brace && (h.index == x ==> h.brace == y)
    decreases |text| - i
  {
    hide HeaderMatch, HeaderAt;
    MatchEndsInBrace(text, x, y);
    HeaderAtMatches(text, x, y);
    var here := HeaderAt(text, i);
    if here.None? {
      NoMatchIsMissed(text, i + 1, x, y);
    } else {
      HeaderAtMatches(text, i, here.value);
      MatchEndsInBrace(text, i, here.value);
      assert AllHeaders(text, i)[0] == Header(i, here.value);
      if here.value < x {
        NoMatchIsMissed(text, here.value + 1, x, y);
      }
    }
  }

  // ---- Production source ----

  predicate HeaderIn(text: Text, h: Header) {
    h.index < h.brace < |text| && text[h.brace] == OPEN
  }

  lemma AllHeadersAreIn(text: Text)
    ensures forall h :: h in AllHeaders(text, 0) ==> HeaderIn(text, h)
  {
    AllHeadersAreMatches(text, 0);
    hide HeaderMatch, AllHeaders;
    forall h | h in AllHeaders(text, 0) ensures HeaderIn(text, h) {
      MatchEndsInBrace(text, h.index, h.brace);
    }
  }

  predicate AllSpace(text: Text) {
    forall i :: 0 <= i < |text| ==> IsSpace(text[i])
  }

  /** The header opens a module whose body closes with nothing but white space behind it. */
  ghost predicate Trails(text: Text, h: Header) {
    HeaderIn(text, h) && exists end :: FirstClose(text, h.brace, Some(end)) && AllSpace(text[end + 1..])
  }

  lemma FirstCloseIsUnique(text: Text, start: nat, a: Option<nat>, b: Option<nat>)
    requires FirstClose(text, start, a) && FirstClose(text, start, b)
    ensures a == b
  {
  }

  lemma NotTrailing(text: Text, h: Header, closing: Option<nat>)
    requires HeaderIn(text, h) && FirstClose(text, h.brace, closing)
    requires closing.Some? ==> !AllSpace(text[closing.value + 1..])
    ensures !Trails(text, h)
  {
    hide FirstClose;
    forall end: nat | FirstClose(text, h.brace, Some(end)) ensures closing == Some(end) {
      FirstCloseIsUnique(text, h.brace, closing, Some(end));
    }
  }

  /** `/^\s*#!\[cfg\(test\)\]/`: a file that is all tests. */
  predicate TestOnly(text: Text) {
    HasAt(text, SpacesEnd(text, 0), INNER_CFG_TEST)
  }

  /** The inner attribute comes first, after white space only. */
  lemma TestOnlyMatches(text: Text)
    ensures TestOnly(text) <==> exists n: nat :: Spaces(text, 0, n) && HasAt(text, n, INNER_CFG_TEST)
  {
    assert Spaces(text, 0, SpacesEnd(text, 0));
    if exists n: nat :: Spaces(text, 0, n) && HasAt(text, n, INNER_CFG_TEST) {
      var n: nat :| Spaces(text, 0, n) && HasAt(text, n, INNER_CFG_TEST);
      FirstUnit(text, n, INNER_CFG_TEST);
      assert INNER_CFG_TEST[0] == '#' as int;
      SpacesEndIs(text, 0, n);
    }
  }

  predicate IsRust(path: string) {
    |path| >= 3 && path[|path| - 3..] == ".rs"
  }

  /**
   Rust sources lose their trailing test module and nothing else: the result is the text before the
   last header whose body runs, balanced, to the trailing white space; without one it is the text.
   */
  method ProductionSource(text: Text, path: string) returns (source: Text)
    ensures !IsRust(path) ==> source == text
    ensures IsRust(path) && TestOnly(text) ==> source == []
    ensures IsRust(path) && !TestOnly(text) ==>
              var headers := AllHeaders(text, 0);
              (source == text && forall h :: h in headers ==> !Trails(text, h))
              || exists i :: 0 <= i < |headers| && Trails(text, headers[i]) && source == text[..headers[i].index]
                             && forall j :: i < j < |headers| ==> !Trails(text, headers[j])
  {
    if !IsRust(path) {
      return text;
    }
    if TestOnly(text) {
      return [];
    }
    var headers := FindHeaders(text);
    AllHeadersAreIn(text);
    var n := |headers|;
    while n > 0
      invariant 0 <= n <= |headers|
      invariant forall j :: n <= j < |headers| ==> !Trails(text, headers[j])
    {
      n := n - 1;
      var h := headers[n];
      assert h in headers;
      var closing := MatchingRustBrace(text, h.brace);
      if closing.Some? && AllSpace(text[closing.value + 1..]) {
        return text[..h.index];
      }
      NotTrailing(text, h, closing);
    }
    source := text;
  }
}
