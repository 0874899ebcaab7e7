/**
 The brace scanner of the size check. Text is a sequence of UTF-16 code units. The scanner jumps from
 token to token; the lexer below reads one unit at a time, and the scanner must agree with it.
 */
module RustScanner {
  import opened Options

  type Unit = u: nat | u < 0x1_0000

  type Text = seq<Unit>

  const SLASH: Unit := 47
  const STAR: Unit := 42
  const NEWLINE: Unit := 10
  const QUOTE: Unit := 34
  const APOSTROPHE: Unit := 39
  const BACKSLASH: Unit := 92
  const HASH: Unit := 35
  const OPEN: Unit := 123
  const CLOSE: Unit := 125
  const LOWER_B: Unit := 98
  const LOWER_R: Unit := 114

  /** The code units of `\s`. */
  predicate IsSpace(u: Unit) {
    || 9 <= u <= 13 || u == 32 || u == 0xA0 || u == 0x1680 || 0x2000 <= u <= 0x200A
    || u == 0x2028 || u == 0x2029 || u == 0x202F || u == 0x205F || u == 0x3000 || u == 0xFEFF
  }

  predicate Has(text: Text, i: nat, u: Unit) {
    i < |text| && text[i] == u
  }

  predicate HasAt(text: Text, i: nat, part: Text) {
    i + |part| <= |text| && text[i..i + |part|] == part
  }

  function Hashes(n: nat): (h: Text)
    ensures |h| == n && forall i :: 0 <= i < n ==> h[i] == HASH
  {
    seq(n, _ => HASH)
  }

  // ---- The lexer, one unit at a time ----

  /** What the lexer is inside of. Skip(n, rest) still has n units of a token to pass over. */
  datatype Mode =
    | Code
    | Line
    | Block(depth: nat)
    | Raw(hashes: nat)
    | Str
    | Char
    | Skip(left: nat, rest: Mode)

  datatype LexState = LexState(mode: Mode, depth: int)

  function CountHashes(text: Text, i: nat): (n: nat)
    ensures i <= |text| ==> i + n <= |text|
    ensures forall k :: i <= k < i + n ==> k < |text| && text[k] == HASH
    ensures !Has(text, i + n, HASH)
    decreases |text| - i
  {
    if Has(text, i, HASH) then 1 + CountHashes(text, i + 1) else 0
  }

  /** `^(?:br|r)(#*)"` at i: the length of the opener and its number of hashes. */
  function RawOpener(text: Text, i: nat): (opener: Option<(nat, nat)>)
    ensures opener.Some? ==> 2 <= opener.value.0 && i + opener.value.0 <= |text|
  {
    var letters := if Has(text, i, LOWER_B) && Has(text, i + 1, LOWER_R) then 2 else if Has(text, i, LOWER_R) then 1 else 0;
    if letters == 0 then None
    else
      var n := CountHashes(text, i + letters);
      if Has(text, i + letters + n, QUOTE) then Some((letters + n + 1, n)) else None
  }

  /** The file's own rule for the end of a character literal: a quote before the limit with no bare space in front. */
  function CharEnd(text: Text, i: nat, limit: nat): (end: Option<nat>)
    requires limit <= |text|
    ensures end.Some? ==> i <= end.value < limit && text[end.value] == APOSTROPHE
    decreases limit - i
  {
    if i >= limit then None
    else if text[i] == BACKSLASH then CharEnd(text, i + 2, limit)
    else if text[i] == APOSTROPHE then Some(i)
    else if IsSpace(text[i]) then None
    else CharEnd(text, i + 1, limit)
  }

  function CharLimit(text: Text, start: nat): nat {
    if |text| < start + 16 then |text| else start + 16
  }

  function CharLiteralEnd(text: Text, start: nat): Option<nat> {
    CharEnd(text, start + 1, CharLimit(text, start))
  }

  function Skipping(n: nat, rest: Mode): Mode {
    if n == 0 then rest else Skip(n, rest)
  }

  function CodeStep(text: Text, i: nat, depth: int): LexState
    requires i < |text|
  {
    if text[i] == SLASH && Has(text, i + 1, SLASH) then LexState(Skip(1, Line), depth)
    else if text[i] == SLASH && Has(text, i + 1, STAR) then LexState(Skip(1, Block(1)), depth)
    else if RawOpener(text, i).Some? then
      LexState(Skipping(RawOpener(text, i).value.0 - 1, Raw(RawOpener(text, i).value.1)), depth)
    else if text[i] == QUOTE then LexState(Str, depth)
    else if text[i] == APOSTROPHE && CharLiteralEnd(text, i).Some? then LexState(Char, depth)
    else LexState(Code, if text[i] == OPEN then depth + 1 else if text[i] == CLOSE then depth - 1 else depth)
  }

  function ModeStep(text: Text, i: nat, mode: Mode): Mode
    requires i < |text| && mode != Code
  {
    match mode
    case Line => if text[i] == NEWLINE then Code else Line
    case Block(d) =>
      if text[i] == SLASH && Has(text, i + 1, STAR) then Skip(1, Block(d + 1))
      else if text[i] == STAR && Has(text, i + 1, SLASH) then Skip(1, if d <= 1 then Code else Block(d - 1))
      else mode
    case Raw(n) => if HasAt(text, i, [QUOTE] + Hashes(n)) then Skipping(n, Code) else mode
    case Str => if text[i] == BACKSLASH then Skip(1, Str) else if text[i] == QUOTE then Code else Str
    case Char => if text[i] == BACKSLASH then Skip(1, Char) else if text[i] == APOSTROPHE then Code else Char
    case Skip(n, rest) => if n <= 1 then rest else Skip(n - 1, rest)
  }

  function LexStep(text: Text, i: nat, s: LexState): LexState
    requires i < |text|
  {
    if s.mode == Code then CodeStep(text, i, s.depth) else LexState(ModeStep(text, i, s.mode), s.depth)
  }

  /** The lexer's state in front of unit k, having started in code at `start` with no open brace. */
  function StateAt(text: Text, start: nat, k: nat): LexState
    requires start <= k <= |text|
    decreases k
  {
    if k == start then LexState(Code, 0) else LexStep(text, k - 1, StateAt(text, start, k - 1))
  }

  /** Unit k is a closing brace in code that brings the depth back to zero. */
  predicate Closes(text: Text, start: nat, k: nat)
    requires start <= k < |text|
  {
    StateAt(text, start, k) == LexState(Code, 1) && text[k] == CLOSE
  }

  /** No unit from i up to j closes the brace. */
  ghost predicate NoneCloses(text: Text, start: nat, i: nat, j: nat)
    requires start <= i && j <= |text|
  {
    forall k :: i <= k < j ==> !Closes(text, start, k)
  }

  // ---- What a stretch of units does to the lexer ----

  lemma {:induction false} SkipRuns(text: Text, start: nat, i: nat, n: nat, rest: Mode, depth: int)
    requires start <= i && i + n <= |text|
    requires StateAt(text, start, i) == LexState(Skipping(n, rest), depth)
    ensures StateAt(text, start, i + n) == LexState(rest, depth)
    ensures NoneCloses(text, start, i, i + n)
    decreases n
  {
    if n > 0 {
      assert StateAt(text, start, i + 1) == LexState(Skipping(n - 1, rest), depth);
      SkipRuns(text, start, i + 1, n - 1, rest, depth);
    }
  }

  lemma {:induction false} LineRuns(text: Text, start: nat, i: nat, j: nat, depth: int)
    requires start <= i <= j <= |text| && StateAt(text, start, i) == LexState(Line, depth)
    requires forall k :: i <= k < j ==> text[k] != NEWLINE
    ensures StateAt(text, start, j) == LexState(Line, depth)
    ensures NoneCloses(text, start, i, j)
    decreases j
  {
    if i < j { LineRuns(text, start, i, j - 1, depth); }
  }

  lemma {:induction false} RawRuns(text: Text, start: nat, i: nat, j: nat, n: nat, depth: int)
    requires start <= i <= j <= |text| && StateAt(text, start, i) == LexState(Raw(n), depth)
    requires forall k :: i <= k < j ==> !HasAt(text, k, [QUOTE] + Hashes(n))
    ensures StateAt(text, start, j) == LexState(Raw(n), depth)
    ensures NoneCloses(text, start, i, j)
    decreases j
  {
    if i < j { RawRuns(text, start, i, j - 1, n, depth); }
  }

  /** One unit outside code: the lexer moves within its mode, and no brace is closed. */
  lemma ModeMoves(text: Text, start: nat, i: nat, mode: Mode, depth: int)
    requires start <= i < |text| && mode != Code && StateAt(text, start, i) == LexState(mode, depth)
    ensures StateAt(text, start, i + 1) == LexState(ModeStep(text, i, mode), depth)
    ensures NoneCloses(text, start, i, i + 1)
  {
    hide ModeStep;
  }

  /** Two units, when the first only announces the second. */
  lemma ModeMovesTwice(text: Text, start: nat, i: nat, mode: Mode, rest: Mode, depth: int)
    requires start <= i && i + 1 < |text| && mode != Code && StateAt(text, start, i) == LexState(mode, depth)
    requires ModeStep(text, i, mode) == Skip(1, rest)
    ensures StateAt(text, start, i + 2) == LexState(rest, depth)
    ensures NoneCloses(text, start, i, i + 2)
  {
    ModeMoves(text, start, i, mode, depth);
    ModeMoves(text, start, i + 1, Skip(1, rest), depth);
  }

  lemma NoneClosesJoins(text: Text, start: nat, i: nat, j: nat, k: nat)
    requires start <= i <= j <= k <= |text| && NoneCloses(text, start, i, j) && NoneCloses(text, start, j, k)
    ensures NoneCloses(text, start, i, k)
  {
  }

  // ---- The scanner ----

  /** `content.indexOf(part, from)`. */
  method IndexOf(text: Text, part: Text, from: nat) returns (at: Option<nat>)
    requires part != []
    ensures at.Some? ==> from <= at.value && HasAt(text, at.value, part)
                         && forall k :: from <= k < at.value ==> !HasAt(text, k, part)
    ensures at.None? ==> forall k :: from <= k ==> !HasAt(text, k, part)
  {
    var i := from;
    while i < |text|
      invariant from <= i
      invariant forall k :: from <= k < i ==> !HasAt(text, k, part)
      decreases |text| - i
    {
      if HasAt(text, i, part) {
        return Some(i);
      }
      i := i + 1;
    }
    at := None;
  }

  lemma OpeningMoves(text: Text, start: nat, opening: nat, depth: int)
    requires start <= opening < |text| && text[opening] == QUOTE
    requires StateAt(text, start, opening) == LexState(Code, depth) && CodeStep(text, opening, depth) == LexState(Str, depth)
    ensures StateAt(text, start, opening + 1) == LexState(Str, depth) && NoneCloses(text, start, opening, opening + 1)
  {
    hide CodeStep;
  }

  lemma CommentOpens(text: Text, start: nat, opening: nat, depth: int)
    requires start <= opening && opening + 1 < |text| && text[opening] == SLASH && text[opening + 1] == STAR
    requires StateAt(text, start, opening) == LexState(Code, depth)
    ensures StateAt(text, start, opening + 2) == LexState(Block(1), depth) && NoneCloses(text, start, opening, opening + 2)
  {
    assert StateAt(text, start, opening + 1) == LexState(Skip(1, Block(1)), depth);
    ModeMoves(text, start, opening + 1, Skip(1, Block(1)), depth);
  }

  /** Walks a quoted literal from its opening quote; the lexer is in `mode` all the way and back in code after the end. */
  method QuotedLiteralEnd(text: Text, opening: nat, ghost start: nat, ghost depth: int) returns (end: Option<nat>)
    requires start <= opening < |text| && text[opening] == QUOTE
    requires StateAt(text, start, opening) == LexState(Code, depth)
    requires CodeStep(text, opening, depth) == LexState(Str, depth)
    ensures end.Some? ==> opening < end.value < |text| && NoneCloses(text, start, opening, end.value + 1)
                          && StateAt(text, start, end.value + 1) == LexState(Code, depth)
    ensures end.None? ==> NoneCloses(text, start, opening, |text|)
  {
    var index := opening + 1;
    hide StateAt, Closes, NoneCloses, CodeStep;
    OpeningMoves(text, start, opening, depth);
    while index < |text|
      invariant opening < index <= |text| + 1
      invariant index <= |text| ==> StateAt(text, start, index) == LexState(Str, depth)
      invariant NoneCloses(text, start, opening, if index <= |text| then index else |text|)
    {
      ModeMoves(text, start, index, Str, depth);
      NoneClosesJoins(text, start, opening, index, index + 1);
      if text[index] == BACKSLASH {
        if index + 1 < |text| {
          ModeMoves(text, start, index + 1, Skip(1, Str), depth);
          NoneClosesJoins(text, start, opening, index + 1, index + 2);
        }
        index := index + 1;
      } else if text[index] == QUOTE {
        return Some(index);
      }
      index := index + 1;
    }
    end := None;
  }

  /** The loop over a nested block comment: index ends just after it, or at the end of the text. */
  method BlockCommentEnd(text: Text, opening: nat, ghost start: nat, ghost depth: int) returns (index: nat)
    requires start <= opening && opening + 1 < |text| && text[opening] == SLASH && text[opening + 1] == STAR
    requires StateAt(text, start, opening) == LexState(Code, depth)
    ensures opening < index <= |text| && NoneCloses(text, start, opening, index)
    ensures index < |text| ==> StateAt(text, start, index) == LexState(Code, depth)
  {
    var commentDepth: nat := 1;
    index := opening + 2;
    hide StateAt, Closes, NoneCloses;
    CommentOpens(text, start, opening, depth);
    while index < |text| && commentDepth > 0
      invariant opening < index <= |text| && NoneCloses(text, start, opening, index)
      invariant StateAt(text, start, index) == LexState(if commentDepth == 0 then Code else Block(commentDepth), depth)
      decreases |text| - index
    {
      if text[index] == SLASH && Has(text, index + 1, STAR) {
        ModeMovesTwice(text, start, index, Block(commentDepth), Block(commentDepth + 1), depth);
        NoneClosesJoins(text, start, opening, index, index + 2);
        commentDepth := commentDepth + 1;
        index := index + 2;
      } else if text[index] == STAR && Has(text, index + 1, SLASH) {
        ghost var rest := if commentDepth <= 1 then Code else Block(commentDepth - 1);
        ModeMovesTwice(text, start, index, Block(commentDepth), rest, depth);
        NoneClosesJoins(text, start, opening, index, index + 2);
        commentDepth := commentDepth - 1;
        index := index + 2;
      } else {
        ModeMoves(text, start, index, Block(commentDepth), depth);
        NoneClosesJoins(text, start, opening, index, index + 1);
        index := index + 1;
      }
    }
  }

  /** `rustCharLiteralEnd`: what the loop computes is the rule the lexer uses. */
  method RustCharLiteralEnd(text: Text, start: nat) returns (end: Option<nat>)
    ensures end == CharLiteralEnd(text, start)
  {
    var limit := CharLimit(text, start);
    var index := start + 1;
    while index < limit
      invariant CharEnd(text, index, limit) == CharLiteralEnd(text, start)
      decreases limit - index
    {
      if text[index] == BACKSLASH {
        index := index + 1;
      } else if text[index] == APOSTROPHE {
        return Some(index);
      } else if IsSpace(text[index]) {
        return None;
      }
      index := index + 1;
    }
    end := None;
  }

  /** Inside a character literal the lexer stays there up to the end that the rule found. */
  lemma {:induction false} CharRuns(text: Text, start: nat, i: nat, limit: nat, depth: int)
    requires start <= i <= limit <= |text| && StateAt(text, start, i) == LexState(Char, depth)
    requires CharEnd(text, i, limit).Some?
    ensures var end := CharEnd(text, i, limit).value;
            NoneCloses(text, start, i, end + 1) && StateAt(text, start, end + 1) == LexState(Code, depth)
    decreases limit - i
  {
    if text[i] == BACKSLASH {
      assert StateAt(text, start, i + 1) == LexState(Skip(1, Char), depth);
      assert StateAt(text, start, i + 2) == LexState(Char, depth);
      CharRuns(text, start, i + 2, limit, depth);
    } else if text[i] != APOSTROPHE {
      assert StateAt(text, start, i + 1) == LexState(Char, depth);
      CharRuns(text, start, i + 1, limit, depth);
    }
  }

  /** The first unit that the one-unit-at-a-time lexer sees closing the brace. */
  ghost predicate FirstClose(text: Text, start: nat, end: Option<nat>) {
    start <= |text| &&
    if end.Some? then start <= end.value < |text| && Closes(text, start, end.value) && NoneCloses(text, start, start, end.value)
    else NoneCloses(text, start, start, |text|)
  }

  /** One pass over a string-like token: a raw string from its opener, or the reason there is no end. */
  method RawStringEnd(text: Text, opening: nat, length: nat, hashes: nat, ghost start: nat, ghost depth: int)
      returns (end: Option<nat>)
    requires start <= opening < |text| && RawOpener(text, opening) == Some((length, hashes))
    requires StateAt(text, start, opening) == LexState(Code, depth)
    requires CodeStep(text, opening, depth) == LexState(Skipping(length - 1, Raw(hashes)), depth)
    requires text[opening] != CLOSE
    ensures end.Some? ==> opening < end.value < |text| && NoneCloses(text, start, opening, end.value + 1)
                          && StateAt(text, start, end.value + 1) == LexState(Code, depth)
    ensures end.None? ==> NoneCloses(text, start, opening, |text|)
  {
    hide RawOpener, CountHashes, CharLiteralEnd, CodeStep, HasAt;
    var terminator: Text := [QUOTE] + Hashes(hashes);
    var body := opening + length;
    var found := IndexOf(text, terminator, body);
    assert StateAt(text, start, opening + 1) == LexState(Skipping(length - 1, Raw(hashes)), depth);
    SkipRuns(text, start, opening + 1, length - 1, Raw(hashes), depth);
    assert NoneCloses(text, start, opening, body);
    if found.None? {
      RawRuns(text, start, body, |text|, hashes, depth);
      return None;
    }
    RawRuns(text, start, body, found.value, hashes, depth);
    assert StateAt(text, start, found.value + 1) == LexState(Skipping(hashes, Code), depth);
    SkipRuns(text, start, found.value + 1, hashes, Code, depth);
    end := Some(found.value + |terminator| - 1);
  }

  lemma LineOpens(text: Text, start: nat, opening: nat, depth: int)
    requires start <= opening && opening + 1 < |text| && text[opening] == SLASH && text[opening + 1] == SLASH
    requires StateAt(text, start, opening) == LexState(Code, depth)
    ensures StateAt(text, start, opening + 2) == LexState(Line, depth) && NoneCloses(text, start, opening, opening + 2)
  {
    assert StateAt(text, start, opening + 1) == LexState(Skip(1, Line), depth);
    ModeMoves(text, start, opening + 1, Skip(1, Line), depth);
  }

  lemma LineBreaks(text: Text, start: nat, i: nat, depth: int)
    requires start <= i && HasAt(text, i, [NEWLINE]) && StateAt(text, start, i) == LexState(Line, depth)
    ensures i < |text| && StateAt(text, start, i + 1) == LexState(Code, depth) && NoneCloses(text, start, i, i + 1)
  {
    assert text[i..i + 1][0] == text[i];
    ModeMoves(text, start, i, Line, depth);
  }

  lemma NoNewlineBetween(text: Text, i: nat, j: nat)
    requires j <= |text| && forall k :: i <= k < j ==> !HasAt(text, k, [NEWLINE])
    ensures forall k :: i <= k < j ==> text[k] != NEWLINE
  {
    forall k | i <= k < j ensures text[k] != NEWLINE {
      assert text[k..k + 1] == [text[k]];
      assert !HasAt(text, k, [NEWLINE]);
    }
  }

  /** A line comment: the newline that ends it, or none before the end of the text. */
  method LineCommentEnd(text: Text, opening: nat, ghost start: nat, ghost depth: int) returns (newline: Option<nat>)
    requires start <= opening && opening + 1 < |text| && text[opening] == SLASH && text[opening + 1] == SLASH
    requires StateAt(text, start, opening) == LexState(Code, depth)
    ensures newline.Some? ==> opening < newline.value < |text| && NoneCloses(text, start, opening, newline.value + 1)
                              && StateAt(text, start, newline.value + 1) == LexState(Code, depth)
    ensures newline.None? ==> NoneCloses(text, start, opening, |text|)
  {
    hide StateAt, Closes, NoneCloses, HasAt;
    newline := IndexOf(text, [NEWLINE], opening + 2);
    ghost var last := if newline.Some? then newline.value else |text|;
    LineOpens(text, start, opening, depth);
    NoNewlineBetween(text, opening + 2, last);
    LineRuns(text, start, opening + 2, last, depth);
    NoneClosesJoins(text, start, opening, opening + 2, last);
    if newline.Some? {
      LineBreaks(text, start, last, depth);
      NoneClosesJoins(text, start, opening, last, last + 1);
    }
  }

  /**
   The scanner returns exactly the first unit at which the depth of braces in code, as the lexer
   reads it, returns to zero, and none when there is no such unit.
   */
  method MatchingRustBrace(text: Text, openingBrace: nat) returns (end: Option<nat>)
    requires openingBrace <= |text|
    ensures FirstClose(text, openingBrace, end)
  {
    hide RawOpener, CharLiteralEnd, CountHashes;
    var depth := 0;
    var index := openingBrace;
    while index < |text|
      invariant openingBrace <= index <= |text|
      invariant index < |text| ==> StateAt(text, openingBrace, index) == LexState(Code, depth)
      invariant NoneCloses(text, openingBrace, openingBrace, index)
      decreases |text| - index
    {
      if text[index] == SLASH && Has(text, index + 1, SLASH) {
        var newline := LineCommentEnd(text, index, openingBrace, depth);
        if newline.None? {
          return None;
        }
        index := newline.value + 1;
      } else if text[index] == SLASH && Has(text, index + 1, STAR) {
        index := BlockCommentEnd(text, index, openingBrace, depth);
      } else if RawOpener(text, index).Some? {
        var (length, hashes) := RawOpener(text, index).value;
        RawStartsWithLetter(text, index);
        var close := RawStringEnd(text, index, length, hashes, openingBrace, depth);
        if close.None? {
          return None;
        }
        index := close.value + 1;
      } else if text[index] == QUOTE {
        var close := QuotedLiteralEnd(text, index, openingBrace, depth);
        if close.None? {
          return None;
        }
        index := close.value + 1;
      } else {
        var close := None;
        if text[index] == APOSTROPHE {
          close := RustCharLiteralEnd(text, index);
        }
        if close.Some? {
          assert StateAt(text, openingBrace, index + 1) == LexState(Char, depth);
          CharLiteralRuns(text, openingBrace, index, depth);
          index := close.value + 1;
        } else {
          assert CodeStep(text, index, depth).mode == Code;
          if text[index] == OPEN {
            depth := depth + 1;
          }
          if text[index] == CLOSE {
            depth := depth - 1;
            if depth == 0 {
              return Some(index);
            }
          }
          index := index + 1;
        }
      }
    }
    end := None;
  }

  lemma RawStartsWithLetter(text: Text, i: nat)
    requires i < |text| && RawOpener(text, i).Some?
    ensures text[i] == LOWER_B || text[i] == LOWER_R
  {
  }

  lemma CharLiteralRuns(text: Text, start: nat, i: nat, depth: int)
    requires start <= i < |text| && StateAt(text, start, i + 1) == LexState(Char, depth) && CharLiteralEnd(text, i).Some?
    ensures var end := CharLiteralEnd(text, i).value;
            i < end < |text| && NoneCloses(text, start, i + 1, end + 1) && StateAt(text, start, end + 1) == LexState(Code, depth)
  {
    if i + 1 < CharLimit(text, i) {
      CharRuns(text, start, i + 1, CharLimit(text, i), depth);
    }
  }
}
