/** Undoing git's path quoting: a quoted path is a C-like string whose octal escapes are raw bytes. */
module GitQuote {
  import opened Options
  import opened GitChanges

  type Unit = u: nat | u < 0x1_0000

  const QUOTE: nat := 34
  const BACKSLASH: nat := 92
  const LETTER_N: nat := 110
  const LETTER_T: nat := 116

  /** The path as it came, or the bytes that are handed to the UTF-8 decoder. */
  datatype Result = Verbatim(path: seq<Unit>) | Unquoted(bytes: Bytes)

  predicate IsQuoted(path: seq<Unit>) {
    |path| >= 2 && path[0] == QUOTE && path[|path| - 1] == QUOTE
  }

  predicate Octal(body: seq<Unit>, i: nat) {
    i < |body| && 48 <= body[i] <= 55
  }

  function Digit(body: seq<Unit>, i: nat): nat
    requires Octal(body, i)
  {
    body[i] - 48
  }

  /** How many digits the octal escape at i has: at most three. */
  function OctalLength(body: seq<Unit>, i: nat): nat
    requires Octal(body, i)
  {
    if !Octal(body, i + 1) then 1 else if !Octal(body, i + 2) then 2 else 3
  }

  function OctalValue(body: seq<Unit>, i: nat): nat
    requires Octal(body, i)
  {
    match OctalLength(body, i)
    case 1 => Digit(body, i)
    case 2 => 8 * Digit(body, i) + Digit(body, i + 1)
    case _ => 8 * (8 * Digit(body, i) + Digit(body, i + 1)) + Digit(body, i + 2)
  }

  /** `Uint8Array.from` keeps the low eight bits. */
  function Low(n: nat): Byte {
    n % 256
  }

  /** One plain unit or one escape: how long it is and the byte it denotes, if any. */
  datatype Token = Token(length: nat, byte: Option<Byte>)

  function TokenAt(body: seq<Unit>, i: nat): (t: Token)
    requires i < |body|
    ensures t.length > 0 && i + t.length <= |body|
  {
    if body[i] != BACKSLASH then Token(1, Some(Low(body[i])))
    else if i + 1 == |body| then Token(1, None)
    else if body[i + 1] == LETTER_N then Token(2, Some(10))
    else if body[i + 1] == LETTER_T then Token(2, Some(9))
    else if Octal(body, i + 1) then Token(1 + OctalLength(body, i + 1), Some(Low(OctalValue(body, i + 1))))
    else Token(2, Some(Low(body[i + 1])))
  }

  function Out(t: Token): Bytes {
    if t.byte.Some? then [t.byte.value] else []
  }

  /** The bytes that the body denotes from position i on. */
  function UnquoteFrom(body: seq<Unit>, i: nat): Bytes
    requires i <= |body|
    decreases |body| - i
  {
    if i == |body| then [] else Out(TokenAt(body, i)) + UnquoteFrom(body, i + TokenAt(body, i).length)
  }

  function Unquote(path: seq<Unit>): Result {
    if IsQuoted(path) then Unquoted(UnquoteFrom(path[1..|path| - 1], 0)) else Verbatim(path)
  }

  /** Reads up to two more octal digits behind the first. */
  method ReadOctal(body: seq<Unit>, first: nat) returns (value: nat, last: nat)
    requires Octal(body, first)
    ensures value == OctalValue(body, first) && last == first + OctalLength(body, first) - 1
  {
    value, last := body[first] - 48, first;
    var extra := 0;
    while extra < 2 && Octal(body, last + 1)
      invariant 0 <= extra <= 2 && last == first + extra && Octal(body, last)
      invariant extra >= 1 ==> Octal(body, first + 1)
      invariant value == (if extra == 0 then Digit(body, first)
                          else if extra == 1 then 8 * Digit(body, first) + Digit(body, first + 1)
                          else 8 * (8 * Digit(body, first) + Digit(body, first + 1)) + Digit(body, first + 2))
    {
      value := 8 * value + (body[last + 1] - 48);
      last := last + 1;
      extra := extra + 1;
    }
  }

  /** The body of the loop: one plain unit or one escape. */
  method ReadToken(body: seq<Unit>, start: nat) returns (pushed: Bytes, index: nat)
    requires start < |body|
    ensures pushed == Out(TokenAt(body, start)) && index == start + TokenAt(body, start).length
  {
    pushed, index := [], start;
    if body[index] != BACKSLASH {
      pushed := [Low(body[index])];
    } else if index + 1 < |body| {
      var next := body[index + 1];
      index := index + 1;
      if next == LETTER_N {
        pushed := [10];
      } else if next == LETTER_T {
        pushed := [9];
      } else if next == BACKSLASH || next == QUOTE {
        pushed := [Low(next)];
      } else if Octal(body, index) {
        var value;
        value, index := ReadOctal(body, index);
        pushed := [Low(value)];
      } else {
        pushed := [Low(next)];
      }
    }
    index := index + 1;
  }

  method UnquoteGitPath(path: seq<Unit>) returns (result: Result)
    ensures result == Unquote(path)
  {
    if !IsQuoted(path) {
      return Verbatim(path);
    }
    hide TokenAt;
    var bytes: Bytes := [];
    var body := path[1..|path| - 1];
    var index := 0;
    while index < |body|
      invariant index <= |body| && bytes + UnquoteFrom(body, index) == UnquoteFrom(body, 0)
      decreases |body| - index
    {
      var pushed, next := ReadToken(body, index);
      assert bytes + (pushed + UnquoteFrom(body, next)) == (bytes + pushed) + UnquoteFrom(body, next);
      bytes, index := bytes + pushed, next;
    }
    result := Unquoted(bytes);
  }

  // ---- Git's own quoting ----

  /** The control bytes that git writes with a letter; newline and tab are the two that are read back. */
  function Letter(b: Byte): Option<Unit> {
    if b == 7 then Some(97) else if b == 8 then Some(98) else if b == 9 then Some(LETTER_T) else if b == 10 then Some(LETTER_N)
    else if b == 11 then Some(118) else if b == 12 then Some(102) else if b == 13 then Some(114) else None
  }

  predicate NeedsQuote(b: Byte) {
    b < 0x20 || b >= 0x7F || b == QUOTE || b == BACKSLASH
  }

  function QuoteByte(b: Byte): seq<Unit> {
    if Letter(b).Some? then [BACKSLASH, Letter(b).value]
    else if b == QUOTE || b == BACKSLASH then [BACKSLASH, b]
    else if NeedsQuote(b) then [BACKSLASH, 48 + b / 64, 48 + b / 8 % 8, 48 + b % 8]
    else [b]
  }

  function QuoteBody(path: Bytes): seq<Unit> {
    if path == [] then [] else QuoteByte(path[0]) + QuoteBody(path[1..])
  }

  /** Git quotes a path only when some byte needs it. */
  function GitPrint(path: Bytes): seq<Unit> {
    if exists i :: 0 <= i < |path| && NeedsQuote(path[i]) then [QUOTE] + QuoteBody(path) + [QUOTE]
    else seq(|path|, i requires 0 <= i < |path| => path[i])
  }

  /** The five control bytes that come back as the letter of their escape. */
  predicate Mangled(b: Byte) {
    b == 7 || b == 8 || b == 11 || b == 12 || b == 13
  }

  function ReadBack(b: Byte): Byte {
    if Mangled(b) then Letter(b).value else b
  }

  function ReadBackAll(path: Bytes): (r: Bytes)
    ensures |r| == |path| && forall i :: 0 <= i < |path| ==> r[i] == ReadBack(path[i])
  {
    seq(|path|, i requires 0 <= i < |path| => ReadBack(path[i]))
  }

  lemma TokenShift(head: seq<Unit>, tail: seq<Unit>, i: nat)
    requires i < |tail|
    ensures TokenAt(head + tail, |head| + i) == TokenAt(tail, i)
  {
    var whole, at := head + tail, |head| + i;
    assert forall k :: 0 <= k < |tail| ==> whole[|head| + k] == tail[k];
    assert Octal(whole, at + 1) <==> Octal(tail, i + 1);
    assert Octal(whole, at + 2) <==> Octal(tail, i + 2);
    assert Octal(whole, at + 3) <==> Octal(tail, i + 3);
  }

  lemma UnquoteStep(body: seq<Unit>, i: nat)
    requires i <= |body|
    ensures i == |body| ==> UnquoteFrom(body, i) == []
    ensures i < |body| ==> UnquoteFrom(body, i) == Out(TokenAt(body, i)) + UnquoteFrom(body, i + TokenAt(body, i).length)
  {
    hide TokenAt, Out;
  }

  lemma {:induction false} UnquoteShift(head: seq<Unit>, tail: seq<Unit>, i: nat)
    requires i <= |tail|
    ensures UnquoteFrom(head + tail, |head| + i) == UnquoteFrom(tail, i)
    decreases |tail| - i
  {
    hide TokenAt, Out, UnquoteFrom;
    UnquoteStep(head + tail, |head| + i);
    UnquoteStep(tail, i);
    if i < |tail| {
      TokenShift(head, tail, i);
      UnquoteShift(head, tail, i + TokenAt(tail, i).length);
    }
  }

  lemma OctalDigits(b: Byte)
    ensures 8 * (8 * (b / 64) + b / 8 % 8) + b % 8 == b
  {
  }

  lemma QuotedByteIsOneToken(b: Byte, rest: seq<Unit>)
    ensures TokenAt(QuoteByte(b) + rest, 0) == Token(|QuoteByte(b)|, Some(ReadBack(b)))
  {
    var body, text := QuoteByte(b) + rest, QuoteByte(b);
    assert forall k :: 0 <= k < |text| ==> body[k] == text[k];
    if |text| == 4 {
      assert Octal(body, 1) && Octal(body, 2) && Octal(body, 3);
      OctalDigits(b);
      assert OctalValue(body, 1) == b;
    }
  }

  lemma {:induction false} QuotedBodyReadsBack(path: Bytes)
    ensures UnquoteFrom(QuoteBody(path), 0) == ReadBackAll(path)
  {
    if path != [] {
      var head, rest := QuoteByte(path[0]), QuoteBody(path[1..]);
      QuotedByteIsOneToken(path[0], rest);
      UnquoteShift(head, rest, 0);
      QuotedBodyReadsBack(path[1..]);
      assert ReadBackAll(path) == [ReadBack(path[0])] + ReadBackAll(path[1..]);
    }
  }

  /** Unquoting what git printed gives the path back, byte for byte, exactly when no byte is one of the five. */
  lemma UnquoteUndoesGitPrint(path: Bytes)
    ensures var result := Unquote(GitPrint(path));
            if exists i :: 0 <= i < |path| && NeedsQuote(path[i]) then
              result.Unquoted? && |result.bytes| == |path|
              && (result.bytes == path <==> forall i :: 0 <= i < |path| ==> !Mangled(path[i]))
              && forall i :: 0 <= i < |path| && !Mangled(path[i]) ==> result.bytes[i] == path[i]
            else result.Verbatim? && |result.path| == |path| && forall i :: 0 <= i < |path| ==> result.path[i] == path[i]
  {
    if exists i :: 0 <= i < |path| && NeedsQuote(path[i]) {
      QuotedBytes(path);
      hide Unquote, GitPrint;
      assert forall i :: 0 <= i < |path| ==> (ReadBack(path[i]) == path[i] <==> !Mangled(path[i]));
      assert ReadBackAll(path) == path <==> forall i :: 0 <= i < |path| ==> ReadBack(path[i]) == path[i];
    } else if |path| > 0 {
      assert !NeedsQuote(path[0]);
    }
  }

  lemma QuotedBytes(path: Bytes)
    requires exists i :: 0 <= i < |path| && NeedsQuote(path[i])
    ensures Unquote(GitPrint(path)) == Unquoted(ReadBackAll(path))
  {
    assert GitPrint(path)[1..|GitPrint(path)| - 1] == QuoteBody(path);
    QuotedBodyReadsBack(path);
  }

  // ---- The text ----

  /**
   The text that comes out, as the UTF-8 it stands for. Bytes go through a decoder that replaces what is not
   well-formed, which is left open here, and drops a byte order mark in front.
   */
  function TextOf(result: Result): Option<Bytes> {
    match result
    case Verbatim(path) =>
      if forall i :: 0 <= i < |path| ==> path[i] < 0x80 then Some(seq(|path|, i requires 0 <= i < |path| => Low(path[i]))) else None
    case Unquoted(bytes) => Decode(bytes)
  }

  /** Reading letters for control bytes leaves the text well-formed. */
  lemma {:induction false} ReadBackIsUtf8(path: Bytes)
    requires ValidUtf8(path)
    ensures ValidUtf8(ReadBackAll(path))
    decreases |path|
  {
    if path != [] {
      var n := Lead(path);
      ReadBackLead(path);
      ReadBackIsUtf8(path[n..]);
      assert ReadBackAll(path)[n..] == ReadBackAll(path[n..]);
    }
  }

  lemma ReadBackLead(path: Bytes)
    requires path != [] && Lead(path) > 0
    ensures Lead(ReadBackAll(path)) == Lead(path)
  {
    var r := ReadBackAll(path);
    assert forall i :: 0 <= i < |path| && path[i] >= 0x80 ==> r[i] == path[i];
    assert path[0] < 0x80 ==> r[0] < 0x80;
  }

  /**
   The round trip up to the text: a path in UTF-8 that git printed is read back as it was exactly when it has none
   of the five control bytes and does not begin with a byte order mark.
   */
  lemma UnquotedTextIsThePath(path: Bytes)
    requires ValidUtf8(path)
    ensures TextOf(Unquote(GitPrint(path))) == Some(path) <==> !(BOM <= path) && forall i :: 0 <= i < |path| ==> !Mangled(path[i])
  {
    if exists i :: 0 <= i < |path| && NeedsQuote(path[i]) {
      QuotedResult(path);
      ReadBackIsUtf8(path);
      DecodedIsThePath(path);
      hide *;
    } else {
      PlainText(path);
    }
  }

  lemma DecodedIsThePath(path: Bytes)
    ensures Decoded(ReadBackAll(path)) == path <==> !(BOM <= path) && forall i :: 0 <= i < |path| ==> !Mangled(path[i])
  {
    var r := ReadBackAll(path);
    assert forall i :: 0 <= i < |path| ==> (r[i] == path[i] <==> !Mangled(path[i])) && (path[i] >= 0x80 || r[i] >= 0x80 ==> r[i] == path[i]);
    assert BOM <= r <==> BOM <= path by {
      assert |path| >= 3 ==> (BOM <= path <==> path[0] == 0xEF && path[1] == 0xBB && path[2] == 0xBF);
      assert |r| >= 3 ==> (BOM <= r <==> r[0] == 0xEF && r[1] == 0xBB && r[2] == 0xBF);
    }
  }

  lemma PlainText(path: Bytes)
    requires forall i :: 0 <= i < |path| ==> !NeedsQuote(path[i])
    ensures TextOf(Unquote(GitPrint(path))) == Some(path)
    ensures !(BOM <= path) && forall i :: 0 <= i < |path| ==> !Mangled(path[i])
  {
    UnquoteUndoesGitPrint(path);
    var result := Unquote(GitPrint(path));
    hide Unquote, GitPrint;
    assert TextOf(result).value == path;
    assert path == [] || path[0] != 0xEF;
  }

  lemma QuotedResult(path: Bytes)
    requires exists i :: 0 <= i < |path| && NeedsQuote(path[i])
    ensures Unquote(GitPrint(path)) == Unquoted(ReadBackAll(path))
    ensures TextOf(Unquote(GitPrint(path))) == Decode(ReadBackAll(path))
    ensures ValidUtf8(ReadBackAll(path)) ==> Decode(ReadBackAll(path)) == Some(Decoded(ReadBackAll(path)))
  {
    QuotedBytes(path);
  }
}
