/**
 Reading git's change lists back. A decoded string is represented by the UTF-8 bytes it stands for, so
 decoding is validation plus the loss of a leading byte order mark.
 */
module GitChanges {
  import opened Options

  type Byte = b: nat | b < 256

  type Bytes = seq<Byte>

  // ---- TextDecoder("utf-8", fatal) ----

  predicate Tail(b: Bytes, i: nat, low: nat, high: nat) {
    i < |b| && low <= b[i] <= high
  }

  /** The length of the well-formed sequence at the front of b, or 0. */
  function Lead(b: Bytes): (n: nat)
    requires b != []
    ensures n <= |b|
  {
    var c := b[0];
    if c < 0x80 then 1
    else if 0xC2 <= c <= 0xDF then (if Tail(b, 1, 0x80, 0xBF) then 2 else 0)
    else if 0xE0 <= c <= 0xEF then
      (if Tail(b, 1, if c == 0xE0 then 0xA0 else 0x80, if c == 0xED then 0x9F else 0xBF) && Tail(b, 2, 0x80, 0xBF) then 3 else 0)
    else if 0xF0 <= c <= 0xF4 then
      (if Tail(b, 1, if c == 0xF0 then 0x90 else 0x80, if c == 0xF4 then 0x8F else 0xBF)
          && Tail(b, 2, 0x80, 0xBF) && Tail(b, 3, 0x80, 0xBF) then 4 else 0)
    else 0
  }

  predicate ValidUtf8(b: Bytes) {
    b == [] || (Lead(b) > 0 && ValidUtf8(b[Lead(b)..]))
  }

  const BOM: Bytes := [0xEF, 0xBB, 0xBF]

  /** The decoder drops one byte order mark at the front. */
  function Decoded(b: Bytes): Bytes {
    if BOM <= b then b[3..] else b
  }

  function Decode(b: Bytes): Option<Bytes> {
    if ValidUtf8(b) then Some(Decoded(b)) else None
  }

  // ---- NUL-terminated fields ----

  predicate NulFree(b: Bytes) {
    forall i :: 0 <= i < |b| ==> b[i] != 0
  }

  /** Every field followed by a NUL. */
  function Encode(fields: seq<Bytes>): Bytes {
    if fields == [] then [] else Encode(fields[..|fields| - 1]) + fields[|fields| - 1] + [0]
  }

  ghost predicate Plain(fields: seq<Bytes>) {
    forall i :: 0 <= i < |fields| ==> NulFree(fields[i])
  }

  ghost predicate AllValid(fields: seq<Bytes>) {
    forall i :: 0 <= i < |fields| ==> ValidUtf8(fields[i])
  }

  function DecodedAll(fields: seq<Bytes>): (d: seq<Bytes>)
    ensures |d| == |fields| && forall i :: 0 <= i < |fields| ==> d[i] == Decoded(fields[i])
  {
    seq(|fields|, i requires 0 <= i < |fields| => Decoded(fields[i]))
  }

  /** The last NUL-terminated field ends the text, so the text determines the fields. */
  lemma {:induction false} EncodeIsInjective(a: seq<Bytes>, b: seq<Bytes>)
    requires Plain(a) && Plain(b) && Encode(a) == Encode(b)
    ensures a == b
  {
    EncodeEndsWithNul(a);
    EncodeEndsWithNul(b);
    if a != [] && b != [] {
      var x, y := a[|a| - 1], b[|b| - 1];
      EncodeEndsWithNul(a[..|a| - 1]);
      EncodeEndsWithNul(b[..|b| - 1]);
      if |x| <= |y| {
        LastField(Encode(a[..|a| - 1]), x, Encode(b[..|b| - 1]), y);
      } else {
        LastField(Encode(b[..|b| - 1]), y, Encode(a[..|a| - 1]), x);
      }
      EncodeIsInjective(a[..|a| - 1], b[..|b| - 1]);
      assert a == a[..|a| - 1] + [x] && b == b[..|b| - 1] + [y];
    }
  }

  lemma EncodeEndsWithNul(fields: seq<Bytes>)
    ensures fields == [] ==> Encode(fields) == []
    ensures fields != [] ==> |Encode(fields)| > 0 && Encode(fields)[|Encode(fields)| - 1] == 0
  {
  }

  lemma LastField(p: Bytes, x: Bytes, q: Bytes, y: Bytes)
    requires p + x + [0] == q + y + [0] && NulFree(x) && NulFree(y) && |x| <= |y|
    requires (p != [] ==> p[|p| - 1] == 0) && (q != [] ==> q[|q| - 1] == 0)
    ensures p == q && x == y
  {
    var whole := p + x;
    assert whole == (p + x + [0])[..|p| + |x|] == (q + y + [0])[..|q| + |y|] == q + y;
    assert forall i :: |q| <= i < |whole| ==> whole[i] == y[i - |q|];
    assert p != [] ==> whole[|p| - 1] == 0;
    assert |p| == |q|;
    assert p == whole[..|p|] && q == whole[..|q|] && x == whole[|p|..] && y == whole[|q|..];
  }

  /** The fields of a text that is empty or ends with a NUL. */
  function RawSplit(bytes: Bytes): (fields: seq<Bytes>)
    requires bytes == [] || bytes[|bytes| - 1] == 0
    ensures Plain(fields) && Encode(fields) == bytes
  {
    if bytes == [] then []
    else
      var cut := LastStart(bytes[..|bytes| - 1]);
      var fields := RawSplit(bytes[..cut]);
      var field := bytes[cut..|bytes| - 1];
      assert (fields + [field])[..|fields|] == fields;
      assert bytes == bytes[..cut] + field + [0];
      fields + [field]
  }

  /** Where the last field of an unterminated text begins: just behind its last NUL. */
  function LastStart(b: Bytes): (at: nat)
    ensures at <= |b| && NulFree(b[at..]) && (at > 0 ==> b[at - 1] == 0)
  {
    if b == [] || b[|b| - 1] == 0 then |b|
    else
      var at := LastStart(b[..|b| - 1]);
      assert forall i :: at <= i < |b| - 1 ==> b[i] == b[..|b| - 1][i] && b[i] == b[..|b| - 1][at..][i - at];
      at
  }

  /** What `splitNul` returns for any bytes. */
  ghost predicate SplitsTo(bytes: Bytes, parts: Option<seq<Bytes>>) {
    if bytes != [] && bytes[|bytes| - 1] != 0 then parts == None
    else
      var fields := RawSplit(bytes);
      if AllValid(fields) then parts == Some(DecodedAll(fields)) else parts == None
  }

  lemma SplitFromPieces(bytes: Bytes, fields: seq<Bytes>)
    requires Plain(fields) && Encode(fields) == bytes
    ensures bytes != [] ==> bytes[|bytes| - 1] == 0
    ensures RawSplit(bytes) == fields
  {
    EncodeEndsWithNul(fields);
    EncodeIsInjective(RawSplit(bytes), fields);
  }

  lemma EncodeNothing()
    ensures Encode([]) == []
  {
  }

  lemma EncodeSnoc(fields: seq<Bytes>, field: Bytes)
    ensures Encode(fields + [field]) == Encode(fields) + field + [0]
  {
    assert (fields + [field])[..|fields|] == fields;
  }

  lemma EncodeNext(bytes: Bytes, fields: seq<Bytes>, start: nat, index: nat)
    requires start <= index < |bytes| && bytes[index] == 0 && Encode(fields) == bytes[..start]
    ensures Encode(fields + [bytes[start..index]]) == bytes[..index + 1]
  {
    EncodeSnoc(fields, bytes[start..index]);
    assert bytes[..index + 1] == bytes[..start] + bytes[start..index] + [0];
  }

  method SplitNul(bytes: Bytes) returns (parts: Option<seq<Bytes>>)
    ensures SplitsTo(bytes, parts)
  {
    if |bytes| == 0 {
      assert RawSplit(bytes) == [];
      return Some([]);
    }
    if bytes[|bytes| - 1] != 0 {
      return None;
    }
    var found: seq<Bytes> := [];
    ghost var fields: seq<Bytes> := [];
    var start := 0;
    hide Encode, RawSplit, SplitsTo;
    EncodeNothing();
    assert bytes[..0] == [];
    for index := 0 to |bytes|
      invariant 0 <= start <= index
      invariant Plain(fields) && AllValid(fields) && Encode(fields) == bytes[..start]
      invariant found == DecodedAll(fields)
      invariant forall i :: start <= i < index ==> bytes[i] != 0
      invariant index == |bytes| ==> start == |bytes|
    {
      if bytes[index] == 0 {
        var field := bytes[start..index];
        EncodeNext(bytes, fields, start, index);
        var text := Decode(field);
        if text.None? {
          BadFieldSpoils(bytes, fields, field, index);
          return None;
        }
        found := found + [text.value];
        fields := fields + [field];
        start := index + 1;
      }
    }
    assert bytes[..|bytes|] == bytes;
    SplitFromPieces(bytes, fields);
    parts := Some(found);
  }

  lemma {:induction false} RestSplits(bytes: Bytes, fields: seq<Bytes>, at: nat) returns (all: seq<Bytes>)
    requires at <= |bytes| && bytes != [] && bytes[|bytes| - 1] == 0
    requires Plain(fields) && Encode(fields) == bytes[..at]
    ensures Plain(all) && Encode(all) == bytes && fields <= all
    decreases |bytes| - at
  {
    if at == |bytes| {
      assert bytes[..at] == bytes;
      all := fields;
    } else {
      var stop := at;
      while bytes[stop] != 0
        invariant at <= stop < |bytes| && forall i :: at <= i < stop ==> bytes[i] != 0
        decreases |bytes| - stop
      {
        stop := stop + 1;
      }
      var field := bytes[at..stop];
      EncodeSnoc(fields, field);
      assert bytes[..stop + 1] == bytes[..at] + field + [0];
      all := RestSplits(bytes, fields + [field], stop + 1);
      assert fields <= fields + [field];
    }
  }

  lemma BadFieldSpoils(bytes: Bytes, fields: seq<Bytes>, field: Bytes, index: nat)
    requires bytes != [] && bytes[|bytes| - 1] == 0 && index < |bytes|
    requires Plain(fields) && NulFree(field) && Encode(fields + [field]) == bytes[..index + 1] && !ValidUtf8(field)
    ensures !AllValid(RawSplit(bytes))
  {
    var all := RestSplits(bytes, fields + [field], index + 1);
    SplitFromPieces(bytes, all);
    assert all[|fields|] == field;
  }

  // ---- Name-status records ----

  datatype Reason = Staged | Unstaged | Commit | RenameOld | RenameNew | Deleted | Untracked

  datatype Entry = Entry(path: Bytes, reason: Reason)

  /** What git prints: a status with one path, or a rename or copy with the old path and the new one. */
  datatype Record = Changed(status: Bytes, path: Bytes) | Renamed(status: Bytes, source: Bytes, target: Bytes)

  const UPPER_C: Byte := 67
  const UPPER_D: Byte := 68
  const UPPER_R: Byte := 82

  predicate Renames(status: Bytes) {
    status != [] && (status[0] == UPPER_R || status[0] == UPPER_C)
  }

  function FieldsOf(r: Record): seq<Bytes> {
    match r
    case Changed(status, path) => [status, path]
    case Renamed(status, source, target) => [status, source, target]
  }

  /** A record git can print: an ASCII status that fits its shape, and paths in UTF-8 without a NUL. */
  ghost predicate Printable(r: Record) {
    && r.status != [] && (forall i :: 0 <= i < |r.status| ==> 0 < r.status[i] < 0x80)
    && (r.Renamed? <==> Renames(r.status))
    && (forall f :: f in FieldsOf(r) ==> NulFree(f) && ValidUtf8(f))
  }

  ghost predicate AllPrintable(rs: seq<Record>) {
    forall i :: 0 <= i < |rs| ==> Printable(rs[i])
  }

  function AllFields(rs: seq<Record>): seq<Bytes> {
    if rs == [] then [] else FieldsOf(rs[0]) + AllFields(rs[1..])
  }

  function Printed(rs: seq<Record>): Bytes {
    Encode(AllFields(rs))
  }

  function Meaning(r: Record, kind: Reason): seq<Entry> {
    match r
    case Changed(status, path) => [Entry(path, if [UPPER_D] <= status then Deleted else kind)]
    case Renamed(_, source, target) => [Entry(source, RenameOld), Entry(target, RenameNew)]
  }

  /** The record with every field as the decoder hands it over. */
  function AsDecoded(r: Record): Record {
    match r
    case Changed(status, path) => Changed(Decoded(status), Decoded(path))
    case Renamed(status, source, target) => Renamed(Decoded(status), Decoded(source), Decoded(target))
  }

  function Meanings(rs: seq<Record>, kind: Reason): seq<Entry> {
    if rs == [] then [] else Meaning(rs[0], kind) + Meanings(rs[1..], kind)
  }

  function AllAsDecoded(rs: seq<Record>): (d: seq<Record>)
    ensures |d| == |rs| && forall i :: 0 <= i < |rs| ==> d[i] == AsDecoded(rs[i])
  {
    seq(|rs|, i requires 0 <= i < |rs| => AsDecoded(rs[i]))
  }

  /** The records that a list of decoded fields spells from position i on. */
  function ParseFields(fields: seq<Bytes>, i: nat, kind: Reason): Option<seq<Entry>>
    requires i <= |fields|
    decreases |fields| - i
  {
    if i == |fields| then Some([])
    else if fields[i] == [] || i + 1 == |fields| then None
    else if Renames(fields[i]) then
      if i + 2 == |fields| then None
      else
        var rest := ParseFields(fields, i + 3, kind);
        Onto([Entry(fields[i + 1], RenameOld), Entry(fields[i + 2], RenameNew)], rest)
    else
      var rest := ParseFields(fields, i + 2, kind);
      Onto([Entry(fields[i + 1], if [UPPER_D] <= fields[i] then Deleted else kind)], rest)
  }

  ghost predicate ParsesTo(bytes: Bytes, kind: Reason, found: Option<seq<Entry>>) {
    exists parts :: SplitsTo(bytes, parts) && found == (if parts.None? then None else ParseFields(parts.value, 0, kind))
  }

  method ParseNulNameStatus(bytes: Bytes, kind: Reason) returns (found: Option<seq<Entry>>)
    ensures ParsesTo(bytes, kind, found)
  {
    var parts := SplitNul(bytes);
    if parts.None? {
      return None;
    }
    found := ReadRecords(parts.value, kind);
  }

  /** Prepending what was already found to what the rest spells. */
  function Onto(entries: seq<Entry>, rest: Option<seq<Entry>>): Option<seq<Entry>> {
    if rest.None? then None else Some(entries + rest.value)
  }

  lemma OntoStep(entries: seq<Entry>, more: seq<Entry>, rest: Option<seq<Entry>>)
    ensures Onto(entries, Onto(more, rest)) == Onto(entries + more, rest)
    ensures Onto([], rest) == rest
    ensures Onto(entries, Some([])) == Some(entries)
  {
    assert rest.Some? ==> entries + (more + rest.value) == (entries + more) + rest.value;
    assert rest.Some? ==> [] + rest.value == rest.value;
    assert entries + [] == entries;
  }

  /** The loop over the fields: two per record, three for a rename or copy. */
  method ReadRecords(fields: seq<Bytes>, kind: Reason) returns (found: Option<seq<Entry>>)
    ensures found == ParseFields(fields, 0, kind)
  {
    var entries: seq<Entry> := [];
    var index := 0;
    OntoStep([], [], ParseFields(fields, 0, kind));
    while index < |fields|
      invariant index <= |fields|
      invariant ParseFields(fields, 0, kind) == Onto(entries, ParseFields(fields, index, kind))
      decreases |fields| - index
    {
      var status := fields[index];
      if status == [] || index + 1 == |fields| {
        return None;
      }
      var path := fields[index + 1];
      if Renames(status) {
        if index + 2 == |fields| {
          return None;
        }
        var renamed := fields[index + 2];
        OntoStep(entries, [Entry(path, RenameOld), Entry(renamed, RenameNew)], ParseFields(fields, index + 3, kind));
        entries := entries + [Entry(path, RenameOld), Entry(renamed, RenameNew)];
        index := index + 3;
      } else {
        var entry := Entry(path, if [UPPER_D] <= status then Deleted else kind);
        OntoStep(entries, [entry], ParseFields(fields, index + 2, kind));
        entries := entries + [entry];
        index := index + 2;
      }
    }
    OntoStep(entries, [], Some([]));
    found := Some(entries);
  }

  // ---- Parsing undoes printing ----

  lemma {:induction false} PrintableFields(rs: seq<Record>)
    requires AllPrintable(rs)
    ensures Plain(AllFields(rs)) && AllValid(AllFields(rs))
    ensures DecodedAll(AllFields(rs)) == AllFields(AllAsDecoded(rs))
  {
    hide Printable, Decoded, ValidUtf8, NulFree, FieldsOf;
    if rs != [] {
      PrintableFields(rs[1..]);
      assert AllAsDecoded(rs)[1..] == AllAsDecoded(rs[1..]);
      PrintableRecord(rs[0]);
      assert DecodedAll(FieldsOf(rs[0]) + AllFields(rs[1..])) == DecodedAll(FieldsOf(rs[0])) + DecodedAll(AllFields(rs[1..]));
    }
  }

  lemma PrintableRecord(r: Record)
    requires Printable(r)
    ensures Plain(FieldsOf(r)) && AllValid(FieldsOf(r)) && DecodedAll(FieldsOf(r)) == FieldsOf(AsDecoded(r))
  {
    forall i | 0 <= i < |FieldsOf(r)| ensures NulFree(FieldsOf(r)[i]) && ValidUtf8(FieldsOf(r)[i]) {
      assert FieldsOf(r)[i] in FieldsOf(r);
    }
  }

  lemma StatusSurvives(r: Record)
    requires Printable(r)
    ensures AsDecoded(r).status == r.status
  {
  }

  /** Shifting the parser over leading fields changes nothing. */
  lemma {:induction false} ParseShift(head: seq<Bytes>, tail: seq<Bytes>, i: nat, kind: Reason)
    requires i <= |tail|
    ensures ParseFields(head + tail, |head| + i, kind) == ParseFields(tail, i, kind)
    decreases |tail| - i
  {
    if i + 1 < |tail| && tail[i] != [] {
      if Renames(tail[i]) {
        if i + 2 < |tail| { ParseShift(head, tail, i + 3, kind); }
      } else {
        ParseShift(head, tail, i + 2, kind);
      }
    }
  }

  lemma ParseOneMore(r: Record, rest: seq<Bytes>, kind: Reason)
    requires r.status != [] && (r.Renamed? <==> Renames(r.status))
    ensures ParseFields(FieldsOf(r) + rest, 0, kind) == Onto(Meaning(r, kind), ParseFields(rest, 0, kind))
  {
    ParseShift(FieldsOf(r), rest, 0, kind);
    assert (FieldsOf(r) + rest)[0] == r.status && |FieldsOf(r)| <= |FieldsOf(r) + rest|;
    assert forall k :: 0 <= k < |FieldsOf(r)| ==> (FieldsOf(r) + rest)[k] == FieldsOf(r)[k];
  }

  /** Cutting a decoded print between two records parses the records before the cut; any other cut is refused. */
  lemma {:induction false} ParsesPrefix(rs: seq<Record>, m: nat, kind: Reason) returns (k: nat)
    requires forall i :: 0 <= i < |rs| ==> rs[i].status != [] && (rs[i].Renamed? <==> Renames(rs[i].status))
    requires m <= |AllFields(rs)|
    ensures k <= |rs|
    ensures var found := ParseFields(AllFields(rs)[..m], 0, kind);
            if |AllFields(rs[..k])| == m then found == Some(Meanings(rs[..k], kind)) else found.None?
    ensures m == |AllFields(rs)| ==> k == |rs|
  {
    k := 0;
    if m == 0 {
      assert AllFields(rs)[..m] == [];
      if rs != [] { assert |AllFields(rs)| >= |FieldsOf(rs[0])| > 0; }
    } else {
      var head, rest := FieldsOf(rs[0]), AllFields(rs[1..]);
      if m < |head| {
        assert AllFields(rs)[..m] == head[..m];
        assert AllFields(rs[..0]) == [];
      } else {
        var j := ParsesPrefix(rs[1..], m - |head|, kind);
        k := j + 1;
        assert rs[..k][1..] == rs[1..][..j];
        assert AllFields(rs[..k]) == head + AllFields(rs[1..][..j]);
        assert AllFields(rs)[..m] == head + rest[..m - |head|];
        ParseOneMore(rs[0], rest[..m - |head|], kind);
        hide ParseFields;
      }
    }
  }

  lemma {:induction false} EncodeConcat(a: seq<Bytes>, b: seq<Bytes>)
    ensures Encode(a + b) == Encode(a) + Encode(b)
  {
    hide Encode;
    if b == [] {
      assert a + b == a;
      EncodeNothing();
    } else {
      var n := |b| - 1;
      EncodeConcat(a, b[..n]);
      EncodeSnoc(a + b[..n], b[n]);
      EncodeSnoc(b[..n], b[n]);
      assert a + b == (a + b[..n]) + [b[n]] && b == b[..n] + [b[n]];
    }
  }

  /** A prefix that ends with a NUL is the encoding of the first few fields. */
  lemma {:induction false} PrefixOfEncoding(fields: seq<Bytes>, n: nat) returns (m: nat)
    requires Plain(fields) && n <= |Encode(fields)| && (n > 0 ==> Encode(fields)[n - 1] == 0)
    ensures m <= |fields| && Encode(fields[..m]) == Encode(fields)[..n]
    ensures n == |Encode(fields)| ==> m == |fields|
  {
    if n == |Encode(fields)| {
      m := |fields|;
      assert fields[..m] == fields;
      assert Encode(fields)[..n] == Encode(fields);
    } else {
      var last := |fields| - 1;
      var front := Encode(fields[..last]);
      assert forall i :: |front| <= i < |Encode(fields)| - 1 ==> Encode(fields)[i] == fields[last][i - |front|];
      assert n <= |front|;
      m := PrefixOfEncoding(fields[..last], n);
      assert fields[..last][..m] == fields[..m];
      assert Encode(fields)[..n] == front[..n];
    }
  }

  /**
   Any prefix of a print either is refused or decodes exactly to a prefix of the records: it is
   accepted precisely when it is itself the print of the first k records, for some k.
   */
  lemma PrefixParsesToPrefix(rs: seq<Record>, n: nat, kind: Reason, found: Option<seq<Entry>>) returns (k: nat)
    requires AllPrintable(rs) && n <= |Printed(rs)| && ParsesTo(Printed(rs)[..n], kind, found)
    ensures k <= |rs| && (n == |Printed(rs)| ==> k == |rs|)
    ensures found.Some? <==> Printed(rs)[..n] == Printed(rs[..k])
    ensures found.Some? ==> found.value == Meanings(AllAsDecoded(rs[..k]), kind)
    ensures n == |Printed(rs)| ==> found.Some?
  {
    hide Encode, ParseFields, Meanings, ValidUtf8, RawSplit, AllFields, FieldsOf, AllAsDecoded;
    var fields, cut := AllFields(rs), Printed(rs)[..n];
    PrintableFields(rs);
    EncodeEndsWithNul(fields);
    if cut != [] && cut[n - 1] != 0 {
      k := 0;
      NothingPrinted(rs[..0]);
      assert cut[n - 1] == Printed(rs)[n - 1];
    } else {
      var m := PrefixOfEncoding(fields, n);
      SplitFromPieces(cut, fields[..m]);
      assert DecodedAll(fields[..m]) == DecodedAll(fields)[..m];
      forall i | 0 <= i < |rs|
        ensures AllAsDecoded(rs)[i].status == rs[i].status && (AllAsDecoded(rs)[i].Renamed? <==> rs[i].Renamed?)
      {
        assert Printable(rs[i]);
        StatusSurvives(rs[i]);
      }
      k := ParsesPrefix(AllAsDecoded(rs), m, kind);
      assert AllAsDecoded(rs)[..k] == AllAsDecoded(rs[..k]);
      PrintableFields(rs[..k]);
      assert |AllFields(rs[..k])| == |AllFields(AllAsDecoded(rs[..k]))|;
      FieldsOfPrefix(rs, k);
      if |AllFields(rs[..k])| == m {
        assert AllFields(rs[..k]) == fields[..m];
      } else if Printed(rs[..k]) == cut {
        EncodeIsInjective(AllFields(rs[..k]), fields[..m]);
      }
      if n == |Printed(rs)| { assert rs[..k] == rs; }
    }
  }

  lemma NothingPrinted(rs: seq<Record>)
    requires rs == []
    ensures Printed(rs) == []
  {
  }

  lemma {:induction false} FieldsOfPrefix(rs: seq<Record>, k: nat)
    requires k <= |rs|
    ensures AllFields(rs[..k]) <= AllFields(rs)
  {
    if k > 0 {
      FieldsOfPrefix(rs[1..], k - 1);
      assert rs[..k][1..] == rs[1..][..k - 1];
    }
  }

  predicate StartsWithMark(r: Record) {
    match r
    case Changed(_, path) => BOM <= path
    case Renamed(_, source, target) => BOM <= source || BOM <= target
  }

  /** The parser always accepts a whole print. */
  lemma WholePrintParses(rs: seq<Record>, kind: Reason, found: Option<seq<Entry>>)
    requires AllPrintable(rs) && ParsesTo(Printed(rs), kind, found)
    ensures found == Some(Meanings(AllAsDecoded(rs), kind))
  {
    assert Printed(rs)[..|Printed(rs)|] == Printed(rs);
    var k := PrefixParsesToPrefix(rs, |Printed(rs)|, kind, found);
    assert rs[..|rs|] == rs;
  }

  /** And returns the printed paths exactly when none of them begins with a byte order mark. */
  lemma RoundTripUnlessMarked(rs: seq<Record>, kind: Reason, found: Option<seq<Entry>>)
    requires AllPrintable(rs) && ParsesTo(Printed(rs), kind, found)
    ensures found == Some(Meanings(rs, kind)) <==> forall i :: 0 <= i < |rs| ==> !StartsWithMark(rs[i])
  {
    WholePrintParses(rs, kind, found);
    hide Meanings, ParsesTo;
    MeaningsAgree(rs, AllAsDecoded(rs), kind);
    forall i | 0 <= i < |rs| ensures Meaning(AsDecoded(rs[i]), kind) == Meaning(rs[i], kind) <==> !StartsWithMark(rs[i]) {
      assert Printable(rs[i]);
      StatusSurvives(rs[i]);
    }
  }

  lemma {:induction false} MeaningsAgree(rs: seq<Record>, ds: seq<Record>, kind: Reason)
    requires |rs| == |ds|
    requires forall i :: 0 <= i < |rs| ==> (rs[i].Changed? <==> ds[i].Changed?)
    ensures Meanings(rs, kind) == Meanings(ds, kind) <==> forall i :: 0 <= i < |rs| ==> Meaning(rs[i], kind) == Meaning(ds[i], kind)
  {
    if rs != [] {
      MeaningsAgree(rs[1..], ds[1..], kind);
      var a, b, x, y := Meaning(rs[0], kind), Meaning(ds[0], kind), Meanings(rs[1..], kind), Meanings(ds[1..], kind);
      assert |a| == |b|;
      assert a == (a + x)[..|a|] && b == (b + y)[..|a|] && x == (a + x)[|a|..] && y == (b + y)[|a|..];
      assert forall i :: 0 <= i < |rs[1..]| ==> rs[1..][i] == rs[i + 1] && ds[1..][i] == ds[i + 1];
      if forall i :: 0 <= i < |rs[1..]| ==> Meaning(rs[1..][i], kind) == Meaning(ds[1..][i], kind) {
        forall i | 1 <= i < |rs| ensures Meaning(rs[i], kind) == Meaning(ds[i], kind) {
          assert rs[i] == rs[1..][i - 1];
        }
      }
    }
  }
}
