/** Collecting the change lists of a work tree: staged, unstaged and untracked paths with their reasons. */
module ChangeCollection {
  import opened Options
  import opened GitChanges

  datatype Collected = Widened(fallback: string) | Collected(reasons: map<Bytes, seq<Reason>>)

  /** The paths of an untracked list carry that reason. */
  function AsUntracked(paths: seq<Bytes>): (r: seq<Entry>)
    ensures |r| == |paths| && forall i :: 0 <= i < |r| ==> r[i] == Entry(paths[i], Untracked)
  {
    seq(|paths|, i requires 0 <= i < |paths| => Entry(paths[i], Untracked))
  }

  /** The map holds exactly these entries: every path with each of its reasons once. */
  ghost predicate Holds(reasons: map<Bytes, seq<Reason>>, entries: seq<Entry>) {
    && (forall p, r :: (p in reasons && r in reasons[p]) <==> Entry(p, r) in entries)
    && (forall p :: p in reasons ==> reasons[p] != [])
    && (forall p :: p in reasons ==> forall i, j :: 0 <= i < j < |reasons[p]| ==> reasons[p][i] != reasons[p][j])
  }

  function Add(reasons: map<Bytes, seq<Reason>>, e: Entry): map<Bytes, seq<Reason>> {
    var current := if e.path in reasons then reasons[e.path] else [];
    reasons[e.path := if e.reason in current then current else current + [e.reason]]
  }

  lemma AddHolds(reasons: map<Bytes, seq<Reason>>, entries: seq<Entry>, e: Entry)
    requires Holds(reasons, entries)
    ensures Holds(Add(reasons, e), entries + [e])
  {
    var r := Add(reasons, e);
    forall p, why ensures (p in r && why in r[p]) <==> Entry(p, why) in entries + [e] {
      assert (p in reasons && why in reasons[p]) <==> Entry(p, why) in entries;
    }
  }

  /** The loop over the entries of all the lists. */
  method Gather(entries: seq<Entry>) returns (reasons: map<Bytes, seq<Reason>>)
    ensures Holds(reasons, entries)
  {
    hide Add;
    reasons := map[];
    for i := 0 to |entries|
      invariant Holds(reasons, entries[..i])
    {
      AddHolds(reasons, entries[..i], entries[i]);
      assert entries[..i + 1] == entries[..i] + [entries[i]];
      reasons := Add(reasons, entries[i]);
    }
    assert entries[..|entries|] == entries;
  }

  /** What the three lists spell, each on its own. */
  datatype Lists = Lists(staged: Option<seq<Entry>>, unstaged: Option<seq<Entry>>, untracked: Option<seq<Bytes>>) {
    predicate Readable() {
      staged.Some? && unstaged.Some? && untracked.Some?
    }

    function Entries(): seq<Entry>
      requires Readable()
    {
      staged.value + unstaged.value + AsUntracked(untracked.value)
    }
  }

  ghost predicate Spell(staged: Bytes, unstaged: Bytes, untracked: Bytes, lists: Lists) {
    ParsesTo(staged, Staged, lists.staged) && ParsesTo(unstaged, Unstaged, lists.unstaged) && SplitsTo(untracked, lists.untracked)
  }

  /**
   Either the lists could not be read, and the gate widens, or every path that one of them names is
   there with all its reasons, and no other path is.
   */
  method CollectNulChanges(staged: Bytes, unstaged: Bytes, untracked: Bytes, baseKnown: bool, gitFailed: bool) returns (c: Collected)
    ensures exists lists ::
      && Spell(staged, unstaged, untracked, lists)
      && (c.Widened? <==> gitFailed || !baseKnown || !lists.Readable())
      && (c.Collected? ==> Holds(c.reasons, lists.Entries()))
  {
    hide ParsesTo, SplitsTo, Holds, AsUntracked;
    var a := ParseNulNameStatus(staged, Staged);
    var b := ParseNulNameStatus(unstaged, Unstaged);
    var u := SplitNul(untracked);
    var lists := Lists(a, b, u);
    assert Spell(staged, unstaged, untracked, lists);
    if gitFailed || !baseKnown {
      c := Widened(if gitFailed then "git status could not be read" else "comparison base is unknown");
    } else if !lists.Readable() {
      c := Widened("git status could not be read");
    } else {
      var reasons := Gather(lists.Entries());
      c := Collected(reasons);
    }
  }

  lemma SplitOfPrint(fields: seq<Bytes>, parts: Option<seq<Bytes>>)
    requires Plain(fields) && AllValid(fields) && SplitsTo(Encode(fields), parts)
    ensures parts == Some(DecodedAll(fields))
  {
    SplitFromPieces(Encode(fields), fields);
  }

  /**
   What git prints for the work tree is collected, and nothing else is: exactly the paths of the printed
   records and of the untracked list, as the decoder hands them over, each with exactly its reasons.
   */
  lemma PrintsAreCollected(staged: seq<Record>, unstaged: seq<Record>, untracked: seq<Bytes>, lists: Lists,
                           reasons: map<Bytes, seq<Reason>>)
    requires AllPrintable(staged) && AllPrintable(unstaged) && Plain(untracked) && AllValid(untracked)
    requires Spell(Printed(staged), Printed(unstaged), Encode(untracked), lists)
    requires lists.Readable() ==> Holds(reasons, lists.Entries())
    ensures lists.Readable()
    ensures forall p, r :: p in reasons && r in reasons[p] <==>
              || Entry(p, r) in Meanings(AllAsDecoded(staged), Staged) || Entry(p, r) in Meanings(AllAsDecoded(unstaged), Unstaged)
              || (r == Untracked && p in DecodedAll(untracked))
  {
    WholePrintParses(staged, Staged, lists.staged);
    WholePrintParses(unstaged, Unstaged, lists.unstaged);
    SplitOfPrint(untracked, lists.untracked);
    hide ParsesTo, SplitsTo, Meanings, AllAsDecoded, DecodedAll, Printed, Encode, AsUntracked, AllPrintable, Plain, AllValid;
    UntrackedEntries(lists.untracked.value);
  }

  lemma UntrackedEntries(paths: seq<Bytes>)
    ensures forall p, r :: Entry(p, r) in AsUntracked(paths) <==> r == Untracked && p in paths
  {
    forall p, r ensures Entry(p, r) in AsUntracked(paths) <==> r == Untracked && p in paths {
      if p in paths {
        var i :| 0 <= i < |paths| && paths[i] == p;
        assert AsUntracked(paths)[i] == Entry(p, Untracked);
      }
    }
  }

  /** So a path that does not begin with a byte order mark is there under its own name, whatever the other paths are. */
  lemma {:induction false} UnmarkedIsMeant(records: seq<Record>, i: nat, kind: Reason)
    requires i < |records| && Printable(records[i]) && !StartsWithMark(records[i])
    ensures forall e :: e in Meaning(records[i], kind) ==> e in Meanings(AllAsDecoded(records), kind)
  {
    assert AllAsDecoded(records)[1..] == AllAsDecoded(records[1..]);
    if i == 0 {
      StatusSurvives(records[0]);
    } else {
      UnmarkedIsMeant(records[1..], i - 1, kind);
    }
  }
}
