/**
 Assembling the text of an utterance from the events of the realtime recogniser, which may come before
 or after the utterance is finalised, in any order.
 */
module RealtimeAssembly {
  import opened Options
  import opened CaptureEntries
  import SpeechText

  /** What the recogniser has said about one utterance. */
  datatype Sound = Speech | Partial(text: string) | Final(text: string)

  /** How an entry became complete: what had been said by then, the interim text of that moment, and its text. */
  datatype Move = Move(heard: seq<Sound>, shown: string, text: Option<string>)

  /** All the final texts, in order. */
  ghost function Text(heard: seq<Sound>): string {
    if heard == [] then ""
    else
      var last := heard[|heard| - 1];
      Text(heard[..|heard| - 1]) + if last.Final? then last.text else ""
  }

  ghost predicate HasFinal(heard: seq<Sound>) {
    exists s :: s in heard && s.Final?
  }

  /** More was being said after the last final text: speech, or a partial once some text had been completed. */
  ghost predicate Unfinished(heard: seq<Sound>) {
    if heard == [] then false
    else
      var before := heard[..|heard| - 1];
      match heard[|heard| - 1]
      case Final(_) => false
      case Speech => Unfinished(before) || HasFinal(before)
      case Partial(_) => Unfinished(before) || Text(before) != ""
  }

  lemma TextSnoc(heard: seq<Sound>, s: Sound)
    ensures Text(heard + [s]) == Text(heard) + (if s.Final? then s.text else "")
    ensures HasFinal(heard + [s]) <==> HasFinal(heard) || s.Final?
    ensures Unfinished(heard + [s]) <==> !s.Final? && (Unfinished(heard) || if s.Speech? then HasFinal(heard) else Text(heard) != "")
  {
    var r := heard + [s];
    assert r[..|heard|] == heard && r[|heard|] == s;
  }

  /** At j something began that no final has closed. */
  ghost predicate OpenFrom(heard: seq<Sound>, j: nat) {
    && j < |heard| && (forall k :: j <= k < |heard| ==> !heard[k].Final?)
    && (if heard[j].Speech? then HasFinal(heard[..j]) else Text(heard[..j]) != "")
  }

  lemma OpenFromPrefix(heard: seq<Sound>, j: nat)
    requires heard != []
    ensures var n := |heard| - 1; j < n && !heard[n].Final? ==> (OpenFrom(heard, j) <==> OpenFrom(heard[..n], j))
  {
    hide HasFinal, Text;
    var n := |heard| - 1;
    if j < n {
      assert heard[..n][..j] == heard[..j];
      assert forall k :: 0 <= k < n ==> heard[..n][k] == heard[k];
    }
  }

  /** Unfinished, without recursion: some sound after a final, with no final after it. */
  lemma {:induction false} UnfinishedMeans(heard: seq<Sound>)
    ensures Unfinished(heard) <==> exists j: nat :: OpenFrom(heard, j)
  {
    hide HasFinal, Text;
    if heard != [] {
      var n := |heard| - 1;
      UnfinishedMeans(heard[..n]);
      forall j: nat ensures j < n && !heard[n].Final? ==> (OpenFrom(heard, j) <==> OpenFrom(heard[..n], j)) {
        OpenFromPrefix(heard, j);
      }
      if heard[n].Final? {
        assert forall j: nat :: !OpenFrom(heard, j);
      } else if Unfinished(heard[..n]) {
        var j: nat :| OpenFrom(heard[..n], j);
        assert OpenFrom(heard, j);
      } else {
        assert forall j: nat :: OpenFrom(heard, j) ==> j == n;
        assert Unfinished(heard) ==> OpenFrom(heard, n);
      }
    }
  }

  /** The final texts alone, joined, are the text: nothing lost, nothing twice, in order. */
  ghost function Finals(heard: seq<Sound>): seq<string> {
    if heard == [] then []
    else
      var last := heard[|heard| - 1];
      Finals(heard[..|heard| - 1]) + if last.Final? then [last.text] else []
  }

  ghost function Join(texts: seq<string>): string {
    if texts == [] then "" else texts[0] + Join(texts[1..])
  }

  lemma {:induction false} JoinSnoc(texts: seq<string>, t: string)
    ensures Join(texts + [t]) == Join(texts) + t
  {
    if texts != [] {
      JoinSnoc(texts[1..], t);
      assert (texts + [t])[1..] == texts[1..] + [t];
    }
  }

  lemma {:induction false} TextJoinsFinals(heard: seq<Sound>)
    ensures Text(heard) == Join(Finals(heard))
  {
    if heard != [] {
      var n := |heard| - 1;
      TextJoinsFinals(heard[..n]);
      if heard[n].Final? {
        JoinSnoc(Finals(heard[..n]), heard[n].text);
      } else {
        assert Finals(heard) == Finals(heard[..n]);
      }
    }
  }

  function NonEmpty(s: string): Option<string> {
    if s == "" then None else Some(s)
  }

  /** The text that an entry completed then has: the trimmed finals, or what was shown when they are all blank. */
  ghost predicate Assembled(m: Move) {
    m.text == if SpeechText.Trim(Text(m.heard)) != "" then Some(SpeechText.Trim(Text(m.heard))) else NonEmpty(m.shown)
  }

  lemma JoinedIsAssembled(heard: seq<Sound>)
    ensures Assembled(Move(heard, "", NonEmpty(SpeechText.Trim(Text(heard)))))
  {
  }

  /** Unless all its finals are blank, a completed entry has the trimmed join of them as its text, whatever was shown. */
  lemma TextIsJoinOfFinals(m: Move)
    requires Assembled(m)
    ensures var joined := SpeechText.Trim(Join(Finals(m.heard))); m.text == if joined != "" then Some(joined) else NonEmpty(m.shown)
  {
    TextJoinsFinals(m.heard);
  }

  const PROVIDER: string := "Qwen ASR Realtime"

  /** A failure counts by its message: the source tests the text, so an empty one does not. */
  predicate FailedEarly(failures: map<string, string>, id: string) {
    id in failures && failures[id] != ""
  }

  class RealtimeCapture {
    var currentUtteranceId: Option<string>
    var interimText: string
    var error: Option<string>
    var stopAsked: bool
    var entries: seq<Entry>
    var earlyFinals: map<string, string>
    var earlyFailures: map<string, string>
    var partialAfterFinal: set<string>
    // What has been said about each utterance, which utterances have ended, and how entries became complete.
    ghost var history: map<string, seq<Sound>>
    ghost var ended: set<string>
    ghost var moves: map<string, Move>

    ghost function Heard(id: string): seq<Sound>
      reads `history
    {
      if id in history then history[id] else []
    }

    /** The finals kept for the current utterance are all the finals it has had. */
    ghost predicate Collects()
      reads `currentUtteranceId, `earlyFinals, `partialAfterFinal, `history, `ended
    {
      currentUtteranceId.Some? ==>
        var id := currentUtteranceId.value;
        && id !in ended
        && (id in earlyFinals <==> HasFinal(Heard(id)))
        && Early(id) == Text(Heard(id))
        && (id in partialAfterFinal <==> Unfinished(Heard(id)))
    }

    ghost function Early(id: string): string
      reads `earlyFinals
    {
      if id in earlyFinals then earlyFinals[id] else ""
    }

    /** So are the finals kept for an entry that still waits for its last one. */
    ghost predicate Waits()
      reads `entries, `earlyFinals, `history, `ended, `moves
    {
      && DistinctIds(entries)
      && (forall e :: e in entries ==> e.id in ended && !e.status.Transcribing?)
      && (forall e :: e in entries && e.status.Queued? ==>
            Early(e.id) == Text(Heard(e.id)) && e.id !in moves && e.provider == Some(PROVIDER))
    }

    /** Every entry that was completed had its finals put together, all of them, in order. */
    ghost predicate Assembles()
      reads `moves, `ended
    {
      forall id :: id in moves ==> Assembled(moves[id]) && id in ended
    }

    /** Only utterances that have begun are kept in mind. */
    ghost predicate Known()
      reads `currentUtteranceId, `earlyFinals, `earlyFailures, `partialAfterFinal, `ended
    {
      forall id :: id in earlyFinals || id in earlyFailures || id in partialAfterFinal ==> id in ended || currentUtteranceId == Some(id)
    }

    ghost predicate Valid()
      reads this
    {
      Collects() && Waits() && Assembles() && Known()
    }

    /** Starts beside the settled entries of earlier captures. */
    constructor (settled: seq<Entry>)
      requires DistinctIds(settled) && forall e :: e in settled ==> e.Settled()
      ensures Valid() && entries == settled && moves == map[]
    {
      currentUtteranceId, interimText, error, stopAsked := None, "", None, false;
      entries, earlyFinals, earlyFailures, partialAfterFinal := settled, map[], map[], {};
      history, moves := map[], map[];
      ended := set e | e in settled :: e.id;
    }

    /** Speech begins; the id is a new one, so nothing has been said about it. */
    method Begin(freshId: string)
      requires Valid() && currentUtteranceId.None? && freshId !in ended && freshId !in history
      modifies `currentUtteranceId, `interimText
      ensures Valid() && currentUtteranceId == Some(freshId)
    {
      currentUtteranceId, interimText := Some(freshId), "";
    }

    twostate lemma OnlyNoted(new id: string, new s: Sound)
      requires old(Valid()) && !s.Final? && history == old(history)[id := old(Heard(id)) + [s]]
      requires entries == old(entries) && earlyFinals == old(earlyFinals) && ended == old(ended) && moves == old(moves)
      requires currentUtteranceId == old(currentUtteranceId) && earlyFailures == old(earlyFailures)
      requires partialAfterFinal == old(partialAfterFinal) + if currentUtteranceId == Some(id) && Unfinished(Heard(id)) then {id} else {}
      ensures Valid()
    {
      hide Text, HasFinal, Unfinished, DistinctIds, Assembled;
      TextSnoc(old(Heard(id)), s);
      assert forall x: string :: x != id ==> Heard(x) == old(Heard(x));
      assert Heard(id) == old(Heard(id)) + [s];
      assert forall x: string :: Text(Heard(x)) == Text(old(Heard(x)));
    }

    method OnSpeechStarted(id: string)
      requires Valid()
      modifies `partialAfterFinal, `history
      ensures Valid() && history == old(history)[id := old(Heard(id)) + [Speech]]
    {
      hide Text, HasFinal, Unfinished, DistinctIds, Waits, Assembles;
      TextSnoc(Heard(id), Speech);
      var more := currentUtteranceId == Some(id) && id in earlyFinals;
      if more {
        partialAfterFinal := partialAfterFinal + {id};
      }
      history := history[id := Heard(id) + [Speech]];
      OnlyNoted(id, Speech);
    }

    /** A partial shows what has been completed of the utterance, followed by the new words. */
    method OnPartial(id: string, text: string)
      requires Valid()
      modifies `partialAfterFinal, `interimText, `history
      ensures Valid() && history == old(history)[id := old(Heard(id)) + [Partial(text)]]
      ensures interimText == if currentUtteranceId == Some(id) then Text(old(Heard(id))) + text else old(interimText)
    {
      hide Text, HasFinal, Unfinished, DistinctIds, Assembled, Waits, Assembles;
      TextSnoc(Heard(id), Partial(text));
      if currentUtteranceId == Some(id) {
        var completedPrefix := if id in earlyFinals then earlyFinals[id] else "";
        if completedPrefix != "" {
          partialAfterFinal := partialAfterFinal + {id};
        }
        interimText := completedPrefix + text;
      }
      history := history[id := Heard(id) + [Partial(text)]];
      OnlyNoted(id, Partial(text));
    }

    ghost predicate SettledStay(before: seq<Entry>)
      reads `entries
    {
      && |entries| == |before|
      && forall k :: 0 <= k < |before| ==> (before[k].Settled() ==> entries[k] == before[k]) && entries[k].id == before[k].id
    }

    lemma FindUnique(id: string)
      requires Waits()
      ensures forall e :: e in entries && e.id == id ==> Find(entries, id) == Some(e)
    {
      forall e | e in entries && e.id == id ensures Find(entries, id) == Some(e) {
        FindIsTheOne(entries, e);
      }
    }

    /** A final text: completes the entry that waits for it, or is kept until its utterance is finalised. */
    method OnFinal(id: string, text: string)
      requires Valid()
      modifies `entries, `earlyFinals, `partialAfterFinal, `history, `moves
      ensures Valid() && history == old(history)[id := old(Heard(id)) + [Final(text)]]
      ensures SettledStay(old(entries)) && MovesStay(old(moves))
      ensures forall k :: 0 <= k < |entries| ==>
                if old(entries)[k].id != id || !old(entries)[k].status.Queued? then entries[k] == old(entries)[k]
                else Joined(entries[k]) && id !in old(moves)
    {
      hide DistinctIds, Collects, Waits, Assembles, Known, Text, Find, Joined;
      var entry := Find(entries, id);
      FindUnique(id);
      if entry.Some? && entry.value.status.Queued? {
        Complete(id, text);
      } else {
        KeepFinal(id, text);
      }
    }

    /** The entry has been completed with the trimmed text of all its finals. */
    ghost predicate Joined(e: Entry)
      reads `moves, `history
    {
      && e.status.Completed? && e.text == NonEmpty(SpeechText.Trim(Text(Heard(e.id))))
      && e.id in moves && moves[e.id] == Move(Heard(e.id), "", e.text)
    }

    /** An entry is completed by the recogniser at most once. */
    ghost predicate MovesStay(before: map<string, Move>)
      reads `moves
    {
      forall id :: id in before ==> id in moves && moves[id] == before[id]
    }

    /** A final for the current utterance is joined to the earlier ones; for any other it comes too late. */
    method KeepFinal(id: string, text: string)
      requires Valid() && forall e :: e in entries && e.id == id ==> !e.status.Queued?
      modifies `earlyFinals, `partialAfterFinal, `history
      ensures Valid() && history == old(history)[id := old(Heard(id)) + [Final(text)]]
    {
      hide Text, HasFinal, Unfinished, DistinctIds, Assembled;
      TextSnoc(Heard(id), Final(text));
      assert forall e :: e in entries ==> e.id in ended;
      history := history[id := Heard(id) + [Final(text)]];
      if currentUtteranceId == Some(id) {
        earlyFinals := earlyFinals[id := (if id in earlyFinals then earlyFinals[id] else "") + text];
        partialAfterFinal := partialAfterFinal - {id};
      }
    }

    /** The waiting entry is completed with what was kept of its utterance followed by the last final. */
    method Complete(id: string, text: string)
      requires Valid() && HasId(entries, id) && forall e :: e in entries && e.id == id ==> e.status.Queued?
      modifies `entries, `earlyFinals, `partialAfterFinal, `history, `moves
      ensures Valid() && history == old(history)[id := old(Heard(id)) + [Final(text)]] && id !in old(moves)
      ensures |entries| == |old(entries)| && MovesStay(old(moves))
      ensures forall k :: 0 <= k < |entries| && old(entries)[k].id != id ==> entries[k] == old(entries)[k]
      ensures forall k :: 0 <= k < |entries| && old(entries)[k].id == id ==> Joined(entries[k]) && entries[k].id == id
    {
      hide Text, HasFinal, Unfinished, DistinctIds, Assembled, Collects, Waits, Assembles, Known, HasId, Early, SpeechText.Trim, NonEmpty;
      WaitingIsFresh(id);
      var whole := Absorb(id, text);
      SetCompleted(id, whole);
      StillWaits();
      JoinedIsAssembled(Heard(id));
      OthersKept(id);
    }

    /** Takes what was kept of the utterance and joins the last final to it. */
    method Absorb(id: string, text: string) returns (whole: Option<string>)
      requires Early(id) == Text(Heard(id))
      modifies `earlyFinals, `partialAfterFinal, `history, `moves
      ensures history == old(history)[id := old(Heard(id)) + [Final(text)]]
      ensures whole == NonEmpty(SpeechText.Trim(Text(Heard(id)))) && moves == old(moves)[id := Move(Heard(id), "", whole)]
      ensures earlyFinals == old(earlyFinals) - {id} && partialAfterFinal == old(partialAfterFinal) - {id}
      ensures forall x :: x != id ==> Early(x) == old(Early(x)) && Heard(x) == old(Heard(x))
    {
      hide Text, HasFinal, Unfinished;
      TextSnoc(Heard(id), Final(text));
      var prefix := if id in earlyFinals then earlyFinals[id] else "";
      whole := NonEmpty(SpeechText.Trim(prefix + text));
      history := history[id := Heard(id) + [Final(text)]];
      moves := moves[id := Move(Heard(id), "", whole)];
      earlyFinals, partialAfterFinal := earlyFinals - {id}, partialAfterFinal - {id};
    }

    method SetCompleted(id: string, text: Option<string>)
      modifies `entries
      ensures |entries| == |old(entries)|
      ensures forall k :: 0 <= k < |entries| && old(entries)[k].id != id ==> entries[k] == old(entries)[k]
      ensures forall k :: 0 <= k < |entries| && old(entries)[k].id == id ==>
                entries[k] == old(entries)[k].(status := Completed, text := text, provider := Some(PROVIDER))
    {
      entries := Update(entries, id, (e: Entry) => e.(status := Completed, text := text, provider := Some(PROVIDER)));
    }

    /** What is kept of the other utterances is as it was. */
    twostate lemma OthersKept(new id: string)
      requires old(Valid()) && id in ended && currentUtteranceId != Some(id) && ended == old(ended)
      requires currentUtteranceId == old(currentUtteranceId) && earlyFailures == old(earlyFailures)
      requires earlyFinals == old(earlyFinals) - {id} && partialAfterFinal == old(partialAfterFinal) - {id}
      requires forall x :: x != id ==> Heard(x) == old(Heard(x))
      requires id in moves && moves == old(moves)[id := moves[id]] && Assembled(moves[id])
      ensures Collects() && Assembles() && Known()
    {
      hide Text, HasFinal, Unfinished, DistinctIds, Assembled, Waits;
    }

    /** Entries that are as they were, or settled, need no more than was kept for them. */
    twostate lemma StillWaits()
      requires old(Waits()) && |entries| == |old(entries)| && old(ended) <= ended
      requires forall k :: 0 <= k < |entries| ==> entries[k].id == old(entries)[k].id
      requires forall k :: 0 <= k < |entries| && !entries[k].Settled() ==>
                 && entries[k] == old(entries)[k] && (entries[k].id in moves ==> entries[k].id in old(moves))
                 && Early(entries[k].id) == old(Early(entries[k].id)) && Heard(entries[k].id) == old(Heard(entries[k].id))
      ensures Waits()
    {
      hide Text, Early, Heard;
      forall e | e in entries ensures e.id in ended && !e.status.Transcribing? {
        var k :| 0 <= k < |entries| && entries[k] == e;
        assert old(entries)[k] in old(entries);
      }
      forall e | e in entries && e.status.Queued?
        ensures Early(e.id) == Text(Heard(e.id)) && e.id !in moves && e.provider == Some(PROVIDER)
      {
        var k :| 0 <= k < |entries| && entries[k] == e;
        assert old(entries)[k] in old(entries);
      }
    }

    /** A waiting entry has not been completed before, and its utterance has ended. */
    lemma WaitingIsFresh(id: string)
      requires Valid() && HasId(entries, id) && forall e :: e in entries && e.id == id ==> e.status.Queued?
      ensures id !in moves && id in ended && currentUtteranceId != Some(id) && Early(id) == Text(Heard(id))
    {
    }

    /** Ends the current utterance: its entry is complete, failed or waiting for a last final. */
    method Finalize(longEnough: bool)
      requires Valid() && currentUtteranceId.Some?
      modifies `entries, `earlyFinals, `earlyFailures, `partialAfterFinal, `moves, `ended, `currentUtteranceId, `interimText
      ensures Valid() && currentUtteranceId.None? && interimText == "" && MovesStay(old(moves))
      ensures ended == old(ended) + {old(currentUtteranceId.value)}
      ensures longEnough ==> Published(old(entries), old(currentUtteranceId.value), old(interimText), old(earlyFailures))
      ensures !longEnough ==> entries == old(entries) && moves == old(moves)
    {
      hide Published, Collects, Waits, Assembles, Known, Heard, Text;
      if longEnough {
        Publish();
      } else {
        Drop();
      }
    }

    method Drop()
      requires Valid() && currentUtteranceId.Some?
      modifies `ended, `currentUtteranceId, `interimText
      ensures Valid() && currentUtteranceId.None? && interimText == "" && ended == old(ended) + {old(currentUtteranceId.value)}
    {
      hide Text, HasFinal, Unfinished, DistinctIds, Assembled;
      ended := ended + {currentUtteranceId.value};
      currentUtteranceId, interimText := None, "";
    }

    /**
     The new entry is complete at once exactly when a final has come and nothing was said after it; else
     it has failed or waits.
     */
    ghost predicate Published(before: seq<Entry>, id: string, shown: string, failures: map<string, string>)
      reads `entries, `moves, `history
    {
      && |entries| == |before| + 1 && entries[1..] == before && entries[0].id == id && !entries[0].deliveryQueued
      && entries[0].provider == Some(PROVIDER)
      && entries[0].status == (if HasFinal(Heard(id)) && !Unfinished(Heard(id)) then Completed
                               else if FailedEarly(failures, id) then Failed else Queued)
      && (entries[0].status.Completed? ==> id in moves && moves[id] == Move(Heard(id), shown, entries[0].text))
      && Assembled(Move(Heard(id), shown, entries[0].text))
    }

    method Publish()
      requires Valid() && currentUtteranceId.Some?
      modifies `entries, `earlyFinals, `earlyFailures, `partialAfterFinal, `moves, `ended, `currentUtteranceId, `interimText
      ensures Valid() && currentUtteranceId.None? && interimText == "" && MovesStay(old(moves))
      ensures ended == old(ended) + {old(currentUtteranceId.value)}
      ensures Published(old(entries), old(currentUtteranceId.value), old(interimText), old(earlyFailures))
    {
      hide Text, Heard, HasFinal, Unfinished, DistinctIds, Waits, Assembles, Assembled, Known;
      var id := currentUtteranceId.value;
      var status, text := TakeEarly();
      ghost var move := Move(Heard(id), interimText, text);
      assert Assembled(move);
      entries := [Entry(id, status, text, Some(PROVIDER), false)] + entries;
      if status.Completed? {
        moves := moves[id := move];
      }
      ended := ended + {id};
      currentUtteranceId, interimText := None, "";
      assert entries[1..] == old(entries);
      NewWaits();
      MoreMoves(id);
      OnlyKnown();
    }

    /** What was kept of the current utterance decides how its entry begins; only finals it still waits for are kept. */
    method TakeEarly() returns (status: Status, text: Option<string>)
      requires Valid() && currentUtteranceId.Some?
      modifies `earlyFinals, `earlyFailures, `partialAfterFinal
      ensures currentUtteranceId.value !in ended
      ensures status == (if HasFinal(Heard(currentUtteranceId.value)) && !Unfinished(Heard(currentUtteranceId.value)) then Completed
                         else if FailedEarly(old(earlyFailures), currentUtteranceId.value) then Failed else Queued)
      ensures Assembled(Move(Heard(currentUtteranceId.value), interimText, text))
      ensures status.Queued? ==> Early(currentUtteranceId.value) == Text(Heard(currentUtteranceId.value))
      ensures currentUtteranceId.value !in moves
      ensures forall x :: x != currentUtteranceId.value ==> Early(x) == old(Early(x))
      ensures earlyFinals.Keys <= old(earlyFinals).Keys && earlyFailures.Keys <= old(earlyFailures).Keys
      ensures partialAfterFinal <= old(partialAfterFinal)
    {
      hide Text, HasFinal, Unfinished, DistinctIds, Waits;
      var id := currentUtteranceId.value;
      var early := if id in earlyFinals then Some(earlyFinals[id]) else None;
      var waitingForFinal := early.Some? && id in partialAfterFinal;
      if !waitingForFinal {
        earlyFinals := earlyFinals - {id};
      }
      partialAfterFinal := partialAfterFinal - {id};
      status := if early.Some? && !waitingForFinal then Completed else if FailedEarly(earlyFailures, id) then Failed else Queued;
      earlyFailures := earlyFailures - {id};
      var trimmed := SpeechText.Trim(if early.Some? then early.value else "");
      text := if trimmed != "" then Some(trimmed) else NonEmpty(interimText);
    }

    twostate lemma OnlyKnown()
      requires old(Known()) && earlyFinals.Keys <= old(earlyFinals).Keys && earlyFailures.Keys <= old(earlyFailures).Keys
      requires partialAfterFinal <= old(partialAfterFinal) && old(currentUtteranceId).Some?
      requires ended == old(ended) + {old(currentUtteranceId).value}
      ensures Known()
    {
      forall x | x in earlyFinals || x in earlyFailures || x in partialAfterFinal ensures x in ended {
        assert x in old(earlyFinals).Keys || x in old(earlyFailures).Keys || x in old(partialAfterFinal);
      }
    }

    twostate lemma MoreMoves(id: string)
      requires old(Assembles()) && old(ended) <= ended && id in ended
      requires forall x :: x in moves ==> if x == id then Assembled(moves[x]) else x in old(moves) && moves[x] == old(moves)[x]
      ensures Assembles()
    {
      hide Assembled;
    }

    /** The same with one more entry in front, whose utterance had not ended before. */
    twostate lemma NewWaits()
      requires old(Waits()) && entries != [] && entries[1..] == old(entries) && old(ended) <= ended
      requires entries[0].id !in old(ended) && entries[0].id in ended && !entries[0].status.Transcribing?
      requires forall x :: x in moves && x != entries[0].id ==> x in old(moves)
      requires (forall x :: x != entries[0].id ==> Early(x) == old(Early(x))) && history == old(history)
      requires entries[0].status.Queued? ==> Early(entries[0].id) == Text(Heard(entries[0].id))
      requires entries[0].status.Queued? ==> entries[0].id !in moves && entries[0].provider == Some(PROVIDER)
      ensures Waits()
    {
      hide Text, Early, Heard;
      forall e | e in entries ensures e == entries[0] || (e in old(entries) && e.id != entries[0].id) {
        assert e == entries[0] || e in entries[1..];
      }
      assert forall k :: 0 < k < |entries| ==> entries[k] == old(entries)[k - 1] && entries[k] in old(entries);
    }

    /** The recogniser gives an utterance up. */
    method OnFailed(id: Option<string>, message: string)
      requires Valid()
      modifies `entries, `earlyFailures, `error, `stopAsked
      ensures Valid() && SettledStay(old(entries))
      ensures id.Some? ==> stopAsked == old(stopAsked) && forall k :: 0 <= k < |entries| ==>
                entries[k] == if old(entries)[k].id == id.value && old(entries)[k].status.Queued?
                              then old(entries)[k].(status := Failed) else old(entries)[k]
      ensures id.None? ==> entries == old(entries) && stopAsked && error == Some(message) && earlyFailures == old(earlyFailures)
      ensures id.Some? && HasId(entries, id.value) ==> earlyFailures == old(earlyFailures) && error == old(error)
      ensures id.Some? && !HasId(entries, id.value) ==>
                if currentUtteranceId == id then earlyFailures == old(earlyFailures)[id.value := message] && error == old(error)
                else earlyFailures == old(earlyFailures) && error == Some(message)
    {
      hide Text, HasFinal, Unfinished, DistinctIds, Assembled, Collects, Assembles;
      if id.None? {
        error, stopAsked := Some(message), true;
        return;
      }
      var entry := Find(entries, id.value);
      FindUnique(id.value);
      if entry.Some? {
        if entry.value.status.Queued? {
          Settle((e: Entry) => e.id == id.value && e.status.Queued?);
        }
      } else if currentUtteranceId == id {
        earlyFailures := earlyFailures[id.value := message];
      } else {
        error := Some(message);
      }
    }

    /** The entries that a condition picks fail; they have all been waiting. */
    method Settle(picks: Entry -> bool)
      requires Valid() && forall e :: picks(e) ==> e.status.Queued?
      modifies `entries
      ensures Valid() && SettledStay(old(entries)) && |entries| == |old(entries)|
      ensures forall k :: 0 <= k < |entries| ==>
                entries[k] == if picks(old(entries)[k]) then old(entries)[k].(status := Failed) else old(entries)[k]
    {
      hide Text, HasFinal, Unfinished, Assembled, Collects, Assembles, Known;
      entries := seq(|entries|, k requires 0 <= k < |entries| reads this =>
                   if picks(entries[k]) then entries[k].(status := Failed) else entries[k]);
      forall k | 0 <= k < |entries| && !entries[k].Settled() ensures entries[k] == old(entries)[k] {
        assert old(entries)[k] in old(entries);
      }
      StillWaits();
    }

    /** The connection ended: what still waits has failed. */
    method OnStopped(recordingOrStarting: bool)
      requires Valid()
      modifies `entries, `stopAsked
      ensures Valid() && SettledStay(old(entries)) && stopAsked == (old(stopAsked) || recordingOrStarting)
      ensures forall e :: e in entries ==> e.Settled()
    {
      FailPending();
      stopAsked := stopAsked || recordingOrStarting;
    }

    method FailPending()
      requires Valid()
      modifies `entries
      ensures Valid() && SettledStay(old(entries)) && forall e :: e in entries ==> e.Settled()
    {
      hide Text, HasFinal, Unfinished, DistinctIds, Assembled, Collects, Assembles, Known;
      Settle((e: Entry) => e.status.Queued? && e.provider == Some(PROVIDER));
      forall e | e in entries ensures e.Settled() {
        var k :| 0 <= k < |entries| && entries[k] == e;
        assert old(entries)[k] in old(entries);
      }
    }

    /** The end of a stop, after the last utterance was finalised: nothing waits and nothing is kept. */
    method Finish()
      requires Valid() && currentUtteranceId.None?
      modifies `entries, `earlyFinals, `earlyFailures, `partialAfterFinal, `stopAsked
      ensures Valid() && SettledStay(old(entries)) && forall e :: e in entries ==> e.Settled()
      ensures earlyFinals == map[] && earlyFailures == map[] && partialAfterFinal == {}
    {
      hide Text, HasFinal, Unfinished, DistinctIds, Assembled;
      FailPending();
      earlyFinals, earlyFailures, partialAfterFinal, stopAsked := map[], map[], {}, false;
    }

    /** A delivery marks, fails or retries a settled entry; to the recogniser it stays settled. */
    method DeliveryChanges(id: string, change: Entry -> Entry)
      requires Valid() && forall e :: e in entries && e.id == id ==> e.Settled() && change(e).Settled() && change(e).id == id
      modifies `entries
      ensures Valid() && entries == Update(old(entries), id, change)
    {
      hide Text, HasFinal, Unfinished, DistinctIds, Assembled, Collects, Assembles, Known;
      entries := Update(entries, id, change);
      forall k | 0 <= k < |entries|
        ensures entries[k].id == old(entries)[k].id && (entries[k].Settled() || entries[k] == old(entries)[k])
      {
        assert old(entries)[k] in old(entries);
      }
      StillWaits();
    }
  }
}
