/**
 The recognition queues of a capture over HTTP, between awaits: every method is what runs from one
 await to the next, so any order of calls that their preconditions allow is an interleaving.
 Each drainer also pauses between finishing one job and looking for the next one.
 */
module RecognitionQueues {
  import opened Options
  import opened CaptureEntries
  import opened DeliveryLog
  import SpeechText

  const MAX_PENDING_FINALS: nat := 8

  datatype Phase = Idle | Starting | Recording | Stopping

  /** How far a stop has come; Draining holds which drains it awaits. */
  datatype Stage = NotStopping | Closing | Draining(finalRun: nat, partialRun: nat) | Releasing

  datatype Running = Running(id: string, sequence: nat)

  datatype Outcome = Recognized(text: string, provider: string) | NoSpeech | Broken(message: string)

  datatype RecognitionError = RecognitionError(sequence: nat, message: string)

  /** The entries agree with the final queue: queued entries wait in it, the transcribing one has been taken from it. */
  ghost predicate Tracks(entries: seq<Entry>, pending: seq<string>, running: Option<string>) {
    && DistinctIds(entries)
    && (forall e :: e in entries ==> (e.status.Queued? <==> e.id in pending))
    && (forall e :: e in entries ==> (e.status.Transcribing? <==> running == Some(e.id)))
  }

  ghost predicate Distinct(ids: seq<string>) {
    forall i, j :: 0 <= i < j < |ids| ==> ids[i] != ids[j]
  }

  lemma TracksStart(entries: seq<Entry>, pending: seq<string>, change: Entry -> Entry)
    requires pending != [] && Distinct(pending) && Tracks(entries, pending, None)
    requires forall e :: change(e).status.Transcribing? && change(e).id == e.id
    ensures Tracks(Update(entries, pending[0], change), pending[1..], Some(pending[0]))
  {
    var r := Update(entries, pending[0], change);
    forall e | e in r ensures (e.status.Queued? <==> e.id in pending[1..]) && (e.status.Transcribing? <==> pending[0] == e.id) {
      var k :| 0 <= k < |r| && r[k] == e;
      assert entries[k] in entries;
      assert pending == [pending[0]] + pending[1..];
    }
  }

  lemma TracksFinish(entries: seq<Entry>, pending: seq<string>, id: string, change: Entry -> Entry)
    requires Tracks(entries, pending, Some(id)) && id !in pending
    requires forall e :: change(e).Settled() && change(e).id == e.id
    ensures Tracks(Update(entries, id, change), pending, None)
  {
    var r := Update(entries, id, change);
    forall e | e in r ensures (e.status.Queued? <==> e.id in pending) && !e.status.Transcribing? {
      var k :| 0 <= k < |r| && r[k] == e;
      assert entries[k] in entries;
    }
  }

  lemma TracksSettled(entries: seq<Entry>, pending: seq<string>, running: Option<string>, id: string, change: Entry -> Entry)
    requires Tracks(entries, pending, running)
    requires forall e :: e in entries && e.id == id ==> e.Settled() && change(e).Settled() && change(e).id == e.id
    ensures Tracks(Update(entries, id, change), pending, running)
  {
    var r := Update(entries, id, change);
    forall e | e in r ensures (e.status.Queued? <==> e.id in pending) && (e.status.Transcribing? <==> running == Some(e.id)) {
      var k :| 0 <= k < |r| && r[k] == e;
      assert entries[k] in entries;
    }
  }

  lemma TracksNew(entries: seq<Entry>, pending: seq<string>, running: Option<string>, e: Entry)
    requires Tracks(entries, pending, running) && e.id !in pending && running != Some(e.id)
    requires !HasId(entries, e.id) && !e.status.Transcribing?
    ensures Tracks([e] + entries, if e.status.Queued? then pending + [e.id] else pending, running)
  {
    var p := if e.status.Queued? then pending + [e.id] else pending;
    forall x | x in [e] + entries ensures (x.status.Queued? <==> x.id in p) && (x.status.Transcribing? <==> running == Some(x.id)) {
      if x != e {
        assert x in entries;
      }
    }
  }

  /** A finished final request as its entry shows it. */
  function Recorded(e: Entry, outcome: Outcome): (r: Entry)
    ensures r.Settled() && r.id == e.id && r.deliveryQueued == e.deliveryQueued
  {
    match outcome
    case Recognized(text, provider) => e.(status := Completed, text := NonEmpty(SpeechText.Trim(text)), provider := Some(provider))
    case NoSpeech => e.(status := Completed, text := None)
    case Broken(_) => e.(status := Failed)
  }

  function NonEmpty(s: string): Option<string> {
    if s == "" then None else Some(s)
  }

  class Recognizer {
    var phase: Phase
    var stage: Stage
    var startupRunning: bool
    var currentUtteranceId: Option<string>
    var interimText: string
    var error: Option<string>
    var recognitionError: Option<RecognitionError>
    var recognitionSequence: nat
    var entries: seq<Entry>
    var pendingFinals: seq<string>
    var runningFinal: Option<Running>
    var drainingFinals: bool
    var finalRuns: nat
    var pendingPartial: Option<string>
    var runningPartial: Option<Running>
    var drainingPartials: bool
    var partialRuns: nat
    // Every id ever put in the final queue, every id ever taken from it, every utterance that has ended,
    // and the delivery grants and failures.
    ghost var accepted: seq<string>
    ghost var started: seq<string>
    ghost var ended: set<string>
    ghost var deliveries: seq<Delivery>

    ghost function RunningId(): Option<string>
      reads `runningFinal
    {
      if runningFinal.Some? then Some(runningFinal.value.id) else None
    }

    /** First in, first out, once each, at most eight waiting, and nobody waits without a drainer. */
    ghost predicate FinalQueue()
      reads `pendingFinals, `runningFinal, `drainingFinals, `accepted, `started
    {
      && |pendingFinals| <= MAX_PENDING_FINALS && accepted == started + pendingFinals && Distinct(accepted)
      && (pendingFinals != [] || runningFinal.Some? ==> drainingFinals)
      && (runningFinal.Some? ==> started != [] && runningFinal.value.id == started[|started| - 1])
    }

    ghost predicate PartialQueue()
      reads `pendingPartial, `runningPartial, `drainingPartials
    {
      pendingPartial.Some? || runningPartial.Some? ==> drainingPartials
    }

    /** What has been finalised is known by its entry or its place in the queue, and is not being spoken any more. */
    ghost predicate Utterances()
      reads `currentUtteranceId, `entries, `accepted, `ended
    {
      && (forall e :: e in entries ==> e.id in ended)
      && (forall x :: x in accepted ==> x in ended)
      && (currentUtteranceId.Some? ==> currentUtteranceId.value !in ended)
    }

    ghost predicate Stages()
      reads `phase, `stage, `startupRunning, `currentUtteranceId, `drainingFinals, `drainingPartials, `finalRuns, `partialRuns
    {
      && (stage.NotStopping? <==> !phase.Stopping?)
      && (startupRunning ==> phase.Starting? || stage.Closing?)
      && (phase.Idle? || phase.Starting? || stage.Releasing? ==> Quiet())
      && (stage.Draining? ==> currentUtteranceId.None? && stage.finalRun == finalRuns && stage.partialRun == partialRuns)
    }

    ghost predicate Quiet()
      reads `currentUtteranceId, `drainingFinals, `drainingPartials
    {
      currentUtteranceId.None? && !drainingFinals && !drainingPartials
    }

    ghost predicate Deliverable()
      reads `entries, `deliveries
    {
      Agrees(entries, deliveries)
    }

    ghost predicate Valid()
      reads this
    {
      FinalQueue() && PartialQueue() && Utterances() && Stages() && Tracks(entries, pendingFinals, RunningId()) && Deliverable()
    }

    /** A capture that has come to rest has settled every entry. */
    lemma RestIsSettled()
      requires Valid() && (phase.Idle? || phase.Starting?)
      ensures pendingFinals == [] && pendingPartial.None? && forall e :: e in entries ==> e.Settled()
    {
    }

    /** The ids taken from the queue are the ids put in, in the same order, none twice, short of the ones still waiting. */
    lemma FirstInFirstOut(i: nat)
      requires Valid() && i < |started|
      ensures i < |accepted| && started[i] == accepted[i] && started[i] !in pendingFinals
      ensures forall j :: 0 <= j < |started| && j != i ==> started[j] != started[i]
    {
      assert forall k :: 0 <= k < |pendingFinals| ==> accepted[|started| + k] == pendingFinals[k];
      assert forall k :: 0 <= k < |started| ==> accepted[k] == started[k];
    }

    constructor ()
      ensures Valid() && phase.Idle? && entries == [] && deliveries == []
    {
      phase, stage, startupRunning := Idle, NotStopping, false;
      currentUtteranceId, interimText, error := None, "", None;
      recognitionError, recognitionSequence := None, 0;
      entries, pendingFinals, runningFinal, drainingFinals, finalRuns := [], [], None, false, 0;
      pendingPartial, runningPartial, drainingPartials, partialRuns := None, None, false, 0;
      accepted, started, ended, deliveries := [], [], {}, [];
    }

    method Start()
      requires Valid()
      modifies `phase, `startupRunning, `error, `recognitionError
      ensures Valid() && (phase == if old(phase).Idle? then Starting else old(phase))
      ensures if old(phase).Idle? then startupRunning && error.None? && recognitionError.None?
              else startupRunning == old(startupRunning) && error == old(error) && recognitionError == old(recognitionError)
    {
      if !phase.Idle? {
        return;
      }
      recognitionError, error := None, None;
      phase, startupRunning := Starting, true;
    }

    /** The end of the start-up; it may fail, and a stop may have come in meanwhile. */
    method CompleteStartup(failure: Option<string>)
      requires Valid() && startupRunning
      modifies `phase, `startupRunning, `error, `currentUtteranceId, `interimText, `ended
      ensures Valid() && !startupRunning && old(ended) <= ended
      ensures phase == (if old(phase).Stopping? then Stopping else if failure.Some? then Idle else Recording)
      ensures if failure.Some? then error == failure && currentUtteranceId.None? && interimText == ""
              else error == old(error) && currentUtteranceId == old(currentUtteranceId) && interimText == old(interimText)
    {
      hide FinalQueue, PartialQueue, Tracks, Deliverable;
      startupRunning := false;
      if failure.Some? {
        ClearUtterance();
        error := failure;
        phase := if phase.Stopping? then Stopping else Idle;
      } else if phase.Starting? {
        phase := Recording;
      }
    }

    method ClearUtterance()
      modifies `currentUtteranceId, `interimText, `ended
      ensures currentUtteranceId.None? && interimText == ""
      ensures ended == old(ended) + (if old(currentUtteranceId).Some? then {old(currentUtteranceId).value} else {})
    {
      ended := ended + if currentUtteranceId.Some? then {currentUtteranceId.value} else {};
      currentUtteranceId, interimText := None, "";
    }

    /** Speech begins; the id is a new one. Frames come only until the stop has closed the microphone. */
    method BeginUtterance(freshId: string)
      requires Valid() && (stage.NotStopping? || stage.Closing?) && currentUtteranceId.None? && freshId !in ended
      modifies `currentUtteranceId, `interimText
      ensures Valid()
      ensures currentUtteranceId == if phase.Recording? || phase.Stopping? then Some(freshId) else None
      ensures interimText == if phase.Recording? || phase.Stopping? then "" else old(interimText)
    {
      hide FinalQueue, PartialQueue, Tracks, Deliverable;
      if phase.Recording? || phase.Stopping? {
        currentUtteranceId, interimText := Some(freshId), "";
      }
    }

    /** A partial of the current utterance replaces the one still waiting; an idle drainer takes it at once. */
    method EnqueuePartial()
      requires Valid() && (stage.NotStopping? || stage.Closing?) && currentUtteranceId.Some?
      modifies `pendingPartial, `runningPartial, `drainingPartials, `partialRuns, `recognitionSequence
      ensures Valid() && drainingPartials
      ensures recognitionSequence == old(recognitionSequence) + if old(drainingPartials) then 0 else 1
      ensures if old(drainingPartials) then pendingPartial == currentUtteranceId && runningPartial == old(runningPartial)
              else pendingPartial.None? && runningPartial == Some(Running(currentUtteranceId.value, recognitionSequence))
    {
      hide FinalQueue, Utterances, Tracks, Deliverable;
      pendingPartial := currentUtteranceId;
      if !drainingPartials {
        drainingPartials, partialRuns := true, partialRuns + 1;
        NextPartial();
      }
    }

    /** The partial drainer looks for its next job, or rests. */
    method NextPartial()
      requires PartialQueue() && drainingPartials && runningPartial.None?
      modifies `pendingPartial, `runningPartial, `drainingPartials, `recognitionSequence
      ensures PartialQueue() && pendingPartial.None? && drainingPartials == old(pendingPartial).Some?
      ensures old(pendingPartial).Some? ==> runningPartial == Some(Running(old(pendingPartial).value, recognitionSequence))
      ensures recognitionSequence == old(recognitionSequence) + if old(pendingPartial).Some? then 1 else 0
    {
      if pendingPartial.Some? {
        recognitionSequence := recognitionSequence + 1;
        runningPartial := Some(Running(pendingPartial.value, recognitionSequence));
        pendingPartial := None;
      } else {
        drainingPartials := false;
      }
    }

    method ContinuePartials()
      requires Valid() && drainingPartials && runningPartial.None?
      modifies `pendingPartial, `runningPartial, `drainingPartials, `recognitionSequence
      ensures Valid() && pendingPartial.None? && drainingPartials == old(pendingPartial).Some?
      ensures old(pendingPartial).Some? ==> runningPartial == Some(Running(old(pendingPartial).value, old(recognitionSequence) + 1))
    {
      hide FinalQueue, Utterances, Tracks, Deliverable;
      NextPartial();
    }

    /** A success settles the error of the same or an earlier request, never of a later one. */
    method Succeeded(sequence: nat)
      modifies `error, `recognitionError
      ensures old(recognitionError).Some? && old(recognitionError).value.sequence > sequence ==>
                recognitionError == old(recognitionError) && error == old(error)
      ensures recognitionError.Some? ==> sequence < recognitionError.value.sequence
      ensures old(recognitionError).Some? && sequence >= old(recognitionError).value.sequence ==>
                && recognitionError.None?
                && error == if old(error) == Some(old(recognitionError).value.message) then None else old(error)
      ensures error == old(error) || (error.None? && old(recognitionError).Some? && old(error) == Some(old(recognitionError).value.message))
    {
      if recognitionError.Some? && sequence >= recognitionError.value.sequence {
        if error == Some(recognitionError.value.message) {
          error := None;
        }
        recognitionError := None;
      }
    }

    /** The partial request comes back: its text is shown only while its utterance is still the current one. */
    method FinishPartial(outcome: Outcome)
      requires Valid() && runningPartial.Some?
      modifies `runningPartial, `interimText, `error, `recognitionError
      ensures Valid() && runningPartial.None?
      ensures interimText != old(interimText) ==>
                old(runningPartial).value.id !in ended && currentUtteranceId == Some(old(runningPartial).value.id)
      ensures outcome.Recognized? && currentUtteranceId == Some(old(runningPartial).value.id) ==> interimText == outcome.text
      ensures outcome.Broken? && currentUtteranceId == Some(old(runningPartial).value.id) ==>
                && recognitionError == Some(RecognitionError(old(runningPartial).value.sequence, outcome.message))
                && error == Some(outcome.message)
      ensures !outcome.Recognized? && (outcome.NoSpeech? || currentUtteranceId != Some(old(runningPartial).value.id)) ==>
                recognitionError == old(recognitionError) && error == old(error)
    {
      hide FinalQueue, Tracks, Deliverable;
      var job := runningPartial.value;
      runningPartial := None;
      match outcome
      case Recognized(text, _) =>
        Succeeded(job.sequence);
        if currentUtteranceId == Some(job.id) {
          interimText := text;
        }
      case NoSpeech =>
      case Broken(message) =>
        if currentUtteranceId == Some(job.id) {
          recognitionError, error := Some(RecognitionError(job.sequence, message)), Some(message);
        }
    }

    /** The final drainer takes the oldest job, or rests. */
    method NextFinal()
      requires FinalQueue() && drainingFinals && runningFinal.None? && Tracks(entries, pendingFinals, None)
      requires Deliverable()
      modifies `pendingFinals, `runningFinal, `drainingFinals, `recognitionSequence, `entries, `started
      ensures FinalQueue() && Tracks(entries, pendingFinals, RunningId()) && Deliverable()
      ensures drainingFinals == (old(pendingFinals) != [])
      ensures pendingFinals == if old(pendingFinals) == [] then [] else old(pendingFinals)[1..]
      ensures old(pendingFinals) != [] ==> runningFinal == Some(Running(old(pendingFinals)[0], recognitionSequence))
      ensures started == old(started) + if old(pendingFinals) == [] then [] else [old(pendingFinals)[0]]
      ensures |entries| == |old(entries)|
      ensures forall k :: 0 <= k < |entries| ==>
                entries[k] == if old(pendingFinals) != [] && old(entries)[k].id == old(pendingFinals)[0]
                              then old(entries)[k].(status := Transcribing) else old(entries)[k]
    {
      hide DistinctIds, Agrees;
      if pendingFinals != [] {
        var id := pendingFinals[0];
        assert Distinct(pendingFinals) by {
          assert forall k :: 0 <= k < |pendingFinals| ==> accepted[|started| + k] == pendingFinals[k];
        }
        var change := (e: Entry) => e.(status := Transcribing);
        var r := Update(entries, id, change);
        TracksStart(entries, pendingFinals, change);
        IncompleteIsUnmarked(entries, deliveries, id);
        AgreesUpdate(entries, deliveries, id, change);
        started := started + [id];
        pendingFinals, entries := pendingFinals[1..], r;
        recognitionSequence := recognitionSequence + 1;
        runningFinal := Some(Running(id, recognitionSequence));
      } else {
        drainingFinals := false;
      }
    }

    method ContinueFinals()
      requires Valid() && drainingFinals && runningFinal.None?
      modifies `pendingFinals, `runningFinal, `drainingFinals, `recognitionSequence, `entries, `started
      ensures Valid() && drainingFinals == (old(pendingFinals) != [])
      ensures started == old(started) + if old(pendingFinals) == [] then [] else [old(pendingFinals)[0]]
    {
      hide Tracks, Agrees;
      NextFinal();
      SameEnded();
    }

    twostate lemma SameEnded()
      requires old(Utterances()) && |entries| == |old(entries)|
      requires forall k :: 0 <= k < |entries| ==> entries[k].id == old(entries)[k].id
      requires currentUtteranceId == old(currentUtteranceId) && accepted == old(accepted) && ended == old(ended)
      ensures Utterances()
    {
      forall e | e in entries ensures e.id in ended {
        var k :| 0 <= k < |entries| && entries[k] == e;
        assert old(entries)[k] in old(entries);
      }
    }

    /** The final request comes back: it settles its own entry and changes no other. */
    method FinishFinal(outcome: Outcome)
      requires Valid() && runningFinal.Some?
      modifies `runningFinal, `entries, `error, `recognitionError
      ensures Valid() && runningFinal.None? && |entries| == |old(entries)|
      ensures forall k :: 0 <= k < |entries| && old(entries)[k].id != old(runningFinal).value.id ==> entries[k] == old(entries)[k]
      ensures forall k :: 0 <= k < |entries| && old(entries)[k].id == old(runningFinal).value.id ==>
                old(entries)[k].status.Transcribing? && entries[k] == Recorded(old(entries)[k], outcome)
      ensures !outcome.Recognized? ==> error == old(error) && recognitionError == old(recognitionError)
    {
      hide PartialQueue, Stages, Agrees;
      var job := runningFinal.value;
      var change := (e: Entry) => Recorded(e, outcome);
      var r := Update(entries, job.id, change);
      assert job.id !in pendingFinals by {
        FirstInFirstOut(|started| - 1);
      }
      TracksFinish(entries, pendingFinals, job.id, change);
      IncompleteIsUnmarked(entries, deliveries, job.id);
      AgreesUpdate(entries, deliveries, job.id, change);
      runningFinal, entries := None, r;
      SameEnded();
      if outcome.Recognized? {
        Succeeded(job.sequence);
      }
    }

    /** A final job joins the queue; an idle drainer takes it at once; past eight waiting its entry fails. */
    method EnqueueFinal(id: string)
      requires entries != [] && FinalQueue() && Tracks(entries[1..], pendingFinals, RunningId()) && Deliverable()
      requires entries[0].id == id && entries[0].status.Queued? && !entries[0].deliveryQueued
      requires !HasId(entries[1..], id) && id !in accepted
      modifies `pendingFinals, `runningFinal, `drainingFinals, `finalRuns, `recognitionSequence, `entries, `accepted, `started
      ensures FinalQueue() && Tracks(entries, pendingFinals, RunningId()) && Deliverable()
      ensures accepted == old(accepted) + if |old(pendingFinals)| < MAX_PENDING_FINALS then [id] else []
      ensures |entries| == |old(entries)| && entries[1..] == old(entries)[1..]
      ensures entries[0] == old(entries)[0].(status := if |old(pendingFinals)| >= MAX_PENDING_FINALS then Failed
                                                       else if old(drainingFinals) then Queued else Transcribing)
    {
      hide Agrees, DistinctIds;
      var rest := entries[1..];
      assert entries == [entries[0]] + rest;
      RunningIsAccepted();
      if |pendingFinals| < MAX_PENDING_FINALS {
        TracksNew(rest, pendingFinals, RunningId(), entries[0]);
        pendingFinals, accepted := pendingFinals + [id], accepted + [id];
        if !drainingFinals {
          drainingFinals, finalRuns := true, finalRuns + 1;
          NextFinal();
        }
      } else {
        Reject(id);
      }
    }

    lemma RunningIsAccepted()
      requires FinalQueue()
      ensures RunningId().Some? ==> RunningId().value in accepted
      ensures forall x :: x in pendingFinals ==> x in accepted
    {
      if runningFinal.Some? {
        assert accepted[|started| - 1] == started[|started| - 1];
      }
    }

    method Reject(id: string)
      requires entries != [] && FinalQueue() && Tracks(entries[1..], pendingFinals, RunningId()) && Deliverable()
      requires entries[0].id == id && !entries[0].deliveryQueued && !HasId(entries[1..], id)
      requires id !in pendingFinals && RunningId() != Some(id)
      modifies `entries
      ensures Tracks(entries, pendingFinals, RunningId()) && Deliverable()
      ensures entries == [old(entries)[0].(status := Failed)] + old(entries)[1..]
    {
      hide Agrees;
      var rest := entries[1..];
      var change := (e: Entry) => e.(status := Failed);
      var r := Update(entries, id, change);
      assert r == [entries[0].(status := Failed)] + rest by {
        forall k | 1 <= k < |entries| ensures r[k] == entries[k] {
          assert entries[k] == rest[k - 1] && rest[k - 1] in rest;
        }
      }
      assert forall e :: e in entries && e.id == id ==> !e.deliveryQueued by {
        assert entries == [entries[0]] + rest;
      }
      AgreesUpdate(entries, deliveries, id, change);
      TracksNew(rest, pendingFinals, RunningId(), entries[0].(status := Failed));
      entries := r;
    }

    /** Ends the current utterance: it is kept, unless it is too short. */
    method FinalizeUtterance(longEnough: bool)
      requires Valid() && (stage.NotStopping? || stage.Closing?) && currentUtteranceId.Some?
      modifies `currentUtteranceId, `interimText, `ended, `pendingPartial, `entries
      modifies `pendingFinals, `runningFinal, `drainingFinals, `finalRuns, `recognitionSequence, `accepted, `started
      ensures Valid() && currentUtteranceId.None? && ended == old(ended) + {old(currentUtteranceId).value}
      ensures longEnough ==> Kept(old(entries), old(currentUtteranceId), old(interimText), |old(pendingFinals)| >= MAX_PENDING_FINALS)
      ensures longEnough && |old(pendingFinals)| < MAX_PENDING_FINALS ==> accepted == old(accepted) + [old(currentUtteranceId).value]
      ensures !longEnough || |old(pendingFinals)| >= MAX_PENDING_FINALS ==> accepted == old(accepted)
      ensures !longEnough ==> entries == old(entries) && pendingPartial == old(pendingPartial)
    {
      hide Tracks, Agrees, FinalQueue, PartialQueue, Deliverable, Utterances, Kept;
      if longEnough {
        KeepUtterance();
      } else {
        ClearUtterance();
        Forgotten();
      }
    }

    /** The kept utterance has a new entry, with the text shown so far, and no partial of it waits any more. */
    ghost predicate Kept(before: seq<Entry>, id: Option<string>, shown: string, full: bool)
      reads `entries, `pendingPartial
    {
      && |entries| == |before| + 1 && entries[1..] == before && pendingPartial != id
      && Some(entries[0].id) == id && entries[0].text == NonEmpty(shown) && !entries[0].deliveryQueued
      && (entries[0].status.Failed? <==> full)
    }

    /** The utterance gets its entry, its waiting partial is dropped, its final job is queued. */
    method KeepUtterance()
      requires Valid() && (stage.NotStopping? || stage.Closing?) && currentUtteranceId.Some?
      modifies `currentUtteranceId, `interimText, `ended, `pendingPartial, `entries
      modifies `pendingFinals, `runningFinal, `drainingFinals, `finalRuns, `recognitionSequence, `accepted, `started
      ensures Valid() && currentUtteranceId.None? && ended == old(ended) + {old(currentUtteranceId).value}
      ensures Kept(old(entries), old(currentUtteranceId), old(interimText), |old(pendingFinals)| >= MAX_PENDING_FINALS)
      ensures accepted == old(accepted) + if |old(pendingFinals)| < MAX_PENDING_FINALS then [old(currentUtteranceId).value] else []
    {
      hide Tracks, Agrees, FinalQueue, PartialQueue, Deliverable, Utterances;
      var id := Publish();
      EnqueueFinal(id);
      Ended(id);
    }

    /** An utterance too short to keep leaves no trace but its id. */
    twostate lemma Forgotten()
      requires old(Utterances()) && entries == old(entries) && accepted == old(accepted) && old(ended) <= ended
      requires currentUtteranceId.None?
      ensures Utterances()
    {
    }

    /** The entry of the utterance that is ending, with the text shown so far; a partial of it is not worth sending any more. */
    method Publish() returns (id: string)
      requires Valid() && currentUtteranceId.Some?
      modifies `entries, `pendingPartial, `currentUtteranceId, `interimText, `ended
      ensures entries != [] && entries[0] == Entry(id, Queued, NonEmpty(old(interimText)), None, false) && entries[1..] == old(entries)
      ensures Tracks(entries[1..], pendingFinals, RunningId()) && Deliverable() && old(currentUtteranceId) == Some(id)
      ensures !HasId(entries[1..], id) && id !in accepted && pendingPartial != Some(id) && PartialQueue()
      ensures currentUtteranceId.None? && ended == old(ended) + {id}
    {
      hide Tracks, Agrees;
      id := currentUtteranceId.value;
      var e := Entry(id, Queued, NonEmpty(interimText), None, false);
      AgreesNew(entries, deliveries, e);
      entries := [e] + entries;
      assert entries[1..] == old(entries);
      if pendingPartial == Some(id) {
        pendingPartial := None;
      }
      ClearUtterance();
    }

    twostate lemma Ended(id: string)
      requires old(Utterances()) && |entries| == |old(entries)| + 1 && entries[0].id == id && entries[1..] == old(entries)
      requires currentUtteranceId.None? && ended == old(ended) + {id} && forall x :: x in accepted ==> x in old(accepted) || x == id
      ensures Utterances()
    {
      forall e | e in entries ensures e.id in ended {
        assert e == entries[0] || e in entries[1..];
      }
    }

    /** A stop is asked for. */
    method Stop()
      requires Valid()
      modifies `phase, `stage
      ensures Valid()
      ensures if old(phase).Recording? || old(phase).Starting? then phase.Stopping? && stage.Closing?
              else phase == old(phase) && stage == old(stage)
    {
      hide FinalQueue, PartialQueue, Tracks, Agrees;
      if phase.Recording? || phase.Starting? {
        phase, stage := Stopping, Closing;
      }
    }

    /** The start-up is over and the microphone is closed: the last utterance ends, and the drains in flight are awaited. */
    method Closed(longEnough: bool)
      requires Valid() && stage.Closing? && !startupRunning
      modifies `stage, `currentUtteranceId, `interimText, `ended, `pendingPartial, `entries
      modifies `pendingFinals, `runningFinal, `drainingFinals, `finalRuns, `recognitionSequence, `accepted, `started
      ensures Valid() && stage == Draining(finalRuns, partialRuns) && currentUtteranceId.None?
      ensures old(currentUtteranceId).Some? && longEnough ==>
                Kept(old(entries), old(currentUtteranceId), old(interimText), |old(pendingFinals)| >= MAX_PENDING_FINALS)
      ensures old(currentUtteranceId).None? || !longEnough ==> entries == old(entries) && accepted == old(accepted)
    {
      hide FinalQueue, PartialQueue, Tracks, Agrees, Utterances, Kept;
      if currentUtteranceId.Some? {
        FinalizeUtterance(longEnough);
      }
      stage := Draining(finalRuns, partialRuns);
    }

    /** Both awaited drains have ended, as their promises tell. */
    method Drained()
      requires Valid() && stage.Draining?
      requires (finalRuns > stage.finalRun || !drainingFinals) && (partialRuns > stage.partialRun || !drainingPartials)
      modifies `stage
      ensures Valid() && stage.Releasing? && forall e :: e in entries ==> e.Settled()
    {
      hide Agrees, Utterances;
      stage := Releasing;
    }

    /** The session has been released: the capture is idle. */
    method Released(failure: Option<string>)
      requires Valid() && stage.Releasing?
      modifies `stage, `phase, `error
      ensures Valid() && phase.Idle? && forall e :: e in entries ==> e.Settled()
      ensures error == if failure.Some? then failure else old(error)
    {
      hide Agrees, Utterances;
      if failure.Some? {
        error := failure;
      }
      phase, stage := Idle, NotStopping;
    }

    /** The entries are as before, but for the status and the mark of one id, if they change at all. */
    ghost predicate Retold(before: seq<Entry>, id: string, status: Status, marked: bool, changed: bool)
      reads `entries
    {
      && |entries| == |before|
      && forall k :: 0 <= k < |entries| ==>
           entries[k] == if changed && before[k].id == id then before[k].(status := status, deliveryQueued := marked) else before[k]
    }

    /** The text of an entry is handed on, once. */
    method QueueDelivery(id: string) returns (granted: bool)
      requires Valid()
      modifies `entries, `deliveries
      ensures Valid() && deliveries == old(deliveries) + if granted then [Granted(id)] else []
      ensures Retold(old(entries), id, Completed, true, granted)
      ensures granted <==> exists e :: e in old(entries) && e.id == id && e.status.Completed? && !e.deliveryQueued
                             && e.text.Some? && SpeechText.Trim(e.text.value) != ""
    {
      hide FinalQueue, PartialQueue, Stages, Agrees;
      var entry := Find(entries, id);
      EntryOf(id);
      granted := entry.Some? && entry.value.status.Completed? && entry.value.text.Some?
                 && SpeechText.Trim(entry.value.text.value) != "" && !entry.value.deliveryQueued;
      if granted {
        Log(Granted(id), (e: Entry) => e.(deliveryQueued := true));
      }
    }

    method FailDelivery(id: string)
      requires Valid()
      modifies `entries, `deliveries
      ensures Valid() && (deliveries == old(deliveries) || deliveries == old(deliveries) + [Returned(id)])
      ensures Retold(old(entries), id, Failed, false, deliveries != old(deliveries))
      ensures deliveries != old(deliveries) <==>
                exists e :: e in old(entries) && e.id == id && e.deliveryQueued && e.provider.Some? && e.provider.value != ""
    {
      hide FinalQueue, PartialQueue, Stages, Agrees;
      var entry := Find(entries, id);
      EntryOf(id);
      if entry.Some? && entry.value.deliveryQueued && entry.value.provider.Some? && entry.value.provider.value != "" {
        Granting(id);
        Log(Returned(id), (e: Entry) => e.(status := Failed, deliveryQueued := false));
      }
    }

    /** A failed delivery is tried again: the text is handed on once more. */
    method RetryDelivery(id: string) returns (text: Option<string>)
      requires Valid()
      modifies `entries, `deliveries
      ensures Valid() && deliveries == old(deliveries) + if text.Some? then [Granted(id)] else []
      ensures Retold(old(entries), id, Completed, true, text.Some?)
      ensures text.Some? <==> exists e :: e in old(entries) && e.id == id && e.status.Failed? && !e.deliveryQueued
                                && e.provider.Some? && e.provider.value != "" && e.text.Some? && SpeechText.Trim(e.text.value) != ""
      ensures text.Some? ==> exists e :: e in old(entries) && e.id == id && e.text == text
    {
      hide FinalQueue, PartialQueue, Stages, Agrees;
      var entry := Find(entries, id);
      EntryOf(id);
      if entry.None? || !entry.value.status.Failed? || entry.value.provider.None? || entry.value.provider.value == ""
         || entry.value.text.None? || SpeechText.Trim(entry.value.text.value) == "" || entry.value.deliveryQueued {
        return None;
      }
      text := entry.value.text;
      Log(Granted(id), (e: Entry) => e.(status := Completed, deliveryQueued := true));
    }

    /** Ids are distinct, so the first entry of an id is the only one. */
    lemma EntryOf(id: string)
      requires Tracks(entries, pendingFinals, RunningId())
      ensures forall e :: e in entries && e.id == id ==> Find(entries, id) == Some(e)
    {
      forall e | e in entries && e.id == id ensures Find(entries, id) == Some(e) {
        FindIsTheOne(entries, e);
      }
    }

    lemma Granting(id: string)
      requires Deliverable()
      ensures forall e :: e in entries && e.id == id && e.deliveryQueued ==> e.status.Completed?
    {
    }

    /** Marks the entry and notes the event. */
    method Log(d: Delivery, change: Entry -> Entry)
      requires Valid() && HasId(entries, d.id)
      requires forall e :: e in entries && e.id == d.id ==>
                 e.Settled() && change(e).Settled() && (d.Granted? ==> !e.deliveryQueued && change(e).status.Completed?)
      requires forall e :: change(e).id == e.id && change(e).deliveryQueued == d.Granted?
      modifies `entries, `deliveries
      ensures Valid() && deliveries == old(deliveries) + [d] && entries == Update(old(entries), d.id, change)
    {
      hide FinalQueue, PartialQueue, Stages, Agrees, Tracks;
      TracksSettled(entries, pendingFinals, RunningId(), d.id, change);
      AgreesLogged(entries, deliveries, d, change);
      entries, deliveries := Update(entries, d.id, change), deliveries + [d];
      SameEnded();
    }
  }
}
