/**
 The stored voice policy of each conversation, and the runs whose tool calls may change it once.
 Updates from the settings page and tool calls are handled one at a time.
 */
module VoicePolicy {
  import opened Options

  datatype Speech = InheritSpeech | Muted

  datatype Pace = InheritPace | Quick | Balanced | Patient

  datatype Row = Row(speech: Speech, pace: Pace, revision: nat)

  datatype Override = Silent | Speak

  /** What a tool call may ask of the speech output. */
  datatype SpeechChange = SilentNow | SpeakNow | MuteConversation | InheritConversation

  datatype Args = Args(speech: Option<SpeechChange>, pace: Option<Pace>)

  datatype Result =
    | InvalidInput
    | Unavailable
    | ContextInvalid
    | QuotaExceeded
    | Conflict(revision: nat)
    | Applied(revision: nat, speechApplied: bool, paceApplied: bool)

  datatype Run = Run(
    conversation: string, startingRevision: nat, override: Option<Override>, mutationCount: nat, results: map<string, Result>)

  /** `events` are the (run, call) pairs of the event table, which holds each at most once. */
  datatype State = State(policies: map<string, Row>, runs: map<string, Run>, events: set<(string, string)>)

  /**
   A tool call. Arguments that do not parse are None; storeFails and presentFails say whether the database
   write and the later look-up of the presentation fail.
   */
  datatype Call = Call(run: string, conversation: string, id: string, args: Option<Args>, storeFails: bool, presentFails: bool)

  predicate ValidArgs(args: Option<Args>) {
    args.Some? && (args.value.speech.Some? || args.value.pace.Some?)
  }

  predicate AsksSilence(args: Args) {
    args.speech == Some(SilentNow) || args.speech == Some(MuteConversation)
  }

  predicate Persistent(args: Args) {
    args.speech == Some(MuteConversation) || args.speech == Some(InheritConversation) || args.pace.Some?
  }

  predicate Differs(a: Row, b: Row) {
    a.speech != b.speech || a.pace != b.pace
  }

  /** The row after a change of its fields: a new revision only if a field really changes. */
  function Revised(row: Row, speech: Option<Speech>, pace: Option<Pace>): (r: Row)
    ensures r.revision == if Differs(row, r) then row.revision + 1 else row.revision
    ensures speech.Some? ==> r.speech == speech.value
    ensures pace.Some? ==> r.pace == pace.value
    ensures speech.None? ==> r.speech == row.speech
    ensures pace.None? ==> r.pace == row.pace
  {
    var next := row.(speech := if speech.Some? then speech.value else row.speech, pace := if pace.Some? then pace.value else row.pace);
    if Differs(row, next) then next.(revision := row.revision + 1) else next
  }

  function StoredSpeech(args: Args): Option<Speech> {
    if args.speech == Some(MuteConversation) then Some(Muted)
    else if args.speech == Some(InheritConversation) then Some(InheritSpeech)
    else None
  }

  function RunOverride(args: Args): Option<Override> {
    if AsksSilence(args) then Some(Silent) else if args.speech == Some(SpeakNow) then Some(Speak) else None
  }

  function SetOverride(s: State, run: string, value: Option<Override>): State {
    if run in s.runs then s.(runs := s.runs[run := s.runs[run].(override := value)]) else s
  }

  function CacheResult(s: State, run: string, id: string, result: Result): State {
    if run in s.runs then s.(runs := s.runs[run := s.runs[run].(results := s.runs[run].results[id := result])]) else s
  }

  /** The database part of a tool call: nothing happens when it fails, or when the event is already there. */
  function Store(s: State, call: Call, args: Args, conversation: string, startingRevision: nat): (State, Option<Result>) {
    if call.storeFails || conversation !in s.policies || (call.run, call.id) in s.events then (s, None)
    else
      var current := s.policies[conversation];
      var events := s.events + {(call.run, call.id)};
      if Persistent(args) && current.revision != startingRevision then (s.(events := events), Some(Conflict(current.revision)))
      else
        var next := Revised(current, StoredSpeech(args), args.pace);
        (s.(policies := if Differs(current, next) then s.policies[conversation := next] else s.policies, events := events),
         Some(Applied(next.revision, args.speech.Some? && (current.speech != next.speech || RunOverride(args).Some?),
                      args.pace.Some? && current.pace != next.pace)))
  }

  /** The change itself: what is stored stays stored even if the answer can then not be made up. */
  function Mutate(s: State, call: Call, args: Args, conversation: string, startingRevision: nat): (State, Result) {
    var (stored, outcome) := Store(s, call, args, conversation, startingRevision);
    if outcome.None? then (stored, Unavailable)
    else
      var shown := if outcome.value.Applied? && args.speech.Some? then SetOverride(stored, call.run, RunOverride(args)) else stored;
      (shown, if call.presentFails then Unavailable else outcome.value)
  }

  /** The run allows one change; a call it has answered already gets the same answer. */
  function Reserve(s: State, call: Call): (State, Option<Result>) {
    if call.run !in s.runs then (s, Some(Unavailable))
    else
      var run := s.runs[call.run];
      if run.conversation != call.conversation then (s, Some(ContextInvalid))
      else if call.id in run.results then (s, Some(run.results[call.id]))
      else if run.mutationCount >= 1 then (s, Some(QuotaExceeded))
      else (s.(runs := s.runs[call.run := run.(mutationCount := run.mutationCount + 1)]), None)
  }

  function ExecuteTool(s: State, call: Call): (State, Result) {
    if call.run in s.runs && call.id in s.runs[call.run].results then (s, s.runs[call.run].results[call.id])
    else if !ValidArgs(call.args) then (CacheResult(s, call.run, call.id, InvalidInput), InvalidInput)
    else
      var silenced := if AsksSilence(call.args.value) then SetOverride(s, call.run, Some(Silent)) else s;
      var (reserved, refusal) := Reserve(silenced, call);
      if refusal.Some? then (reserved, refusal.value)
      else
        var run := reserved.runs[call.run];
        var (changed, result) := Mutate(reserved, call, call.args.value, run.conversation, run.startingRevision);
        (CacheResult(changed, call.run, call.id, result), result)
  }

  function BeginRun(s: State, run: string, conversation: string): State {
    if conversation !in s.policies || run in s.runs then s
    else s.(runs := s.runs[run := Run(conversation, s.policies[conversation].revision, None, 0, map[])])
  }

  function EndRun(s: State, run: string): State {
    s.(runs := s.runs - {run})
  }

  /** A row for the conversation is made when it has none. */
  function EnsurePolicy(s: State, conversation: string): State {
    if conversation in s.policies then s else s.(policies := s.policies[conversation := Row(InheritSpeech, InheritPace, 1)])
  }

  /** The runs of the conversation follow a change of its speech, but a silent run is not made to speak. */
  function FollowSpeech(run: Run, conversation: string, speech: Speech): Run {
    if run.conversation != conversation then run
    else if speech.Muted? then run.(override := Some(Silent))
    else if run.override != Some(Silent) then run.(override := Some(Speak))
    else run
  }

  /** An update from the settings page, for a conversation that may have a policy; it must know the current revision. */
  function UpdateFromUi(s: State, conversation: string, expected: nat, speech: Option<Speech>, pace: Option<Pace>,
                        storeFails: bool): (State, bool)
  {
    if expected < 1 || (speech.None? && pace.None?) then (s, false)
    else
      var ready := EnsurePolicy(s, conversation);
      var current := ready.policies[conversation];
      if current.revision != expected || storeFails then (ready, false)
      else
        var next := Revised(current, speech, pace);
        var stored := ready.(policies := ready.policies[conversation := next]);
        if next.speech == current.speech then (stored, true)
        else (stored.(runs := map r | r in stored.runs :: FollowSpeech(stored.runs[r], conversation, next.speech)), true)
  }

  datatype Op =
    | Begin(run: string, conversation: string)
    | End(run: string)
    | Tool(call: Call)
    | Ui(conversation: string, expected: nat, speech: Option<Speech>, pace: Option<Pace>, storeFails: bool)

  function Apply(s: State, op: Op): State {
    match op
    case Begin(run, conversation) => BeginRun(s, run, conversation)
    case End(run) => EndRun(s, run)
    case Tool(call) => ExecuteTool(s, call).0
    case Ui(conversation, expected, speech, pace, storeFails) => UpdateFromUi(s, conversation, expected, speech, pace, storeFails).0
  }

  /** A call of a run that is under way, for the run's own conversation. */
  predicate Own(s: State, call: Call) {
    call.run in s.runs && s.runs[call.run].conversation == call.conversation
  }

  /** A tool call stores something only as the one change of its run, at the revision the run started with. */
  lemma ToolStoresOnce(s: State, call: Call)
    ensures var t := ExecuteTool(s, call).0;
      t.policies != s.policies ==>
        && Own(s, call) && call.conversation in s.policies
        && s.runs[call.run].mutationCount == 0 && call.run in t.runs && t.runs[call.run].mutationCount == 1
        && s.policies[call.conversation].revision == s.runs[call.run].startingRevision
        && t.policies == s.policies[call.conversation := t.policies[call.conversation]]
        && (call.run, call.id) !in s.events && (call.run, call.id) in t.events && call.id !in s.runs[call.run].results
  {
  }

  /** A row and a later one: the revision is raised by one exactly when a field differs. */
  ghost predicate Revises(before: map<string, Row>, after: map<string, Row>, conversation: string) {
    conversation in before ==>
      && conversation in after
      && (if Differs(before[conversation], after[conversation]) then after[conversation].revision == before[conversation].revision + 1
          else after[conversation] == before[conversation])
  }

  lemma StoreRevises(s: State, call: Call, args: Args, own: string, startingRevision: nat, conversation: string)
    ensures Revises(s.policies, Mutate(s, call, args, own, startingRevision).0.policies, conversation)
  {
  }

  lemma ToolRevises(s: State, call: Call, conversation: string)
    ensures Revises(s.policies, ExecuteTool(s, call).0.policies, conversation)
  {
    hide Mutate;
    if call.run in s.runs && ValidArgs(call.args) {
      var silenced := if AsksSilence(call.args.value) then SetOverride(s, call.run, Some(Silent)) else s;
      var reserved := Reserve(silenced, call).0;
      var own := reserved.runs[call.run];
      StoreRevises(reserved, call, call.args.value, own.conversation, own.startingRevision, conversation);
    }
  }

  /** Every step either leaves a row alone or changes a field of it and raises its revision by one; rows never go away. */
  lemma RevisionTellsChange(s: State, op: Op, conversation: string)
    ensures Revises(s.policies, Apply(s, op).policies, conversation)
  {
    hide ExecuteTool;
    if op.Tool? {
      ToolRevises(s, op.call, conversation);
    }
  }

  /** The same run, later: its conversation and first revision stay, its answers and count only grow. */
  ghost predicate Later(before: Run, after: Run) {
    && after.conversation == before.conversation && after.startingRevision == before.startingRevision
    && before.mutationCount <= after.mutationCount
    && (forall id :: id in before.results ==> id in after.results && after.results[id] == before.results[id])
  }

  lemma MutateKeepsRuns(s: State, call: Call, args: Args, conversation: string, startingRevision: nat, run: string)
    requires run in s.runs
    ensures var t := Mutate(s, call, args, conversation, startingRevision).0;
            run in t.runs && t.runs[run] == if run == call.run then s.runs[run].(override := t.runs[run].override) else s.runs[run]
  {
    hide Revised, Differs;
  }

  lemma ToolKeepsRun(s: State, call: Call, run: string)
    requires run in s.runs
    ensures run in ExecuteTool(s, call).0.runs && Later(s.runs[run], ExecuteTool(s, call).0.runs[run])
  {
    hide Mutate;
    if call.run in s.runs && ValidArgs(call.args) {
      var silenced := if AsksSilence(call.args.value) then SetOverride(s, call.run, Some(Silent)) else s;
      var reserved := Reserve(silenced, call).0;
      var own := reserved.runs[call.run];
      MutateKeepsRuns(reserved, call, call.args.value, own.conversation, own.startingRevision, run);
    }
  }

  /** What one step does to a run that lives on. */
  lemma RunGoesOn(s: State, op: Op, run: string)
    requires run in s.runs && op != End(run)
    ensures run in Apply(s, op).runs && Later(s.runs[run], Apply(s, op).runs[run])
  {
    hide Revised, ExecuteTool;
    if op.Tool? {
      ToolKeepsRun(s, op.call, run);
    }
  }

  /** The events only grow. */
  lemma EventsStay(s: State, op: Op)
    ensures s.events <= Apply(s, op).events
  {
  }

  /** A tool call of a run whose change is used up can only silence it. */
  lemma UsedUp(s: State, call: Call, run: string)
    requires run in s.runs && (call.run == run ==> s.runs[run].mutationCount >= 1)
    ensures var t := ExecuteTool(s, call).0;
            run in t.runs && (t.runs[run].override == s.runs[run].override || t.runs[run].override == Some(Silent))
  {
    hide Mutate;
    if call.run in s.runs && ValidArgs(call.args) {
      var silenced := if AsksSilence(call.args.value) then SetOverride(s, call.run, Some(Silent)) else s;
      var reserved := Reserve(silenced, call).0;
      var own := reserved.runs[call.run];
      MutateKeepsRuns(reserved, call, call.args.value, own.conversation, own.startingRevision, run);
    }
  }

  /** Once the change of a run is used up, no step but its end makes a silent run speak. */
  lemma SilentStays(s: State, op: Op, run: string)
    requires run in s.runs && op != End(run)
    requires s.runs[run].override == Some(Silent) && s.runs[run].mutationCount >= 1
    ensures run in Apply(s, op).runs && Apply(s, op).runs[run].override == Some(Silent)
  {
    hide Revised, ExecuteTool;
    if op.Tool? {
      UsedUp(s, op.call, run);
    }
  }

  /** A valid call for silence, not answered before, silences its run; for its own conversation it uses the change up. */
  lemma SilenceIsSet(s: State, call: Call)
    requires call.run in s.runs && call.id !in s.runs[call.run].results && ValidArgs(call.args) && AsksSilence(call.args.value)
    ensures var t := ExecuteTool(s, call).0;
      && call.run in t.runs && t.runs[call.run].override == Some(Silent)
      && (t.runs[call.run].mutationCount >= 1 <==> Own(s, call) || s.runs[call.run].mutationCount >= 1)
  {
    hide Revised, Differs;
  }

  /** While the change of a run is not used up, a call to speak lifts its silence. */
  lemma SilenceCanBeLifted(s: State, call: Call)
    requires Own(s, call) && s.runs[call.run].mutationCount == 0 && call.id !in s.runs[call.run].results
    requires call.conversation in s.policies && (call.run, call.id) !in s.events && !call.storeFails
    requires call.args == Some(Args(Some(SpeakNow), None))
    ensures var t := ExecuteTool(s, call).0; call.run in t.runs && t.runs[call.run].override == Some(Speak)
  {
  }

  /** After a call of its own run, the same call is answered again, or refused; nothing is stored. */
  lemma Answered(s: State, call: Call)
    requires Own(s, call)
    ensures var t := ExecuteTool(s, call).0;
      call.run in t.runs && (call.id in t.runs[call.run].results || t.runs[call.run].mutationCount >= 1)
  {
    hide Revised, Differs;
  }

  lemma AnsweredStoresNothing(s: State, call: Call)
    requires call.run in s.runs && (call.id in s.runs[call.run].results || s.runs[call.run].mutationCount >= 1)
    ensures ExecuteTool(s, call).0.policies == s.policies
  {
    ToolStoresOnce(s, call);
  }

  /** The tables as they are kept, changed in place. */
  class VoiceBehavior {
    var policies: map<string, Row>
    var runs: map<string, Run>
    var events: set<(string, string)>

    ghost function View(): State
      reads this
    {
      State(policies, runs, events)
    }

    constructor (stored: map<string, Row>)
      ensures View() == State(stored, map[], {})
    {
      policies, runs, events := stored, map[], {};
    }

    method Begin(run: string, conversation: string) returns (started: bool)
      modifies `runs
      ensures View() == Apply(old(View()), Op.Begin(run, conversation))
      ensures started == (conversation in policies && run !in old(runs))
    {
      if conversation !in policies || run in runs {
        return false;
      }
      runs := runs[run := Run(conversation, policies[conversation].revision, None, 0, map[])];
      started := true;
    }

    method End(run: string)
      modifies `runs
      ensures View() == Apply(old(View()), Op.End(run))
    {
      runs := runs - {run};
    }

    method OverrideRun(run: string, value: Option<Override>)
      modifies `runs
      ensures View() == SetOverride(old(View()), run, value)
    {
      if run in runs {
        runs := runs[run := runs[run].(override := value)];
      }
    }

    method Cache(run: string, id: string, result: Result)
      modifies `runs
      ensures View() == CacheResult(old(View()), run, id, result)
    {
      if run in runs {
        runs := runs[run := runs[run].(results := runs[run].results[id := result])];
      }
    }

    method ReserveMutation(call: Call) returns (refusal: Option<Result>)
      modifies `runs
      ensures (View(), refusal) == Reserve(old(View()), call)
      ensures refusal.None? ==> Own(old(View()), call) && old(runs)[call.run].mutationCount == 0 && runs[call.run].mutationCount == 1
      ensures refusal.Some? ==> runs == old(runs)
    {
      if call.run !in runs {
        return Some(Unavailable);
      }
      var run := runs[call.run];
      if run.conversation != call.conversation {
        return Some(ContextInvalid);
      }
      if call.id in run.results {
        return Some(run.results[call.id]);
      }
      if run.mutationCount >= 1 {
        return Some(QuotaExceeded);
      }
      runs := runs[call.run := run.(mutationCount := run.mutationCount + 1)];
      refusal := None;
    }

    /** One transaction: the event is unique, a conflict is only recorded, a row changes together with its revision. */
    method StoreMutation(call: Call, args: Args, conversation: string, startingRevision: nat) returns (outcome: Option<Result>)
      modifies `policies, `events
      ensures (View(), outcome) == Store(old(View()), call, args, conversation, startingRevision)
      ensures policies.Keys == old(policies).Keys && forall c :: c in policies && c != conversation ==> policies[c] == old(policies)[c]
      ensures policies != old(policies) ==> policies[conversation].revision == old(policies)[conversation].revision + 1
      ensures outcome.None? ==> policies == old(policies) && events == old(events)
    {
      if call.storeFails || conversation !in policies || (call.run, call.id) in events {
        return None;
      }
      var current := policies[conversation];
      events := events + {(call.run, call.id)};
      if Persistent(args) && current.revision != startingRevision {
        return Some(Conflict(current.revision));
      }
      var next := current;
      match args.speech {
        case Some(MuteConversation) => next := next.(speech := Muted);
        case Some(InheritConversation) => next := next.(speech := InheritSpeech);
        case _ =>
      }
      if args.pace.Some? {
        next := next.(pace := args.pace.value);
      }
      var speechChanged, paceChanged := next.speech != current.speech, next.pace != current.pace;
      if speechChanged || paceChanged {
        next := next.(revision := next.revision + 1);
        policies := policies[conversation := next];
      }
      var speechApplied := args.speech.Some? && (speechChanged || RunOverride(args).Some?);
      outcome := Some(Applied(next.revision, speechApplied, args.pace.Some? && paceChanged));
    }

    method ApplyToolMutation(call: Call, args: Args, conversation: string, startingRevision: nat) returns (result: Result)
      modifies this
      ensures (View(), result) == Mutate(old(View()), call, args, conversation, startingRevision)
    {
      hide Store;
      var outcome := StoreMutation(call, args, conversation, startingRevision);
      if outcome.None? {
        return Unavailable;
      }
      if outcome.value.Applied? && args.speech.Some? {
        OverrideRun(call.run, RunOverride(args));
      }
      result := if call.presentFails then Unavailable else outcome.value;
    }

    method Execute(call: Call) returns (result: Result)
      modifies this
      ensures (View(), result) == ExecuteTool(old(View()), call)
      ensures policies != old(policies) ==>
                && Own(old(View()), call) && old(runs)[call.run].mutationCount == 0
                && old(policies)[call.conversation].revision == old(runs)[call.run].startingRevision
      ensures forall c :: c in old(policies) && c != call.conversation ==> c in policies && policies[c] == old(policies)[c]
    {
      ToolStoresOnce(View(), call);
      hide Mutate;
      if call.run in runs && call.id in runs[call.run].results {
        return runs[call.run].results[call.id];
      }
      if !ValidArgs(call.args) {
        result := InvalidInput;
        Cache(call.run, call.id, result);
        return;
      }
      var args := call.args.value;
      if AsksSilence(args) {
        OverrideRun(call.run, Some(Silent));
      }
      var refusal := ReserveMutation(call);
      if refusal.Some? {
        return refusal.value;
      }
      result := ApplyToolMutation(call, args, runs[call.run].conversation, runs[call.run].startingRevision);
      Cache(call.run, call.id, result);
    }

    method Update(conversation: string, expected: nat, speech: Option<Speech>, pace: Option<Pace>, storeFails: bool) returns (ok: bool)
      modifies `policies, `runs
      ensures (View(), ok) == UpdateFromUi(old(View()), conversation, expected, speech, pace, storeFails)
      ensures forall c :: c in old(policies) && c != conversation ==> c in policies && policies[c] == old(policies)[c]
      ensures conversation in old(policies) && policies[conversation] != old(policies)[conversation] ==>
                ok && old(policies)[conversation].revision == expected && policies[conversation].revision == expected + 1
    {
      if expected < 1 || (speech.None? && pace.None?) {
        return false;
      }
      if conversation !in policies {
        policies := policies[conversation := Row(InheritSpeech, InheritPace, 1)];
      }
      var current := policies[conversation];
      if current.revision != expected || storeFails {
        return false;
      }
      var next := Revised(current, speech, pace);
      policies := policies[conversation := next];
      if next.speech != current.speech {
        FollowRuns(conversation, next.speech);
      }
      ok := true;
    }

    /** Every run in turn follows the speech of its conversation. */
    method FollowRuns(conversation: string, speech: Speech)
      modifies `runs
      ensures runs == map r | r in old(runs) :: FollowSpeech(old(runs)[r], conversation, speech)
    {
      var left := runs.Keys;
      while left != {}
        invariant left <= runs.Keys == old(runs).Keys
        invariant forall r :: r in runs ==>
                    runs[r] == if r in left then old(runs)[r] else FollowSpeech(old(runs)[r], conversation, speech)
        decreases |left|
      {
        var r :| r in left;
        left := left - {r};
        runs := runs[r := FollowSpeech(runs[r], conversation, speech)];
      }
    }
  }
}
