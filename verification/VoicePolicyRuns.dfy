/** Properties of whole histories of updates and tool calls. */
module VoicePolicyRuns {
  import opened Options
  import opened VoicePolicy

  /** A history: states[k + 1] is what ops[k] makes of states[k]. */
  datatype History = History(ops: seq<Op>, states: seq<State>)

  ghost predicate Valid(h: History) {
    && |h.states| == |h.ops| + 1
    && (forall k {:trigger h.ops[k]} :: 0 <= k < |h.ops| ==> h.states[k + 1] == Apply(h.states[k], h.ops[k]))
  }

  /** The run does not end between i and j. */
  ghost predicate Lives(h: History, run: string, i: nat, j: nat) {
    forall k :: i <= k < j && k < |h.ops| ==> h.ops[k] != End(run)
  }

  ghost predicate Stores(h: History, k: nat)
    requires Valid(h) && k < |h.ops|
  {
    h.states[k + 1].policies != h.states[k].policies
  }

  lemma {:induction false} LivesOn(h: History, run: string, i: nat, j: nat)
    requires Valid(h) && i <= j < |h.states| && run in h.states[i].runs && Lives(h, run, i, j)
    ensures run in h.states[j].runs && Later(h.states[i].runs[run], h.states[j].runs[run])
    decreases j
  {
    hide Apply;
    if i < j {
      LivesOn(h, run, i, j - 1);
      RunGoesOn(h.states[j - 1], h.ops[j - 1], run);
    }
  }

  lemma {:induction false} EventsGrow(h: History, i: nat, j: nat)
    requires Valid(h) && i <= j < |h.states|
    ensures h.states[i].events <= h.states[j].events
    decreases j
  {
    hide Apply;
    if i < j {
      EventsGrow(h, i, j - 1);
      EventsStay(h.states[j - 1], h.ops[j - 1]);
    }
  }

  /** At most one tool call of a run changes a stored policy: two such calls are in different lives of the run. */
  lemma OneChangePerRun(h: History, i: nat, j: nat)
    requires Valid(h) && i < j < |h.ops| && h.ops[i].Tool? && h.ops[j].Tool? && h.ops[i].call.run == h.ops[j].call.run
    requires Stores(h, i) && Stores(h, j)
    ensures exists k :: i < k < j && h.ops[k] == End(h.ops[i].call.run)
  {
    hide ExecuteTool;
    var run := h.ops[i].call.run;
    ToolStoresOnce(h.states[i], h.ops[i].call);
    ToolStoresOnce(h.states[j], h.ops[j].call);
    if Lives(h, run, i + 1, j) {
      LivesOn(h, run, i + 1, j);
    }
  }

  /** No call, that is, no pair of a run and a call id, ever changes a stored policy twice, in whatever life of the run. */
  lemma OneChangePerCall(h: History, i: nat, j: nat)
    requires Valid(h) && i < j < |h.ops| && h.ops[i].Tool? && h.ops[j].Tool?
    requires h.ops[i].call.run == h.ops[j].call.run && h.ops[i].call.id == h.ops[j].call.id
    requires Stores(h, i)
    ensures !Stores(h, j)
  {
    hide ExecuteTool;
    ToolStoresOnce(h.states[i], h.ops[i].call);
    ToolStoresOnce(h.states[j], h.ops[j].call);
    EventsGrow(h, i + 1, j);
  }

  /** A replayed call changes no stored policy while its run lives, whatever it was answered the first time. */
  lemma ReplayStoresNothing(h: History, i: nat, j: nat)
    requires Valid(h) && i < j < |h.ops| && h.ops[i].Tool? && h.ops[j].Tool?
    requires h.ops[i].call.run == h.ops[j].call.run && h.ops[i].call.id == h.ops[j].call.id
    requires Own(h.states[i], h.ops[i].call) && Lives(h, h.ops[i].call.run, i, j)
    ensures !Stores(h, j)
  {
    hide ExecuteTool;
    Answered(h.states[i], h.ops[i].call);
    LivesOn(h, h.ops[i].call.run, i + 1, j);
    AnsweredStoresNothing(h.states[j], h.ops[j].call);
  }

  /** Revisions never go down, and a row with the same revision is the same row. */
  lemma {:induction false} RevisionIsVersion(h: History, conversation: string, i: nat, j: nat)
    requires Valid(h) && i <= j < |h.states| && conversation in h.states[i].policies
    ensures conversation in h.states[j].policies
    ensures var a, b := h.states[i].policies[conversation], h.states[j].policies[conversation];
            a.revision <= b.revision && (a.revision == b.revision ==> a == b)
    decreases j
  {
    hide Apply;
    if i < j {
      RevisionIsVersion(h, conversation, i, j - 1);
      RevisionTellsChange(h.states[j - 1], h.ops[j - 1], conversation);
    }
  }

  /** A run that is there at j was begun at some i before, unless it was there from the start; it lives from then on. */
  lemma {:induction false} BegunAt(h: History, run: string, j: nat) returns (i: nat)
    requires Valid(h) && j < |h.states| && run in h.states[j].runs && run !in h.states[0].runs
    ensures i < j && h.ops[i].Begin? && h.ops[i].run == run && run !in h.states[i].runs && run in h.states[i + 1].runs
    ensures Lives(h, run, i + 1, j)
    decreases j
  {
    hide ExecuteTool, UpdateFromUi;
    if run in h.states[j - 1].runs {
      i := BegunAt(h, run, j - 1);
      EndingIsTheEnd(h.states[j - 1], run);
    } else {
      i := j - 1;
      OnlyBeginAdds(h.states[i], h.ops[i], run);
    }
  }

  lemma EndingIsTheEnd(s: State, run: string)
    ensures run !in Apply(s, End(run)).runs
  {
  }

  lemma OnlyBeginAdds(s: State, op: Op, run: string)
    requires run !in s.runs && run in Apply(s, op).runs
    ensures op.Begin? && op.run == run
  {
    hide Revised;
  }

  /** A run starts with the revision its conversation has at that moment. */
  lemma BeginReads(s: State, run: string, conversation: string)
    requires run !in s.runs && run in BeginRun(s, run, conversation).runs
    ensures conversation in s.policies && BeginRun(s, run, conversation).policies == s.policies
    ensures BeginRun(s, run, conversation).runs[run] == Run(conversation, s.policies[conversation].revision, None, 0, map[])
  {
  }

  /**
   No update is lost: when a tool call changes the stored policy, the row it changes is, in every field,
   the one that its run began with, whatever happened in between.
   */
  lemma NoLostUpdate(h: History, j: nat) returns (i: nat)
    requires Valid(h) && j < |h.ops| && h.ops[j].Tool? && Stores(h, j) && h.ops[j].call.run !in h.states[0].runs
    ensures i < j && h.ops[i] == Begin(h.ops[j].call.run, h.ops[j].call.conversation)
    ensures h.ops[j].call.conversation in h.states[i].policies && h.ops[j].call.conversation in h.states[j].policies
    ensures h.states[i].policies[h.ops[j].call.conversation] == h.states[j].policies[h.ops[j].call.conversation]
    ensures forall c :: c in h.states[j].policies && c != h.ops[j].call.conversation ==>
              c in h.states[j + 1].policies && h.states[j + 1].policies[c] == h.states[j].policies[c]
  {
    hide ExecuteTool;
    var call := h.ops[j].call;
    ToolStoresOnce(h.states[j], call);
    i := BegunAt(h, call.run, j);
    BeginReads(h.states[i], call.run, h.ops[i].conversation);
    LivesOn(h, call.run, i + 1, j);
    RevisionIsVersion(h, call.conversation, i, j);
  }

  /** Silence that came with the change of a run used up stays until the run ends, through updates and calls alike. */
  lemma {:induction false} SilentToTheEnd(h: History, run: string, i: nat, j: nat)
    requires Valid(h) && i <= j < |h.states| && run in h.states[i].runs && Lives(h, run, i, j)
    requires h.states[i].runs[run].override == Some(Silent) && h.states[i].runs[run].mutationCount >= 1
    ensures run in h.states[j].runs && h.states[j].runs[run].override == Some(Silent)
    decreases j
  {
    hide Apply;
    if i < j {
      SilentToTheEnd(h, run, i, j - 1);
      LivesOn(h, run, i, j - 1);
      SilentStays(h.states[j - 1], h.ops[j - 1], run);
    }
  }

  /**
   After a valid call for silence, not answered before, nothing makes the run speak again before it ends, if the
   call is of the run's own conversation or the run's change is used up already.
   */
  lemma AskedSilenceIsKept(h: History, i: nat, j: nat)
    requires Valid(h) && i < j < |h.states| && h.ops[i].Tool? && h.ops[i].call.run in h.states[i].runs
    requires Own(h.states[i], h.ops[i].call) || h.states[i].runs[h.ops[i].call.run].mutationCount >= 1
    requires h.ops[i].call.id !in h.states[i].runs[h.ops[i].call.run].results
    requires ValidArgs(h.ops[i].call.args) && AsksSilence(h.ops[i].call.args.value)
    requires Lives(h, h.ops[i].call.run, i, j)
    ensures h.ops[i].call.run in h.states[j].runs && h.states[j].runs[h.ops[i].call.run].override == Some(Silent)
  {
    hide ExecuteTool;
    SilenceIsSet(h.states[i], h.ops[i].call);
    SilentToTheEnd(h, h.ops[i].call.run, i + 1, j);
  }

  /**
   Otherwise, for another conversation than the run's own and with the change still free, the same call
   silences the run too, but a later call of the run's own conversation makes it speak.
   */
  lemma ForeignSilenceCanBeLifted(s: State, silent: Call, speak: Call)
    requires silent.run in s.runs && !Own(s, silent) && ValidArgs(silent.args) && AsksSilence(silent.args.value)
    requires silent.id !in s.runs[silent.run].results && s.runs[silent.run].mutationCount == 0
    requires speak.run == silent.run && Own(s, speak) && speak.id !in s.runs[speak.run].results
    requires speak.conversation in s.policies && (speak.run, speak.id) !in s.events && !speak.storeFails
    requires speak.args == Some(Args(Some(SpeakNow), None))
    ensures var silenced := Apply(s, Tool(silent)); var lifted := Apply(silenced, Tool(speak));
      && silent.run in silenced.runs && silenced.runs[silent.run].override == Some(Silent)
      && silent.run in lifted.runs && lifted.runs[silent.run].override == Some(Speak)
  {
    var silenced := Apply(s, Tool(silent));
    SilenceIsSet(s, silent);
    assert silenced == SetOverride(s, silent.run, Some(Silent));
    SilenceCanBeLifted(silenced, speak);
  }
}
