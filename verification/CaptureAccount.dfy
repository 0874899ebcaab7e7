/**
 What a capture over HTTP owes to the samples it is given, counted in samples only: which part of the
 accepted stream every final job holds.
 */
module CaptureAccount {
  import opened Options

  const PARTIAL_SAMPLES: nat := 24_000
  const PREROLL_SAMPLES: nat := 8_000
  const MAX_UTTERANCE_SAMPLES: nat := 480_000
  const MIN_UTTERANCE_SAMPLES: nat := 1_600

  /**
   Where an utterance lies in the accepted stream: from lo to hi, its speech having been noticed when
   the stream had reached `began`, with a frame of `first` samples.
   */
  datatype Segment = Segment(lo: nat, began: nat, first: nat, hi: nat)

  /** The lengths of the frames in the preroll, the length of the stream, the utterance being spoken, and the final jobs. */
  datatype Account = Account(preroll: seq<nat>, total: nat, open: Option<Segment>, segments: seq<Segment>)

  /** What happens to a capture: a frame with what the voice detector says of it, or the microphone is closed. */
  datatype Event = Heard(length: nat, speech: bool, finalize: bool) | Closed

  function Sum(counts: seq<nat>): nat {
    if counts == [] then 0 else Sum(counts[..|counts| - 1]) + counts[|counts| - 1]
  }

  /** The oldest frames are shed while there are too many samples, but never the last frame: the first that is kept. */
  function FirstKept(counts: seq<nat>, n: nat, limit: nat): (r: nat)
    requires n <= |counts|
    ensures n <= r <= |counts| && (n < |counts| ==> r < |counts|)
    ensures Sum(counts[r..]) <= limit || r + 1 >= |counts|
    ensures n < r ==> Sum(counts[r - 1..]) > limit
    decreases |counts| - n
  {
    if Sum(counts[n..]) > limit && n + 1 < |counts| then FirstKept(counts, n + 1, limit) else n
  }

  /** What is left is the end of the frames: as much of it as fits, and the last frame in any case. */
  function Trimmed(counts: seq<nat>, limit: nat): seq<nat> {
    counts[FirstKept(counts, 0, limit)..]
  }

  /** The preroll never exceeds its limit and one frame. */
  lemma TrimmedIsBounded(counts: seq<nat>, length: nat)
    ensures Sum(Trimmed(counts + [length], PREROLL_SAMPLES + length)) <= PREROLL_SAMPLES + length
    ensures Sum(Trimmed(counts + [length], PREROLL_SAMPLES + length)) <= Sum(counts) + length
  {
    hide Sum;
    var all := counts + [length];
    var first := FirstKept(all, 0, PREROLL_SAMPLES + length);
    SumSnoc(counts, length);
    SumOfTail(all, first);
    if first + 1 >= |all| {
      assert all[first..] == [length];
      SumOfOne(length);
    }
  }

  lemma SumOfOne(n: nat)
    ensures Sum([n]) == n && Sum([]) == 0
  {
    assert [n][..0] == [];
  }

  predicate Fits(a: Account) {
    && Sum(a.preroll) <= a.total && (a.open.Some? ==> a.preroll == [] && a.open.value.lo <= a.open.value.began <= a.total)
  }

  /** A frame joins the utterance; or the preroll, which becomes an utterance when there is speech in the frame. */
  function TakenIn(a: Account, length: nat, speech: bool): (r: Account)
    requires Fits(a)
    ensures Fits(r) && r.total == a.total + length && r.segments == a.segments
  {
    if a.open.Some? then a.(total := a.total + length)
    else
      var total, kept := a.total + length, Trimmed(a.preroll + [length], PREROLL_SAMPLES + length);
      TrimmedIsBounded(a.preroll, length);
      if speech then a.(preroll := [], total := total, open := Some(Segment(total - Sum(kept), total, length, total)))
      else a.(preroll := kept, total := total)
  }

  /** A segment becomes a final job unless it is too short. */
  function HandedOn(segments: seq<Segment>, s: Segment): seq<Segment> {
    if s.hi - s.lo >= MIN_UTTERANCE_SAMPLES then segments + [s] else segments
  }

  /** The utterance ends where the stream has come to; it is handed on unless it is too short. */
  function Ended(a: Account): (r: Account)
    requires Fits(a)
    ensures Fits(r) && r.open.None? && r.total == a.total
  {
    if a.open.None? then a
    else
      a.(open := None, segments := HandedOn(a.segments, a.open.value.(hi := a.total)))
  }

  predicate Due(a: Account, finalize: bool) {
    a.open.Some? && (finalize || a.total >= a.open.value.lo + MAX_UTTERANCE_SAMPLES)
  }

  function Accepted(a: Account, e: Event): (r: Account)
    requires Fits(a)
    ensures Fits(r)
  {
    match e
    case Heard(length, speech, finalize) =>
      var t := TakenIn(a, length, speech);
      if Due(t, finalize) then Ended(t) else t
    case Closed => Ended(a).(preroll := [])
  }

  /** The account of a whole capture. */
  function AccountOf(events: seq<Event>): (a: Account)
    ensures Fits(a)
  {
    if events == [] then Account([], 0, None, []) else Accepted(AccountOf(events[..|events| - 1]), events[|events| - 1])
  }

  lemma SumSnoc(counts: seq<nat>, n: nat)
    ensures Sum(counts + [n]) == Sum(counts) + n
  {
    assert (counts + [n])[..|counts|] == counts;
  }

  lemma {:induction false} SumOfTail(counts: seq<nat>, n: nat)
    requires n <= |counts|
    ensures Sum(counts[n..]) <= Sum(counts)
  {
    hide Sum;
    if n < |counts| {
      var front, last := counts[..|counts| - 1], counts[|counts| - 1];
      SumOfTail(front, n);
      assert counts == front + [last] && counts[n..] == front[n..] + [last];
      SumSnoc(front, last);
      SumSnoc(front[n..], last);
    } else {
      assert counts[n..] == [];
      SumOfOne(0);
    }
  }

  // ---- What an utterance is, read off the events ----

  /** The samples accepted so far. */
  function Total(events: seq<Event>): nat {
    if events == [] then 0
    else
      var last := events[|events| - 1];
      Total(events[..|events| - 1]) + if last.Heard? then last.length else 0
  }

  /** Frames from i up to k, none with speech in it. */
  predicate Quiet(events: seq<Event>, i: nat, k: nat) {
    i <= k <= |events| && forall m :: i <= m < k ==> events[m].Heard? && !events[m].speech
  }

  /** What the preroll retains of the frames from i up to k. */
  function Retained(events: seq<Event>, i: nat, k: nat): seq<nat>
    requires i <= k <= |events|
  {
    if i == k || events[k - 1].Closed? then []
    else Trimmed(Retained(events, i, k - 1) + [events[k - 1].length], PREROLL_SAMPLES + events[k - 1].length)
  }

  /** Frame k is the first with speech since i: an utterance opens with exactly what is retained. */
  predicate Opens(events: seq<Event>, i: nat, k: nat) {
    i <= k < |events| && Quiet(events, i, k) && events[k].Heard? && events[k].speech
  }

  function Lo(events: seq<Event>, i: nat, k: nat): int
    requires i <= k < |events|
  {
    Total(events[..k + 1]) - Sum(Retained(events, i, k + 1))
  }

  /** Frame m ends an utterance that began at lo: the detector says so, or it has grown too long. */
  predicate EndsAt(events: seq<Event>, m: nat, lo: int) {
    m < |events| && events[m].Heard? && (events[m].finalize || Total(events[..m + 1]) - lo >= MAX_UTTERANCE_SAMPLES)
  }

  /** The utterance that opened with frame k goes on up to e: every later event is a frame, and none ends it. */
  predicate GoesOn(events: seq<Event>, i: nat, k: nat, e: nat) {
    && Opens(events, i, k) && k <= e <= |events|
    && forall m :: k <= m < e ==> events[m].Heard? && !EndsAt(events, m, Lo(events, i, k))
  }

  /** It ends with event e: a frame that ends it, which is still part of it, or the closing of the microphone. */
  predicate Ends(events: seq<Event>, i: nat, k: nat, e: nat) {
    && GoesOn(events, i, k, e) && e < |events|
    && (EndsAt(events, e, Lo(events, i, k)) || (k < e && events[e].Closed?))
  }

  /** Nothing is held when event i comes: the start, a closed microphone, or the end of an utterance. */
  ghost predicate Clear(events: seq<Event>, i: nat) {
    i <= |events| &&
    (i == 0 || events[i - 1].Closed?
     || exists j: nat, k: nat, e: nat :: j <= k <= e && e + 1 == i && Clear(events, j) && Ends(events, j, k, e))
  }

  /** The segment of an utterance: from the start of its preroll to its end, all of it. */
  function SegmentOf(events: seq<Event>, i: nat, k: nat, e: nat): Segment
    requires i <= k <= e < |events| && events[k].Heard? && 0 <= Lo(events, i, k)
  {
    Segment(Lo(events, i, k), Total(events[..k + 1]), events[k].length, Total(events[..e + 1]))
  }

  /** A final job: an utterance that has ended and was not too short. */
  ghost predicate IsJob(events: seq<Event>, s: Segment) {
    exists i: nat, k: nat, e: nat ::
      && Clear(events, i) && Ends(events, i, k, e) && 0 <= Lo(events, i, k)
      && s == SegmentOf(events, i, k, e) && s.hi - s.lo >= MIN_UTTERANCE_SAMPLES
  }

  // ---- The account says exactly that ----

  lemma StepOf(events: seq<Event>, m: nat)
    requires m < |events|
    ensures AccountOf(events[..m + 1]) == Accepted(AccountOf(events[..m]), events[m])
  {
    assert events[..m + 1][..m] == events[..m];
  }

  lemma TotalSnoc(events: seq<Event>, m: nat)
    requires m < |events|
    ensures Total(events[..m + 1]) == Total(events[..m]) + if events[m].Heard? then events[m].length else 0
  {
    assert events[..m + 1][..m] == events[..m];
  }

  lemma AcceptedTotal(a: Account, e: Event)
    requires Fits(a)
    ensures Accepted(a, e).total == a.total + if e.Heard? then e.length else 0
  {
    hide Trimmed;
  }

  lemma {:induction false} TotalIsCounted(events: seq<Event>, m: nat)
    requires m <= |events|
    ensures AccountOf(events[..m]).total == Total(events[..m])
  {
    hide Accepted, Fits;
    if m > 0 {
      TotalIsCounted(events, m - 1);
      StepOf(events, m - 1);
      TotalSnoc(events, m - 1);
      AcceptedTotal(AccountOf(events[..m - 1]), events[m - 1]);
    } else {
      assert events[..0] == [];
    }
  }

  predicate Silent(a: Account) {
    a.open.None? && a.preroll == []
  }

  /** A frame without speech and without an utterance. */
  lemma QuietFrame(a: Account, e: Event)
    requires Fits(a) && a.open.None? && e.Heard? && !e.speech
    ensures Accepted(a, e) == a.(preroll := Trimmed(a.preroll + [e.length], PREROLL_SAMPLES + e.length), total := a.total + e.length)
  {
    hide Trimmed, Sum;
  }

  function EndedIfDue(a: Account, finalize: bool): Account
    requires Fits(a)
  {
    if Due(a, finalize) then Ended(a) else a
  }

  /** The account when an utterance opens with the last `kept` samples. */
  function Opened(a: Account, length: nat, kept: nat): Account
    requires kept <= a.total + length
  {
    var total := a.total + length;
    Account([], total, Some(Segment(total - kept, total, length, total)), a.segments)
  }

  lemma OpenedFits(a: Account, length: nat, kept: nat)
    requires kept <= a.total + length
    ensures Fits(Opened(a, length, kept))
  {
    assert Sum([]) == 0;
  }

  lemma FitsSays(a: Account)
    requires Fits(a)
    ensures Sum(a.preroll) <= a.total
  {
  }

  /** A frame with speech and without an utterance opens one, which it may end too. */
  lemma OpeningFrame(a: Account, e: Event)
    requires Fits(a) && a.open.None? && e.Heard? && e.speech
    ensures var kept := Trimmed(a.preroll + [e.length], PREROLL_SAMPLES + e.length);
            Sum(kept) <= a.total + e.length && Fits(Opened(a, e.length, Sum(kept)))
            && Accepted(a, e) == EndedIfDue(Opened(a, e.length, Sum(kept)), e.finalize)
  {
    hide Ended, Due, Sum, Trimmed, Fits;
    TrimmedIsBounded(a.preroll, e.length);
    FitsSays(a);
    OpenedFits(a, e.length, Sum(Trimmed(a.preroll + [e.length], PREROLL_SAMPLES + e.length)));
  }

  lemma LaterFrame(a: Account, e: Event)
    requires Fits(a) && a.open.Some? && e.Heard?
    ensures var longer := a.(total := a.total + e.length);
            Fits(longer) && Accepted(a, e) == EndedIfDue(longer, e.finalize)
  {
    hide Trimmed, Sum, Ended, Due;
  }

  /** From a clear start, frames without speech leave in the preroll what is retained. */
  lemma {:induction false} QuietRetains(events: seq<Event>, i: nat, k: nat)
    requires Quiet(events, i, k) && Silent(AccountOf(events[..i]))
    ensures AccountOf(events[..k]).open.None? && AccountOf(events[..k]).preroll == Retained(events, i, k)
    ensures AccountOf(events[..k]).segments == AccountOf(events[..i]).segments
    decreases k
  {
    hide Accepted, Fits, AccountOf, Trimmed, Total, Retained, Sum;
    if i < k {
      QuietRetains(events, i, k - 1);
      StepOf(events, k - 1);
      QuietFrame(AccountOf(events[..k - 1]), events[k - 1]);
      RetainedSnoc(events, i, k - 1);
    } else {
      NothingRetained(events, i);
    }
  }

  lemma NothingRetained(events: seq<Event>, i: nat)
    requires i <= |events|
    ensures Retained(events, i, i) == []
  {
  }

  lemma RetainedSnoc(events: seq<Event>, i: nat, k: nat)
    requires i <= k < |events| && events[k].Heard?
    ensures Retained(events, i, k + 1) == Trimmed(Retained(events, i, k) + [events[k].length], PREROLL_SAMPLES + events[k].length)
  {
  }

  /** The utterance as the account holds it while it goes on. */
  function OpenSegment(events: seq<Event>, i: nat, k: nat): Segment
    requires i <= k < |events| && events[k].Heard? && 0 <= Lo(events, i, k)
  {
    Segment(Lo(events, i, k), Total(events[..k + 1]), events[k].length, Total(events[..k + 1]))
  }

  /** The account while the utterance that opened with frame k goes on up to e. */
  function Held(events: seq<Event>, i: nat, k: nat, e: nat): Account
    requires i <= k < e <= |events| && events[k].Heard? && 0 <= Lo(events, i, k)
  {
    Account([], Total(events[..e]), Some(OpenSegment(events, i, k)), AccountOf(events[..i]).segments)
  }

  lemma OpenedIsHeld(events: seq<Event>, i: nat, k: nat, a: Account)
    requires i <= k < |events| && events[k].Heard?
    requires a.total == Total(events[..k]) && a.preroll == Retained(events, i, k) && a.segments == AccountOf(events[..i]).segments
    requires Sum(Trimmed(a.preroll + [events[k].length], PREROLL_SAMPLES + events[k].length)) <= a.total + events[k].length
    ensures 0 <= Lo(events, i, k)
    ensures Opened(a, events[k].length, Sum(Trimmed(a.preroll + [events[k].length], PREROLL_SAMPLES + events[k].length)))
         == Held(events, i, k, k + 1)
  {
    hide AccountOf, Accepted, Trimmed, Total, Sum, Retained, Fits;
    RetainedSnoc(events, i, k);
    TotalSnoc(events, k);
  }

  lemma HeldIsDue(events: seq<Event>, i: nat, k: nat, e: nat)
    requires i <= k <= e < |events| && events[k].Heard? && events[e].Heard? && 0 <= Lo(events, i, k)
    ensures Due(Held(events, i, k, e + 1), events[e].finalize) <==> EndsAt(events, e, Lo(events, i, k))
  {
    hide AccountOf, Total, Lo;
  }

  /** After frame k the account either holds the utterance that opens there or has ended it. */
  lemma OpeningIsHeld(events: seq<Event>, i: nat, k: nat)
    requires Opens(events, i, k) && Silent(AccountOf(events[..i]))
    ensures 0 <= Lo(events, i, k)
    ensures Fits(Held(events, i, k, k + 1)) && AccountOf(events[..k + 1]) == EndedIfDue(Held(events, i, k, k + 1), events[k].finalize)
    ensures Due(Held(events, i, k, k + 1), events[k].finalize) <==> EndsAt(events, k, Lo(events, i, k))
  {
    hide Accepted, AccountOf, Trimmed, Total, Sum, Ended, Retained, Fits, TakenIn, Opened, Held, Lo, Quiet;
    QuietRetains(events, i, k);
    StepOf(events, k);
    TotalIsCounted(events, k);
    OpeningFrame(AccountOf(events[..k]), events[k]);
    OpenedIsHeld(events, i, k, AccountOf(events[..k]));
    HeldIsDue(events, i, k, k);
  }

  /** While an utterance goes on it is the open one, and it began with what was retained. */
  lemma {:induction false} GoesOnOpen(events: seq<Event>, i: nat, k: nat, e: nat)
    requires GoesOn(events, i, k, e) && k < e && Silent(AccountOf(events[..i]))
    ensures 0 <= Lo(events, i, k)
    ensures AccountOf(events[..e]) == Held(events, i, k, e)
    decreases e
  {
    hide Accepted, AccountOf, Trimmed, Total, Sum, Ended, Retained, Lo, Fits, TakenIn;
    OpeningIsHeld(events, i, k);
    assert !EndsAt(events, e - 1, Lo(events, i, k));
    if e > k + 1 {
      GoesOnOpen(events, i, k, e - 1);
      StepOf(events, e - 1);
      TotalSnoc(events, e - 1);
      LaterFrame(AccountOf(events[..e - 1]), events[e - 1]);
    }
  }

  lemma EndedHeld(events: seq<Event>, i: nat, k: nat, e: nat)
    requires i <= k <= e < |events| && events[k].Heard? && 0 <= Lo(events, i, k) && Fits(Held(events, i, k, e + 1))
    ensures Ended(Held(events, i, k, e + 1))
         == Account([], Total(events[..e + 1]), None, HandedOn(AccountOf(events[..i]).segments, SegmentOf(events, i, k, e)))
  {
    hide AccountOf, Total, Lo, Fits;
  }

  /** The end of an utterance leaves nothing held, and its segment handed on unless it is too short. */
  lemma EndIsRecorded(events: seq<Event>, i: nat, k: nat, e: nat)
    requires Ends(events, i, k, e) && Silent(AccountOf(events[..i]))
    ensures 0 <= Lo(events, i, k) && Silent(AccountOf(events[..e + 1]))
    ensures AccountOf(events[..e + 1]).segments == HandedOn(AccountOf(events[..i]).segments, SegmentOf(events, i, k, e))
  {
    hide Accepted, AccountOf, Trimmed, Total, Sum, Ended, Retained, Lo, Fits, TakenIn, Held;
    if e == k {
      OpeningIsHeld(events, i, k);
      EndedHeld(events, i, k, e);
    } else {
      GoesOnOpen(events, i, k, e);
      StepOf(events, e);
      HeldGrows(events, i, k, e);
      EndedHeld(events, i, k, e);
    }
  }

  /** The event after e: a frame that joins the utterance, or the closing, which adds nothing to it. */
  lemma HeldGrows(events: seq<Event>, i: nat, k: nat, e: nat)
    requires i <= k < e < |events| && events[k].Heard? && 0 <= Lo(events, i, k) && Fits(Held(events, i, k, e))
    ensures Fits(Held(events, i, k, e + 1))
    ensures events[e].Closed? ==> Accepted(Held(events, i, k, e), events[e]) == Ended(Held(events, i, k, e + 1)).(preroll := [])
    ensures events[e].Heard? ==>
              && Accepted(Held(events, i, k, e), events[e]) == EndedIfDue(Held(events, i, k, e + 1), events[e].finalize)
              && (Due(Held(events, i, k, e + 1), events[e].finalize) <==> EndsAt(events, e, Lo(events, i, k)))
  {
    hide AccountOf, Total, Sum, Retained, Lo, Accepted, Fits, Ended, OpenSegment, Due, EndsAt, EndedIfDue;
    TotalSnoc(events, e);
    LongerFits(Held(events, i, k, e), Total(events[..e + 1]));
    if events[e].Heard? {
      LaterFrame(Held(events, i, k, e), events[e]);
      HeldIsDue(events, i, k, e);
    } else {
      ClosedAccepts(Held(events, i, k, e));
    }
  }

  lemma LongerFits(a: Account, total: nat)
    requires Fits(a) && a.total <= total
    ensures Fits(a.(total := total))
  {
  }

  lemma ClosedAccepts(a: Account)
    requires Fits(a)
    ensures Accepted(a, Closed) == Ended(a).(preroll := [])
  {
  }

  lemma {:induction false} ClearIsSilent(events: seq<Event>, i: nat)
    requires Clear(events, i)
    ensures Silent(AccountOf(events[..i]))
    decreases i
  {
    NothingYet(events);
    hide AccountOf, Ends, Accepted;
    if 0 < i && events[i - 1].Closed? {
      ClosedStep(events, i - 1);
    } else if 0 < i {
      var j: nat, k: nat, e: nat :| j <= k <= e && e + 1 == i && Clear(events, j) && Ends(events, j, k, e);
      ClearIsSilent(events, j);
      EndIsRecorded(events, j, k, e);
    }
  }

  lemma {:induction false} SegmentsStay(events: seq<Event>, m: nat, n: nat)
    requires m <= n <= |events|
    ensures AccountOf(events[..m]).segments <= AccountOf(events[..n]).segments
    decreases n
  {
    hide AccountOf, Accepted;
    if m < n {
      SegmentsStay(events, m, n - 1);
      StepOf(events, n - 1);
      AcceptedSegments(AccountOf(events[..n - 1]), events[n - 1]);
    }
  }

  lemma AcceptedSegments(a: Account, e: Event)
    requires Fits(a)
    ensures a.segments <= Accepted(a, e).segments
  {
    hide Trimmed, Sum;
  }

  /** Where a capture stands after m events: listening since i, or in the utterance that opened with frame k. */
  ghost predicate Stands(events: seq<Event>, m: nat, i: nat, k: nat) {
    && m <= |events| && Clear(events, i)
    && if AccountOf(events[..m]).open.None? then Quiet(events, i, m) else k < m && GoesOn(events, i, k, m)
  }

  lemma NextStands(events: seq<Event>, m: nat, i: nat, k: nat) returns (i': nat, k': nat)
    requires m < |events| && Stands(events, m, i, k)
    ensures Stands(events, m + 1, i', k')
    ensures NewJobs(events, m)
  {
    ClearIsSilent(events, i);
    i', k' := i, k;
    if AccountOf(events[..m]).open.None? {
      i', k' := ListeningStep(events, m, i);
    } else {
      i', k' := SpeakingStep(events, m, i, k);
    }
  }

  /** Event m hands nothing on, or one job. */
  ghost predicate NewJobs(events: seq<Event>, m: nat)
    requires m < |events|
  {
    var before, after := AccountOf(events[..m]).segments, AccountOf(events[..m + 1]).segments;
    after == before || exists s :: after == before + [s] && IsJob(events, s)
  }

  lemma EndIsJob(events: seq<Event>, i: nat, k: nat, e: nat)
    requires Clear(events, i) && Ends(events, i, k, e)
    requires AccountOf(events[..e]).segments == AccountOf(events[..i]).segments
    ensures Clear(events, e + 1) && Silent(AccountOf(events[..e + 1])) && NewJobs(events, e)
  {
    hide AccountOf, Accepted, Total, Retained, EndsAt;
    ClearIsSilent(events, i);
    EndIsRecorded(events, i, k, e);
    var s := SegmentOf(events, i, k, e);
    if s.hi - s.lo >= MIN_UTTERANCE_SAMPLES {
      assert IsJob(events, s);
    }
  }

  lemma ListeningStep(events: seq<Event>, m: nat, i: nat) returns (i': nat, k': nat)
    requires m < |events| && Clear(events, i) && Quiet(events, i, m) && Silent(AccountOf(events[..i]))
    ensures Stands(events, m + 1, i', k') && NewJobs(events, m)
  {
    hide AccountOf, Accepted, Total, Retained, Trimmed, Sum, IsJob;
    QuietRetains(events, i, m);
    i', k' := i, m;
    if events[m].Closed? {
      i' := m + 1;
      ClosedStep(events, m);
    } else if !events[m].speech {
      QuietRetains(events, i, m + 1);
    } else {
      OpeningIsHeld(events, i, m);
      if EndsAt(events, m, Lo(events, i, m)) {
        EndIsJob(events, i, m, m);
        i' := m + 1;
      }
    }
  }

  lemma ClosedStep(events: seq<Event>, m: nat)
    requires m < |events| && events[m].Closed?
    ensures Silent(AccountOf(events[..m + 1]))
    ensures AccountOf(events[..m]).open.None? ==> AccountOf(events[..m + 1]).segments == AccountOf(events[..m]).segments
  {
    StepOf(events, m);
  }

  lemma SpeakingStep(events: seq<Event>, m: nat, i: nat, k: nat) returns (i': nat, k': nat)
    requires m < |events| && Clear(events, i) && k < m && GoesOn(events, i, k, m) && Silent(AccountOf(events[..i]))
    ensures Stands(events, m + 1, i', k') && NewJobs(events, m)
  {
    hide AccountOf, Accepted, Total, Retained, Trimmed, Sum, IsJob, Lo;
    GoesOnOpen(events, i, k, m);
    i', k' := i, k;
    if events[m].Closed? || EndsAt(events, m, Lo(events, i, k)) {
      EndIsJob(events, i, k, m);
      i' := m + 1;
    } else {
      assert GoesOn(events, i, k, m + 1);
      GoesOnOpen(events, i, k, m + 1);
    }
  }

  lemma NothingYet(events: seq<Event>)
    ensures AccountOf(events[..0]) == Account([], 0, None, [])
  {
    assert events[..0] == [];
  }

  lemma {:induction false} StandsAt(events: seq<Event>, m: nat) returns (i: nat, k: nat)
    requires m <= |events|
    ensures Stands(events, m, i, k)
  {
    NothingYet(events);
    hide AccountOf, GoesOn;
    if m == 0 {
      i, k := 0, 0;
    } else {
      i, k := StandsAt(events, m - 1);
      i, k := NextStands(events, m - 1, i, k);
    }
  }

  lemma {:induction false} HandedIsJob(events: seq<Event>, m: nat, s: Segment)
    requires m <= |events| && s in AccountOf(events[..m]).segments
    ensures IsJob(events, s)
  {
    NothingYet(events);
    hide IsJob, Stands, AccountOf;
    if m > 0 {
      var i, k := StandsAt(events, m - 1);
      var _, _ := NextStands(events, m - 1, i, k);
      if s in AccountOf(events[..m - 1]).segments {
        HandedIsJob(events, m - 1, s);
      }
    }
  }

  lemma JobIsHanded(events: seq<Event>, s: Segment)
    requires IsJob(events, s)
    ensures s in AccountOf(events).segments
  {
    hide AccountOf, Accepted, Total, Retained, EndsAt;
    var i: nat, k: nat, e: nat :|
      && Clear(events, i) && Ends(events, i, k, e) && 0 <= Lo(events, i, k)
      && s == SegmentOf(events, i, k, e) && s.hi - s.lo >= MIN_UTTERANCE_SAMPLES;
    ClearIsSilent(events, i);
    EndIsRecorded(events, i, k, e);
    SegmentsStay(events, e + 1, |events|);
    assert events[..|events|] == events;
    assert s in AccountOf(events[..e + 1]).segments;
    InPrefix(AccountOf(events[..e + 1]).segments, AccountOf(events).segments, s);
  }

  lemma InPrefix(a: seq<Segment>, b: seq<Segment>, s: Segment)
    requires a <= b && s in a
    ensures s in b
  {
    var i :| 0 <= i < |a| && a[i] == s;
    assert b[i] == s;
  }

  /**
   The final jobs of a capture are exactly its utterances that have ended and were not too short: each one
   begins with what the preroll had retained, has every later frame, and ends with the first that ends it.
   */
  lemma FinalsAreTheUtterances(events: seq<Event>, s: Segment)
    ensures s in AccountOf(events).segments <==> IsJob(events, s)
  {
    hide AccountOf, IsJob;
    assert events[..|events|] == events;
    if s in AccountOf(events).segments {
      HandedIsJob(events, |events|, s);
    }
    if IsJob(events, s) {
      JobIsHanded(events, s);
    }
  }

  /** The retained preroll of a final job is at most half a second and the frame with the speech. */
  lemma PrerollIsBounded(events: seq<Event>, s: Segment)
    requires IsJob(events, s)
    ensures s.began - s.lo <= PREROLL_SAMPLES + s.first
  {
    hide Clear, EndsAt, Total, Sum, Trimmed;
    var i: nat, k: nat, e: nat :|
      && Clear(events, i) && Ends(events, i, k, e) && 0 <= Lo(events, i, k)
      && s == SegmentOf(events, i, k, e) && s.hi - s.lo >= MIN_UTTERANCE_SAMPLES;
    RetainedSnoc(events, i, k);
    TrimmedIsBounded(Retained(events, i, k), events[k].length);
  }

  /** The final jobs lie in the stream one after the other, and before all that is still held. */
  ghost predicate InOrder(a: Account) {
    && (forall k, l :: 0 <= k < l < |a.segments| ==> a.segments[k].hi <= a.segments[l].lo)
    && (forall k :: 0 <= k < |a.segments| ==>
          && a.segments[k].lo <= a.segments[k].began <= a.segments[k].hi
          && a.segments[k].hi <= if a.open.Some? then a.open.value.lo else a.total - Sum(a.preroll))
  }

  lemma TakenInKeepsOrder(a: Account, length: nat, speech: bool)
    requires Fits(a) && InOrder(a)
    ensures InOrder(TakenIn(a, length, speech))
  {
    TrimmedIsBounded(a.preroll, length);
    hide Trimmed, Sum;
  }

  lemma EndedKeepsOrder(a: Account)
    requires Fits(a) && InOrder(a)
    ensures InOrder(Ended(a))
  {
    assert Sum([]) == 0;
  }

  lemma {:induction false} FinalsAreInOrder(events: seq<Event>)
    ensures InOrder(AccountOf(events))
  {
    if events != [] {
      var n := |events| - 1;
      FinalsAreInOrder(events[..n]);
      var a, e := AccountOf(events[..n]), events[n];
      assert AccountOf(events) == Accepted(a, e) && Sum([]) == 0;
      hide AccountOf, TakenIn, Ended, Sum;
      EndedKeepsOrder(a);
      if e.Heard? {
        TakenInKeepsOrder(a, e.length, e.speech);
        EndedKeepsOrder(TakenIn(a, e.length, e.speech));
      }
    }
  }
}
