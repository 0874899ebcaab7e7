/** The order of voice recognition events that a subscription accepts before it quarantines itself. */
module EventOrder {
  import opened Options

  datatype Event =
    | Ready(session: string)
    | Partial(session: string, utterance: string, revision: int)
    | Final(session: string, utterance: string, revision: int)
    | Discarded(session: string, utterance: string)
    | Failed(session: string, named: Option<string>, fatal: bool)
    | Stopped(session: string)

  // ---- The language ----

  predicate Speaks(e: Event, u: string) {
    (e.Partial? || e.Final? || e.Discarded?) && e.utterance == u
  }

  predicate Revises(e: Event, u: string) {
    (e.Partial? || e.Final?) && e.utterance == u
  }

  predicate Ends(e: Event, u: string) {
    (e.Final? || e.Discarded?) && e.utterance == u
  }

  predicate Fatal(e: Event) {
    e.Failed? && e.fatal
  }

  /** Event e may follow the events before it. */
  ghost predicate Fits(session: string, before: seq<Event>, e: Event) {
    && e.session == session
    // Nothing follows stopped.
    && (forall j :: 0 <= j < |before| ==> !before[j].Stopped?)
    // One ready, in front of everything but stopped.
    && (e.Ready? ==> forall j :: 0 <= j < |before| ==> !before[j].Ready?)
    && (!e.Ready? && !e.Stopped? ==> exists j :: 0 <= j < |before| && before[j].Ready?)
    // Only discards and stopped after a fatal failure.
    && ((exists j :: 0 <= j < |before| && Fatal(before[j])) ==> e.Ready? || e.Stopped? || e.Discarded?)
    // Nothing is said of an utterance after its final or its discard.
    && (forall u :: Speaks(e, u) ==> forall j :: 0 <= j < |before| ==> !Ends(before[j], u))
    // Revisions of an utterance start above zero and strictly increase.
    && (forall u :: Revises(e, u) ==>
          e.revision > 0 && forall j :: 0 <= j < |before| && Revises(before[j], u) ==> before[j].revision < e.revision)
  }

  ghost predicate InLanguage(session: string, es: seq<Event>) {
    forall k :: 0 <= k < |es| ==> Fits(session, es[..k], es[k])
  }

  lemma LanguageGrows(session: string, es: seq<Event>, e: Event)
    ensures InLanguage(session, es + [e]) <==> InLanguage(session, es) && Fits(session, es, e)
  {
    var longer := es + [e];
    assert forall k :: 0 <= k < |es| ==> longer[..k] == es[..k] && longer[k] == es[k];
    assert longer[..|es|] == es && longer[|es|] == e;
    if InLanguage(session, longer) {
      forall k | 0 <= k < |es| ensures Fits(session, es[..k], es[k]) {
        assert Fits(session, longer[..k], longer[k]);
      }
      assert Fits(session, longer[..|es|], longer[|es|]);
    }
  }

  // ---- The validator ----

  datatype Utterance = Utterance(revision: int, terminal: bool)

  ghost predicate FlagsTrack(ready: bool, stopped: bool, failed: bool, es: seq<Event>) {
    && (ready <==> exists j :: 0 <= j < |es| && es[j].Ready?)
    && (stopped <==> exists j :: 0 <= j < |es| && es[j].Stopped?)
    && (failed <==> exists j :: 0 <= j < |es| && Fatal(es[j]))
  }

  /** What the map remembers of one utterance: its last revision and whether it has ended. */
  ghost predicate TracksUtterance(known: Option<Utterance>, es: seq<Event>, u: string) {
    match known
    case None => forall j :: 0 <= j < |es| ==> !Speaks(es[j], u)
    case Some(x) =>
      && x.revision >= 0
      && (forall j :: 0 <= j < |es| && Revises(es[j], u) ==> es[j].revision <= x.revision)
      && (x.revision == 0 || exists j :: 0 <= j < |es| && Revises(es[j], u) && es[j].revision == x.revision)
      && (x.terminal <==> exists j :: 0 <= j < |es| && Ends(es[j], u))
  }

  function Known(utterances: map<string, Utterance>, u: string): Option<Utterance> {
    if u in utterances then Some(utterances[u]) else None
  }

  ghost predicate AllTrack(utterances: map<string, Utterance>, es: seq<Event>) {
    forall u :: TracksUtterance(Known(utterances, u), es, u)
  }

  /** One event rewrites at most the entry of the utterance it speaks of. */
  lemma OneEntryMoves(utterances: map<string, Utterance>, es: seq<Event>, e: Event, x: Utterance)
    requires AllTrack(utterances, es) && (e.Partial? || e.Final? || e.Discarded?)
    requires TracksUtterance(Some(x), es + [e], e.utterance)
    ensures AllTrack(utterances[e.utterance := x], es + [e])
  {
    var next := utterances[e.utterance := x];
    forall u ensures TracksUtterance(Known(next, u), es + [e], u) {
      if u != e.utterance {
        assert TracksUtterance(Known(utterances, u), es, u);
        UtteranceMoves(Known(utterances, u), es, e, u);
      }
    }
  }

  /** What the map must become when an event is accepted. */
  lemma AllMove(utterances: map<string, Utterance>, es: seq<Event>, e: Event)
    requires AllTrack(utterances, es)
    ensures e.Ready? || e.Failed? || e.Stopped? ==> AllTrack(utterances, es + [e])
    ensures e.Partial? || e.Final? || e.Discarded? ==>
              var known := Known(utterances, e.utterance);
              var x := if known.None? then Utterance(0, false) else known.value;
              && (e.Discarded? ==> AllTrack(utterances[e.utterance := Utterance(x.revision, true)], es + [e]))
              && (!e.Discarded? && e.revision > x.revision && !x.terminal ==>
                    AllTrack(utterances[e.utterance := Utterance(e.revision, e.Final?)], es + [e]))
  {
    if e.Ready? || e.Failed? || e.Stopped? {
      forall u ensures TracksUtterance(Known(utterances, u), es + [e], u) {
        UtteranceMoves(Known(utterances, u), es, e, u);
      }
    } else {
      var known := Known(utterances, e.utterance);
      var x := if known.None? then Utterance(0, false) else known.value;
      assert TracksUtterance(known, es, e.utterance);
      UtteranceMoves(known, es, e, e.utterance);
      assert Speaks(e, e.utterance) && (!e.Discarded? ==> Revises(e, e.utterance));
      hide TracksUtterance, AllTrack;
      if e.Discarded? {
        OneEntryMoves(utterances, es, e, Utterance(x.revision, true));
      } else if e.revision > x.revision && !x.terminal {
        OneEntryMoves(utterances, es, e, Utterance(e.revision, e.Final?));
      }
    }
  }

  lemma FlagsMove(ready: bool, stopped: bool, failed: bool, es: seq<Event>, e: Event)
    requires FlagsTrack(ready, stopped, failed, es)
    ensures FlagsTrack(ready || e.Ready?, stopped || e.Stopped?, failed || Fatal(e), es + [e])
  {
    var longer := es + [e];
    assert longer[|es|] == e && forall j :: 0 <= j < |es| ==> longer[j] == es[j];
  }

  lemma UtteranceMoves(known: Option<Utterance>, es: seq<Event>, e: Event, u: string)
    requires TracksUtterance(known, es, u)
    ensures !Speaks(e, u) ==> TracksUtterance(known, es + [e], u)
    ensures var x := if known.None? then Utterance(0, false) else known.value;
            && (e.Discarded? && Speaks(e, u) ==> TracksUtterance(Some(Utterance(x.revision, true)), es + [e], u))
            && (Revises(e, u) && e.revision > x.revision && !x.terminal ==>
                  TracksUtterance(Some(Utterance(e.revision, e.Final?)), es + [e], u))
  {
    var longer := es + [e];
    assert longer[|es|] == e && forall j :: 0 <= j < |es| ==> longer[j] == es[j];
  }

  /** For the event's own utterance the remembered summary decides whether it may follow. */
  lemma UtteranceDecides(known: Option<Utterance>, es: seq<Event>, e: Event)
    requires (e.Partial? || e.Final? || e.Discarded?) && TracksUtterance(known, es, e.utterance)
    ensures var x := if known.None? then Utterance(0, false) else known.value;
            (x.terminal <==> exists j :: 0 <= j < |es| && Ends(es[j], e.utterance))
            && (e.Discarded? ||
                  (e.revision > x.revision) == (e.revision > 0 &&
                    (forall j :: 0 <= j < |es| && Revises(es[j], e.utterance) ==> es[j].revision < e.revision)))
  {
    if known.None? {
      forall j | 0 <= j < |es| ensures !Ends(es[j], e.utterance) && !Revises(es[j], e.utterance) {
        assert !Speaks(es[j], e.utterance);
      }
    }
  }

  /** `voiceAsrEventOrder`: four flags and a map instead of the whole history. */
  class Order {
    const sessionId: string
    var ready: bool
    var stopped: bool
    var failed: bool
    var utterances: map<string, Utterance>

    constructor (sessionId: string)
      ensures this.sessionId == sessionId && Tracks([])
    {
      this.sessionId := sessionId;
      ready, stopped, failed := false, false, false;
      utterances := map[];
    }

    /** The state is the summary of the accepted events. */
    ghost predicate Tracks(es: seq<Event>)
      reads this
    {
      FlagsTrack(ready, stopped, failed, es) && AllTrack(utterances, es)
    }

    /** Accepts an event exactly when the language allows it next; a rejected event leaves no trace. */
    method Accept(e: Event, ghost es: seq<Event>) returns (ok: bool)
      requires Tracks(es) && InLanguage(sessionId, es)
      modifies this
      ensures ok <==> Fits(sessionId, es, e)
      ensures ok ==> Tracks(es + [e])
      ensures !ok ==> Tracks(es)
    {
      FlagsMove(ready, stopped, failed, es, e);
      AllMove(utterances, es, e);
      if e.Partial? || e.Final? || e.Discarded? {
        UtteranceDecides(Known(utterances, e.utterance), es, e);
        assert Speaks(e, e.utterance) && (!e.Discarded? ==> Revises(e, e.utterance));
      }
      hide TracksUtterance;
      if e.session != sessionId || stopped {
        return false;
      }
      if e.Ready? {
        if ready {
          return false;
        }
        ready := true;
        return true;
      }
      if e.Stopped? {
        stopped := true;
        return true;
      }
      if !ready {
        return false;
      }
      if failed && !e.Discarded? {
        return false;
      }
      if e.Failed? {
        failed := e.fatal;
        return true;
      }
      var previous := if e.utterance in utterances then utterances[e.utterance] else Utterance(0, false);
      if previous.terminal {
        return false;
      }
      if e.Discarded? {
        utterances := utterances[e.utterance := Utterance(previous.revision, true)];
        return true;
      }
      if e.revision <= previous.revision {
        return false;
      }
      utterances := utterances[e.utterance := Utterance(e.revision, e.Final?)];
      return true;
    }
  }

  // ---- The guarded subscription ----

  /** The leading values that parsed. */
  ghost predicate Parsed(fed: seq<Option<Event>>, m: nat) {
    m <= |fed| && forall i :: 0 <= i < m ==> fed[i].Some?
  }

  ghost function Events(fed: seq<Option<Event>>, m: nat): (es: seq<Event>)
    requires Parsed(fed, m)
    ensures |es| == m && forall i :: 0 <= i < m ==> es[i] == fed[i].value
  {
    seq(m, i requires 0 <= i < m => fed[i].value)
  }

  /** The first m values are the longest prefix that parses and lies in the language. */
  ghost predicate Longest(session: string, fed: seq<Option<Event>>, m: nat) {
    && Parsed(fed, m) && InLanguage(session, Events(fed, m))
    && forall n :: m < n <= |fed| && Parsed(fed, n) ==> !InLanguage(session, Events(fed, n))
  }

  lemma PrefixInLanguage(session: string, fed: seq<Option<Event>>, m: nat, n: nat)
    requires m <= n && Parsed(fed, n) && InLanguage(session, Events(fed, n))
    ensures Parsed(fed, m) && InLanguage(session, Events(fed, m))
  {
    forall k | 0 <= k < m ensures Fits(session, Events(fed, m)[..k], Events(fed, m)[k]) {
      assert Events(fed, m)[..k] == Events(fed, n)[..k];
    }
  }

  /** `guardedReceiver` around the validator: delivers until the first value that does not parse or does not fit. */
  class Receiver {
    const order: Order
    var invalid: bool
    var delivered: seq<Event>
    ghost var fed: seq<Option<Event>>

    ghost predicate Valid()
      reads this, order
    {
      && |delivered| <= |fed| && Longest(order.sessionId, fed, |delivered|)
      && delivered == Events(fed, |delivered|)
      && (invalid <==> |delivered| < |fed|)
      && order.Tracks(delivered)
    }

    constructor (sessionId: string)
      ensures Valid() && fresh(order) && fed == [] && order.sessionId == sessionId
    {
      order := new Order(sessionId);
      invalid := false;
      delivered := [];
      fed := [];
    }

    /** However the values arrive, what has been delivered is exactly the longest acceptable prefix of them. */
    method Receive(value: Option<Event>)
      requires Valid()
      modifies this, order
      ensures Valid() && fed == old(fed) + [value]
      ensures delivered == old(delivered) || (value.Some? && delivered == old(delivered) + [value.value])
    {
      hide Fits, InLanguage, Longest;
      ghost var session, before := order.sessionId, fed;
      fed := fed + [value];
      if invalid {
        StaysLongest(session, before, value, |delivered|);
        return;
      }
      AllFed(session, before, value, delivered);
      if value.None? {
        invalid := true;
        return;
      }
      var ok := order.Accept(value.value, delivered);
      if !ok {
        invalid := true;
        return;
      }
      delivered := delivered + [value.value];
    }
  }

  /** While everything fed has been delivered, one more value is delivered exactly when it parses and fits. */
  lemma AllFed(session: string, fed: seq<Option<Event>>, value: Option<Event>, delivered: seq<Event>)
    requires |delivered| == |fed| && Longest(session, fed, |fed|) && delivered == Events(fed, |fed|)
    ensures InLanguage(session, delivered)
    ensures value.None? || !Fits(session, delivered, value.value) ==>
              Longest(session, fed + [value], |fed|) && Events(fed + [value], |fed|) == delivered
    ensures value.Some? && Fits(session, delivered, value.value) ==>
              Longest(session, fed + [value], |fed| + 1) && Events(fed + [value], |fed| + 1) == delivered + [value.value]
  {
    var longer := fed + [value];
    assert Parsed(longer, |fed|) && Events(longer, |fed|) == delivered;
    if value.Some? {
      LanguageGrows(session, delivered, value.value);
      assert Parsed(longer, |fed| + 1) && Events(longer, |fed| + 1) == delivered + [value.value];
    } else {
      assert !Parsed(longer, |fed| + 1) by { assert longer[|fed|] == value; }
    }
  }

  /** Once a value has been refused, nothing that follows makes the prefix longer. */
  lemma StaysLongest(session: string, fed: seq<Option<Event>>, value: Option<Event>, m: nat)
    requires m < |fed| && Longest(session, fed, m)
    ensures Longest(session, fed + [value], m) && Events(fed + [value], m) == Events(fed, m)
  {
    hide InLanguage;
    var longer := fed + [value];
    assert Parsed(longer, m) && Events(longer, m) == Events(fed, m);
    forall n | m < n <= |longer| && Parsed(longer, n) ensures !InLanguage(session, Events(longer, n)) {
      assert Parsed(fed, m + 1) by {
        forall i | 0 <= i <= m ensures fed[i].Some? { assert longer[i] == fed[i]; }
      }
      assert Events(longer, m + 1) == Events(fed, m + 1);
      if InLanguage(session, Events(longer, n)) {
        PrefixInLanguage(session, longer, m + 1, n);
      }
    }
  }

  /** Two receivers fed the same values deliver the same events: the longest prefix is unique. */
  lemma LongestIsUnique(session: string, fed: seq<Option<Event>>, m: nat, n: nat)
    requires Longest(session, fed, m) && Longest(session, fed, n)
    ensures m == n
  {
  }

  /** Failures are not bound to utterances: one that is not fatal may name an utterance that has already ended. */
  lemma FailureMayNameFinishedUtterance(session: string, u: string)
    ensures InLanguage(session, [Ready(session), Final(session, u, 1), Failed(session, Some(u), false)])
  {
    var a, b, c := Ready(session), Final(session, u, 1), Failed(session, Some(u), false);
    var one, two := [a], [a, b];
    assert InLanguage(session, one) && one[0].Ready? by {
      LanguageGrows(session, [], a);
      assert [] + [a] == one;
    }
    assert InLanguage(session, two) && two[0].Ready? && !two[1].Stopped? && !two[1].Failed? by {
      LanguageGrows(session, one, b);
      assert one + [b] == two;
    }
    LanguageGrows(session, two, c);
    assert two + [c] == [a, b, c];
  }

  /** Among events that speak of an utterance its final or discard is the last. */
  lemma FinalIsLast(session: string, es: seq<Event>, i: nat, j: nat, u: string)
    requires InLanguage(session, es) && i < j < |es| && Ends(es[i], u)
    ensures !Speaks(es[j], u)
  {
    assert Fits(session, es[..j], es[j]);
    assert es[..j][i] == es[i];
  }

  /** Revisions of one utterance strictly increase along an accepted sequence. */
  lemma RevisionsIncrease(session: string, es: seq<Event>, i: nat, j: nat, u: string)
    requires InLanguage(session, es) && i < j < |es| && Revises(es[i], u) && Revises(es[j], u)
    ensures 0 < es[i].revision < es[j].revision
  {
    assert Fits(session, es[..j], es[j]) && Fits(session, es[..i], es[i]);
    assert es[..j][i] == es[i];
  }
}
