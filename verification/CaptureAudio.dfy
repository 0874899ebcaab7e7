/**
 Audio bookkeeping of a conversation capture over HTTP: frames are copied into a preroll, then into
 the current utterance, and every buffer is zeroed in place as soon as it is no longer needed.
 */
module CaptureAudio {
  import opened CaptureAccount
  import opened Options

  type Sample = real

  datatype Job = Job(id: string, samples: array<Sample>)

  /** The samples held by a list of frames, in order. */
  ghost function Flat(frames: seq<array<Sample>>): seq<Sample>
    reads set f | f in frames
  {
    if frames == [] then [] else Flat(frames[..|frames| - 1]) + frames[|frames| - 1][..]
  }

  function Lengths(frames: seq<array<Sample>>): (counts: seq<nat>)
    ensures |counts| == |frames| && forall k :: 0 <= k < |counts| ==> counts[k] == frames[k].Length
  {
    seq(|frames|, k requires 0 <= k < |frames| => frames[k].Length)
  }

  lemma {:induction false} FlatLength(frames: seq<array<Sample>>)
    ensures |Flat(frames)| == Sum(Lengths(frames))
  {
    if frames != [] {
      var n := |frames| - 1;
      FlatLength(frames[..n]);
      assert Lengths(frames)[..n] == Lengths(frames[..n]);
    }
  }

  lemma LengthsFrom(frames: seq<array<Sample>>, n: nat)
    requires n <= |frames|
    ensures Lengths(frames[n..]) == Lengths(frames)[n..]
  {
  }

  lemma KeepsNext(counts: seq<nat>, n: nat, limit: nat)
    requires n + 1 < |counts| && Sum(counts[n..]) > limit
    ensures FirstKept(counts, n, limit) == FirstKept(counts, n + 1, limit)
  {
    hide Sum;
  }

  lemma KeepsThis(counts: seq<nat>, n: nat, limit: nat)
    requires n < |counts| && (Sum(counts[n..]) <= limit || n + 1 == |counts|)
    ensures FirstKept(counts, n, limit) == n
  {
    hide Sum;
  }

  lemma TrimmedSays(counts: seq<nat>, limit: nat)
    ensures Trimmed(counts, limit) == counts[FirstKept(counts, 0, limit)..]
  {
  }

  lemma FlatNothing()
    ensures Flat([]) == []
  {
  }

  lemma FlatSnoc(frames: seq<array<Sample>>, f: array<Sample>)
    ensures Flat(frames + [f]) == Flat(frames) + f[..]
  {
    assert (frames + [f])[..|frames|] == frames;
  }

  lemma {:induction false} FlatHead(frames: seq<array<Sample>>)
    requires frames != []
    ensures Flat(frames) == frames[0][..] + Flat(frames[1..])
  {
    if |frames| > 1 {
      var n := |frames| - 1;
      FlatHead(frames[..n]);
      assert frames[1..][..n - 1] == frames[..n][1..];
    } else {
      assert frames[..0] == [];
    }
  }

  method Slice(frame: array<Sample>) returns (copy: array<Sample>)
    ensures fresh(copy) && copy[..] == frame[..]
  {
    copy := new Sample[frame.Length](i requires 0 <= i < frame.Length reads frame => frame[i]);
  }

  /** Every sample of these frames is zero. */
  ghost predicate Zeroed(frames: seq<array<Sample>>)
    reads set f | f in frames
  {
    forall f :: f in frames ==> forall i :: 0 <= i < f.Length ==> f[i] == 0.0
  }

  /** Zeroes every frame; all of them lie in the region. */
  method FillZero(frames: seq<array<Sample>>, ghost region: set<array<Sample>>)
    requires forall f :: f in frames ==> f in region
    modifies region
    ensures Zeroed(frames)
  {
    for n := 0 to |frames|
      invariant forall k :: 0 <= k < n ==> forall i :: 0 <= i < frames[k].Length ==> frames[k][i] == 0.0
    {
      var frame := frames[n];
      forall i | 0 <= i < frame.Length {
        frame[i] := 0.0;
      }
    }
  }

  /** `samplesOf`: one fresh array holding all the frames. */
  method SamplesOf(frames: seq<array<Sample>>, count: nat) returns (samples: array<Sample>)
    requires count == |Flat(frames)|
    ensures fresh(samples) && samples[..] == Flat(frames)
  {
    samples := new Sample[count](_ => 0.0);
    var offset := 0;
    assert frames[..0] == [];
    for n := 0 to |frames|
      invariant samples !in frames
      invariant offset == |Flat(frames[..n])| && offset <= count
      invariant samples[..offset] == Flat(frames[..n])
      invariant Flat(frames) == old(Flat(frames))
    {
      FlatPrefix(frames, n);
      var frame := frames[n];
      forall i | 0 <= i < frame.Length {
        samples[offset + i] := frame[i];
      }
      assert frames[..n + 1] == frames[..n] + [frame];
      FlatSnoc(frames[..n], frame);
      assert samples[..offset + frame.Length] == Flat(frames[..n]) + frame[..];
      offset := offset + frame.Length;
    }
    assert frames[..|frames|] == frames;
    assert samples[..count] == samples[..];
  }

  lemma {:induction false} FlatPrefix(frames: seq<array<Sample>>, n: nat)
    requires n < |frames|
    ensures |Flat(frames[..n])| + frames[n].Length <= |Flat(frames)|
    decreases |frames|
  {
    var last := |frames| - 1;
    if n < last {
      FlatPrefix(frames[..last], n);
      assert frames[..last][..n] == frames[..n];
    }
  }

  ghost predicate Distinct(frames: seq<array<Sample>>) {
    forall i, j :: 0 <= i < j < |frames| ==> frames[i] != frames[j]
  }

  lemma NothingZeroed()
    ensures Zeroed([])
  {
  }

  lemma ZeroedSnoc(frames: seq<array<Sample>>, f: array<Sample>)
    requires Zeroed(frames) && Zeroed([f])
    ensures Zeroed(frames + [f])
  {
  }

  lemma NotAmongFormer(frames: seq<array<Sample>>, n: nat)
    requires Distinct(frames) && n < |frames|
    ensures frames[n] !in frames[..n]
  {
  }

  lemma AccountSnoc(events: seq<Event>, e: Event)
    ensures AccountOf(events + [e]) == Accepted(AccountOf(events), e)
  {
    assert (events + [e])[..|events|] == events;
  }

  class Capture {
    var preroll: seq<array<Sample>>
    var prerollCount: nat
    var utterance: seq<array<Sample>>
    var utteranceCount: nat
    var currentUtteranceId: Option<string>
    var lastPartialSamples: nat
    var pendingPartial: Option<Job>
    var finals: seq<Job>
    // The samples accepted so far, where each final job lies in them, and where the current utterance begins.
    ghost var stream: seq<Sample>
    ghost var segments: seq<Segment>
    ghost var current: Segment
    // Everything that has happened.
    ghost var events: seq<Event>
    // The buffers that the capture may zero, and those that belong to final jobs.
    ghost var owned: set<array<Sample>>
    ghost var given: set<array<Sample>>

    /** Where the samples begin that no final job has claimed. */
    ghost function Fence(): nat
      reads `segments
    {
      if segments == [] then 0 else segments[|segments| - 1].hi
    }

    /** Without an utterance the preroll is the end of the stream. */
    ghost predicate Idle()
      reads `preroll, `prerollCount, `utterance, `utteranceCount, `stream, `segments, `owned, owned
    {
      && utterance == [] && utteranceCount == 0 && Distinct(preroll) && (forall f :: f in preroll ==> f in owned)
      && Fence() + prerollCount <= |stream| && Flat(preroll) == stream[|stream| - prerollCount..]
    }

    /** During an utterance its frames are everything since the start of the preroll it took over. */
    ghost predicate Speaking()
      reads `preroll, `prerollCount, `utterance, `utteranceCount, `stream, `segments, `current, `owned, owned
    {
      && preroll == [] && prerollCount == 0 && (forall f :: f in utterance ==> f in owned)
      && Fence() <= current.lo <= current.began <= |stream| && current.lo + utteranceCount == |stream|
      && current.began - current.lo <= PREROLL_SAMPLES + current.first
      && Flat(utterance) == stream[current.lo..]
    }

    ghost predicate Holds()
      reads `preroll, `prerollCount, `utterance, `utteranceCount, `currentUtteranceId, `stream, `segments, `current, `owned, owned
    {
      if currentUtteranceId.None? then Idle() else Speaking()
    }

    /** Every final job still holds its own segment of the stream, and the segments are in order and apart. */
    ghost predicate Delivers()
      reads `finals, `segments, `stream, `given, given
    {
      && |segments| == |finals| && (forall k :: 0 <= k < |finals| ==> finals[k].samples in given)
      && (forall k :: 0 <= k < |finals| ==>
            && segments[k].lo <= segments[k].began <= segments[k].hi <= |stream|
            && segments[k].began - segments[k].lo <= PREROLL_SAMPLES + segments[k].first
            && MIN_UTTERANCE_SAMPLES <= segments[k].hi - segments[k].lo
            && finals[k].samples[..] == stream[segments[k].lo..segments[k].hi])
      && (forall k, l :: 0 <= k < l < |finals| ==> segments[k].hi <= segments[l].lo)
    }

    /** No buffer that may still be zeroed belongs to a final job. */
    ghost predicate Apart()
      reads `pendingPartial, `owned, `given
    {
      && owned !! given
      && (pendingPartial.Some? ==> pendingPartial.value.samples !in owned && pendingPartial.value.samples !in given)
    }

    ghost predicate Valid()
      reads `preroll, `prerollCount, `utterance, `utteranceCount, `currentUtteranceId, `pendingPartial, `finals
      reads `stream, `segments, `current, `owned, `given, owned, given
    {
      Holds() && Delivers() && Apart()
    }

    /** The state, counted in samples. */
    ghost function Account(): Account
      reads `preroll, `stream, `current, `currentUtteranceId, `segments
    {
      CaptureAccount.Account.Account(Lengths(preroll), |stream|, if currentUtteranceId.Some? then Some(current) else None, segments)
    }

    /** The final jobs hold what the events say, and so do the preroll and the utterance. */
    ghost predicate Accounted()
      reads `preroll, `stream, `current, `currentUtteranceId, `segments, `events
    {
      Account() == AccountOf(events)
    }

    constructor ()
      ensures Accounted() && events == []
      ensures Valid() && finals == [] && stream == [] && owned == {} && given == {}
    {
      preroll, prerollCount, utterance, utteranceCount := [], 0, [], 0;
      currentUtteranceId, lastPartialSamples, pendingPartial, finals := None, 0, None, [];
      stream, segments, current := [], [], Segment(0, 0, 0, 0);
      owned, given, events := {}, {}, [];
    }

    method ClearPreroll()
      requires Valid() && currentUtteranceId.None?
      modifies `preroll, `prerollCount, set f | f in preroll
      ensures Valid() && preroll == [] && Zeroed(old(preroll)) && Account() == old(Account()).(preroll := [])
    {
      hide Delivers, Flat;
      assert Lengths([]) == [];
      FillZero(preroll, set f | f in preroll);
      preroll, prerollCount := [], 0;
      FlatNothing();
      assert stream[|stream|..] == [];
    }

    method ClearUtterance()
      requires Valid() && currentUtteranceId.Some?
      modifies `utterance, `utteranceCount, `currentUtteranceId, `lastPartialSamples, owned
      ensures Valid() && currentUtteranceId.None? && preroll == [] && Zeroed(old(utterance))
    {
      hide Delivers, Flat;
      FillZero(utterance, owned);
      utterance, utteranceCount := [], 0;
      currentUtteranceId, lastPartialSamples := None, 0;
      FlatNothing();
      assert stream[|stream|..] == [];
    }

    lemma HeldUtterance()
      requires Holds() && currentUtteranceId.Some?
      ensures Flat(utterance) == stream[current.lo..] && |Flat(utterance)| == utteranceCount && Speaking()
      ensures Fence() <= current.lo <= current.began <= |stream| && current.lo + utteranceCount == |stream|
      ensures current.began - current.lo <= PREROLL_SAMPLES + current.first
    {
    }

    method DropPartial()
      requires Valid()
      modifies `pendingPartial, if pendingPartial.Some? then {pendingPartial.value.samples} else {}
      ensures Valid() && pendingPartial.None?
      ensures old(pendingPartial).Some? ==> Zeroed([old(pendingPartial).value.samples])
    {
      hide Delivers, Holds;
      if pendingPartial.Some? {
        FillZero([pendingPartial.value.samples], {pendingPartial.value.samples});
      }
      pendingPartial := None;
    }

    /** A copy of the utterance so far replaces the partial still waiting, whose samples are zeroed. */
    method QueuePartial()
      requires Valid() && currentUtteranceId.Some?
      modifies `pendingPartial, if pendingPartial.Some? then {pendingPartial.value.samples} else {}
      ensures Valid() && pendingPartial.Some? && pendingPartial.value.id == currentUtteranceId.value
      ensures fresh(pendingPartial.value.samples) && pendingPartial.value.samples[..] == stream[current.lo..]
      ensures old(pendingPartial).Some? ==> Zeroed([old(pendingPartial).value.samples])
    {
      HeldUtterance();
      hide Delivers, Flat, Holds, Idle, Speaking, Sum;
      var samples := SamplesOf(utterance, utteranceCount);
      DropPartial();
      pendingPartial := Some(Job(currentUtteranceId.value, samples));
    }

    /** The drainer takes the waiting partial; from here on its buffer is the drainer's to zero. */
    method TakePartial() returns (job: Option<Job>)
      requires Valid()
      modifies `pendingPartial
      ensures Valid() && job == old(pendingPartial) && pendingPartial.None?
    {
      hide Delivers, Holds;
      job := pendingPartial;
      pendingPartial := None;
    }

    /** A longer stream leaves every delivered segment where it was. */
    twostate lemma StillDelivers()
      requires old(Delivers()) && finals == old(finals) && segments == old(segments) && given == old(given)
      requires (forall a :: a in given ==> unchanged(a)) && old(stream) <= stream
      ensures Delivers()
    {
      assert stream[..|old(stream)|] == old(stream);
      forall k | 0 <= k < |finals| ensures finals[k].samples[..] == stream[segments[k].lo..segments[k].hi] {
        assert stream[segments[k].lo..segments[k].hi] == old(stream)[segments[k].lo..segments[k].hi];
      }
    }

    lemma FenceIsHighest()
      requires Delivers()
      ensures forall k :: 0 <= k < |segments| ==> segments[k].hi <= Fence()
    {
    }

    /** Hands a final job on; it claims its segment of the stream. */
    method Deliver(job: Job, ghost segment: Segment)
      requires Valid() && currentUtteranceId.None? && preroll == []
      requires job.samples !in owned && (pendingPartial.Some? ==> pendingPartial.value.samples != job.samples)
      requires segment.lo <= segment.began <= segment.hi == |stream| && Fence() <= segment.lo
      requires segment.began - segment.lo <= PREROLL_SAMPLES + segment.first
      requires MIN_UTTERANCE_SAMPLES <= segment.hi - segment.lo && job.samples[..] == stream[segment.lo..segment.hi]
      modifies `finals, `segments, `given
      ensures Valid() && finals == old(finals) + [job] && segments == old(segments) + [segment]
      ensures given == old(given) + {job.samples}
    {
      hide Flat;
      FenceIsHighest();
      finals := finals + [job];
      segments := segments + [segment];
      given := given + {job.samples};
      FlatNothing();
      assert stream[|stream|..] == [];
    }

    /** The waiting partial is dropped, and zeroed, exactly when it belongs to this utterance. */
    ghost predicate DropsPartial(before: Option<Job>, id: Option<string>)
      reads `pendingPartial, if before.Some? then {before.value.samples} else {}
    {
      if before.Some? && id == Some(before.value.id) then pendingPartial.None? && Zeroed([before.value.samples])
      else pendingPartial == before
    }

    /** A copy of the utterance, for its final job; the partial of the same utterance is dropped. */
    method CopyUtterance() returns (samples: array<Sample>)
      requires Valid() && currentUtteranceId.Some?
      modifies `pendingPartial, if pendingPartial.Some? then {pendingPartial.value.samples} else {}
      ensures Valid() && fresh(samples) && samples[..] == stream[current.lo..] && samples.Length == utteranceCount
      ensures DropsPartial(old(pendingPartial), currentUtteranceId)
    {
      HeldUtterance();
      hide Delivers, Flat, Holds;
      samples := SamplesOf(utterance, utteranceCount);
      if pendingPartial.Some? && pendingPartial.value.id == currentUtteranceId.value {
        DropPartial();
      }
    }

    lemma PartialIsApart()
      requires Valid()
      ensures pendingPartial.Some? ==> pendingPartial.value.samples !in owned
    {
    }

    /** Copies the utterance and clears it. */
    method CutUtterance() returns (samples: array<Sample>)
      requires Valid() && currentUtteranceId.Some?
      modifies `pendingPartial, `utterance, `utteranceCount, `currentUtteranceId, `lastPartialSamples
      modifies owned, if pendingPartial.Some? then {pendingPartial.value.samples} else {}
      ensures Valid() && currentUtteranceId.None? && preroll == []
      ensures fresh(samples) && samples[..] == old(stream[current.lo..])
      ensures Zeroed(old(utterance)) && DropsPartial(old(pendingPartial), old(currentUtteranceId))
    {
      hide *;
      PartialIsApart();
      samples := CopyUtterance();
      ClearUtterance();
    }

    method SendFinal() returns (job: Job)
      requires Valid() && currentUtteranceId.Some? && utteranceCount >= MIN_UTTERANCE_SAMPLES
      modifies this, owned, if pendingPartial.Some? then {pendingPartial.value.samples} else {}
      ensures Valid() && currentUtteranceId.None? && preroll == [] && stream == old(stream) && owned == old(owned) && events == old(events)
      ensures segments == old(segments) + [old(current).(hi := |stream|)]
      ensures finals == old(finals) + [job] && job.id == old(currentUtteranceId.value)
      ensures fresh(job.samples) && given == old(given) + {job.samples}
      ensures Zeroed(old(utterance)) && DropsPartial(old(pendingPartial), old(currentUtteranceId))
    {
      HeldUtterance();
      hide *;
      var id := currentUtteranceId.value;
      ghost var segment := current.(hi := |stream|);
      assert stream[segment.lo..] == stream[segment.lo..segment.hi];
      var samples := CutUtterance();
      job := Job(id, samples);
      Deliver(job, segment);
    }

    /** Ends the utterance: long enough, it becomes the next final job; either way its buffers are zeroed. */
    method FinalizeUtterance()
      requires Valid() && currentUtteranceId.Some?
      modifies this, owned, if pendingPartial.Some? then {pendingPartial.value.samples} else {}
      ensures Valid() && currentUtteranceId.None? && preroll == [] && stream == old(stream) && owned == old(owned) && events == old(events)
      ensures fresh(given - old(given)) && Zeroed(old(utterance))
      ensures if old(utteranceCount) < MIN_UTTERANCE_SAMPLES then pendingPartial == old(pendingPartial)
              else DropsPartial(old(pendingPartial), old(currentUtteranceId))
      ensures if old(utteranceCount) < MIN_UTTERANCE_SAMPLES then finals == old(finals) && segments == old(segments)
              else segments == old(segments) + [old(current).(hi := |stream|)] && |finals| == |old(finals)| + 1
                   && finals[..|old(finals)|] == old(finals) && finals[|old(finals)|].id == old(currentUtteranceId.value)
    {
      hide Delivers, Flat, Holds;
      if utteranceCount < MIN_UTTERANCE_SAMPLES {
        ClearUtterance();
        return;
      }
      var _ := SendFinal();
    }

    /** A frame before any speech: kept in the preroll, which sheds and zeroes its oldest frames, no more than it has to. */
    method PushPreroll(frame: array<Sample>)
      requires Valid() && currentUtteranceId.None?
      modifies `preroll, `prerollCount, `stream, `owned, owned
      ensures Valid() && stream == old(stream) + old(frame[..])
      ensures fresh(owned - old(owned)) && old(owned) <= owned
      ensures prerollCount <= PREROLL_SAMPLES + frame.Length && prerollCount == Sum(Lengths(preroll))
      ensures Lengths(preroll) == Trimmed(old(Lengths(preroll)) + [frame.Length], PREROLL_SAMPLES + frame.Length)
      ensures Zeroed(old(preroll)[..FirstKept(old(Lengths(preroll)) + [frame.Length], 0, PREROLL_SAMPLES + frame.Length)])
    {
      hide *;
      var copy := Slice(frame);
      KeepFrame(copy);
      ghost var all := preroll;
      assert Lengths(all) == old(Lengths(preroll)) + [frame.Length];
      TrimPreroll(PREROLL_SAMPLES + frame.Length);
      ghost var first := FirstKept(Lengths(all), 0, PREROLL_SAMPLES + frame.Length);
      assert all[..first] == old(preroll)[..first];
      LengthsFrom(all, first);
      TrimmedSays(Lengths(all), PREROLL_SAMPLES + frame.Length);
      TrimmedIsBounded(old(Lengths(preroll)), frame.Length);
    }

    /** The loop that sheds. */
    method TrimPreroll(limit: nat)
      requires Valid() && currentUtteranceId.None? && preroll != []
      modifies `preroll, `prerollCount, owned
      ensures Valid() && prerollCount == Sum(Lengths(preroll))
      ensures preroll == old(preroll)[FirstKept(Lengths(old(preroll)), 0, limit)..]
      ensures Zeroed(old(preroll)[..FirstKept(Lengths(old(preroll)), 0, limit)])
    {
      hide *;
      ghost var all := preroll;
      ghost var n := 0;
      FramesAreDistinct();
      PrerollSum();
      assert Zeroed(all[..n]) by { NothingZeroed(); assert all[..0] == []; }
      while prerollCount > limit && |preroll| > 1
        invariant Valid() && prerollCount == Sum(Lengths(preroll))
        invariant n < |all| && preroll == all[n..] && Zeroed(all[..n])
        invariant FirstKept(Lengths(all), 0, limit) == FirstKept(Lengths(all), n, limit)
        decreases |preroll|
      {
        PrerollIsOwned();
        LengthsFrom(all, n);
        KeepsNext(Lengths(all), n, limit);
        ghost var shed := all[..n];
        NotAmongFormer(all, n);
        assert preroll[0] in preroll && preroll[0] == all[n];
        Shed();
        ZeroedSnoc(shed, all[n]);
        n := n + 1;
        assert all[..n] == shed + [all[n - 1]];
        PrerollSum();
      }
      LengthsFrom(all, n);
      KeepsThis(Lengths(all), n, limit);
    }

    lemma PrerollSum()
      requires Valid() && currentUtteranceId.None?
      ensures prerollCount == Sum(Lengths(preroll))
    {
      FlatLength(preroll);
    }

    lemma FramesAreDistinct()
      requires Valid() && currentUtteranceId.None?
      ensures Distinct(preroll)
    {
    }

    lemma PrerollIsOwned()
      requires Valid() && currentUtteranceId.None?
      ensures forall f :: f in preroll ==> f in owned
    {
    }

    method KeepFrame(copy: array<Sample>)
      requires Valid() && currentUtteranceId.None?
      requires copy !in owned && copy !in given && (pendingPartial.Some? ==> pendingPartial.value.samples != copy)
      modifies `preroll, `prerollCount, `stream, `owned
      ensures Valid() && stream == old(stream) + copy[..] && preroll == old(preroll) + [copy] && owned == old(owned) + {copy}
      ensures prerollCount == old(prerollCount) + copy.Length
    {
      hide Delivers, Flat;
      FlatSnoc(preroll, copy);
      preroll := preroll + [copy];
      prerollCount := prerollCount + copy.Length;
      stream := stream + copy[..];
      owned := owned + {copy};
      StillDelivers();
    }

    method Shed()
      requires Valid() && currentUtteranceId.None? && |preroll| > 1
      modifies `preroll, `prerollCount, {preroll[0]}
      ensures Valid() && preroll == old(preroll)[1..] && Zeroed([old(preroll)[0]])
      ensures prerollCount + old(preroll)[0].Length == old(prerollCount)
    {
      hide Delivers;
      FlatHead(preroll);
      var old_ := preroll[0];
      preroll := preroll[1..];
      prerollCount := prerollCount - old_.Length;
      ghost var kept := Flat(preroll);
      FillZero([old_], {old_});
      assert Flat(preroll) == kept;
    }

    /** Speech begins: the utterance takes the preroll over as it is. */
    method StartUtterance(id: string, ghost first: nat)
      requires Valid() && currentUtteranceId.None? && prerollCount <= PREROLL_SAMPLES + first
      modifies `preroll, `prerollCount, `utterance, `utteranceCount, `currentUtteranceId, `current
      ensures Valid() && currentUtteranceId == Some(id) && preroll == [] && utteranceCount == old(prerollCount) <= |stream|
      ensures current == Segment(|stream| - old(prerollCount), |stream|, first, |stream|)
    {
      hide Delivers, Flat;
      currentUtteranceId := Some(id);
      utterance, utteranceCount := preroll, prerollCount;
      current := Segment(|stream| - prerollCount, |stream|, first, |stream|);
      preroll, prerollCount := [], 0;
    }

    /** A frame during an utterance. */
    method PushUtterance(frame: array<Sample>)
      requires Valid() && currentUtteranceId.Some?
      modifies `utterance, `utteranceCount, `stream, `owned
      ensures Valid() && stream == old(stream) + frame[..]
      ensures fresh(owned - old(owned)) && old(owned) <= owned && utteranceCount == old(utteranceCount) + frame.Length
    {
      hide *;
      var copy := Slice(frame);
      ExtendUtterance(copy);
    }

    method ExtendUtterance(copy: array<Sample>)
      requires Valid() && currentUtteranceId.Some?
      requires copy !in given && (pendingPartial.Some? ==> pendingPartial.value.samples != copy)
      modifies `utterance, `utteranceCount, `stream, `owned
      ensures Valid() && stream == old(stream) + copy[..] && owned == old(owned) + {copy}
      ensures utteranceCount == old(utteranceCount) + copy.Length
    {
      HeldUtterance();
      hide Delivers, Flat;
      FlatSnoc(utterance, copy);
      utterance := utterance + [copy];
      utteranceCount := utteranceCount + copy.Length;
      stream := stream + copy[..];
      owned := owned + {copy};
      StillDelivers();
    }

    /** The account holds the same facts as the buffers. */
    lemma AccountFits()
      requires Valid()
      ensures Fits(Account())
    {
      FlatLength(preroll);
      assert Sum([]) == 0;
    }

    /** Takes a frame in; `hasSpeech` is what the voice detector says of it. */
    method TakeIn(frame: array<Sample>, hasSpeech: bool, freshId: string)
      requires Valid() && Fits(Account())
      modifies `preroll, `prerollCount, `utterance, `utteranceCount, `currentUtteranceId, `current, `stream, `owned, owned
      ensures Valid() && stream == old(stream) + old(frame[..])
      ensures fresh(owned - old(owned)) && old(owned) <= owned
      ensures currentUtteranceId == (if old(currentUtteranceId).None? && hasSpeech then Some(freshId) else old(currentUtteranceId))
      ensures Account() == TakenIn(old(Account()), frame.Length, hasSpeech)
    {
      hide Delivers, Flat, Holds, Apart, Idle, Speaking, Sum, FirstKept, Trimmed, Fits;
      if currentUtteranceId.None? {
        PushPreroll(frame);
        if hasSpeech {
          StartUtterance(freshId, frame.Length);
        }
      } else {
        PushUtterance(frame);
      }
    }

    /** After a frame of an utterance: the utterance ends, or a partial is due, or nothing is. */
    method Settle(shouldFinalize: bool)
      requires Valid() && currentUtteranceId.Some? && Fits(Account())
      modifies this, owned, if pendingPartial.Some? then {pendingPartial.value.samples} else {}
      ensures Valid() && stream == old(stream) && events == old(events)
      ensures Account() == if Due(old(Account()), shouldFinalize) then Ended(old(Account())) else old(Account())
      ensures currentUtteranceId == if Due(old(Account()), shouldFinalize) then None else old(currentUtteranceId)
      ensures old(finals) <= finals
      ensures currentUtteranceId.Some? ==> |stream| - current.lo - lastPartialSamples < PARTIAL_SAMPLES
      ensures currentUtteranceId.Some? && lastPartialSamples != old(lastPartialSamples) ==>
                && lastPartialSamples == |stream| - current.lo && lastPartialSamples - old(lastPartialSamples) >= PARTIAL_SAMPLES
                && pendingPartial.Some? && Some(pendingPartial.value.id) == currentUtteranceId
                && pendingPartial.value.samples[..] == stream[current.lo..]
    {
      HeldUtterance();
      hide Delivers, Flat, Holds, Apart, Idle, Speaking, Sum, Fits;
      if shouldFinalize || utteranceCount >= MAX_UTTERANCE_SAMPLES {
        FinalizeUtterance();
        assert Lengths(preroll) == [] == Lengths(old(preroll));
      } else if utteranceCount - lastPartialSamples >= PARTIAL_SAMPLES {
        lastPartialSamples := utteranceCount;
        QueuePartial();
      }
    }

    /**
     One frame from the microphone. `hasSpeech` and `shouldFinalize` are what the voice detector says;
     a frame is accepted while recording or stopping. The jobs handed on and the audio held are again exactly
     what the events say, and no utterance is over its limit and no partial overdue.
     */
    method AddFrame(frame: array<Sample>, accepting: bool, hasSpeech: bool, shouldFinalize: bool, freshId: string)
      requires Valid() && Accounted()
      modifies this, owned, if pendingPartial.Some? then {pendingPartial.value.samples} else {}
      ensures Valid() && Accounted()
      ensures events == old(events) + if accepting then [Heard(frame.Length, hasSpeech, shouldFinalize)] else []
      ensures stream == old(stream) + if accepting then old(frame[..]) else []
      ensures old(finals) <= finals
      ensures currentUtteranceId.Some? && old(currentUtteranceId).Some? ==> currentUtteranceId == old(currentUtteranceId)
      ensures accepting && currentUtteranceId.Some? ==>
                && |stream| - current.lo < MAX_UTTERANCE_SAMPLES && |stream| - current.lo - lastPartialSamples < PARTIAL_SAMPLES
                && currentUtteranceId == (if old(currentUtteranceId).None? then Some(freshId) else old(currentUtteranceId))
    {
      hide Valid, Account, AccountOf, Accepted, Due, Ended, TakenIn, Fits;
      if accepting {
        AccountFits();
        AcceptFrame(frame, hasSpeech, shouldFinalize, freshId);
        ghost var event := Heard(frame.Length, hasSpeech, shouldFinalize);
        AddEvent(old(Account()), event);
      }
    }

    method AcceptFrame(frame: array<Sample>, hasSpeech: bool, shouldFinalize: bool, freshId: string)
      requires Valid() && Fits(Account())
      modifies this, owned, if pendingPartial.Some? then {pendingPartial.value.samples} else {}
      ensures Valid() && stream == old(stream) + old(frame[..]) && old(finals) <= finals && events == old(events)
      ensures Account() == Accepted(old(Account()), Heard(frame.Length, hasSpeech, shouldFinalize))
      ensures currentUtteranceId.Some? ==>
                && |stream| - current.lo < MAX_UTTERANCE_SAMPLES && |stream| - current.lo - lastPartialSamples < PARTIAL_SAMPLES
                && currentUtteranceId == (if old(currentUtteranceId).None? then Some(freshId) else old(currentUtteranceId))
    {
      hide Valid, Delivers, Flat, Holds, Apart, Idle, Speaking, Sum, Fits, TakenIn, Ended;
      TakeIn(frame, hasSpeech, freshId);
      if currentUtteranceId.Some? {
        Settle(shouldFinalize);
      }
    }

    /** Notes what has happened; the account has just taken it in. */
    ghost method AddEvent(before: Account, e: Event)
      requires before == AccountOf(events) && Account() == Accepted(before, e)
      modifies `events
      ensures Accounted() && events == old(events) + [e]
    {
      hide AccountOf, Accepted, Account, Fits;
      AccountSnoc(events, e);
      events := events + [e];
    }

    /** The microphone has been closed: what was being said is finalised and the preroll is zeroed. */
    method CloseMicrophone()
      requires Valid() && Accounted()
      modifies this, owned, if pendingPartial.Some? then {pendingPartial.value.samples} else {}
      ensures Valid() && Accounted() && events == old(events) + [Closed]
      ensures currentUtteranceId.None? && preroll == [] && stream == old(stream)
      ensures if old(currentUtteranceId).Some? then Zeroed(old(utterance)) else Zeroed(old(preroll))
      ensures old(finals) <= finals
    {
      hide Valid, Account, AccountOf, Accepted, Ended, Fits, Zeroed;
      AccountFits();
      EndUtterance();
      PrerollIsOwned();
      ClearPreroll();
      ClosedAccepts(old(Account()));
      AddEvent(old(Account()), Closed);
    }

    /** What is being said, if anything, is finalised. */
    method EndUtterance()
      requires Valid() && Fits(Account())
      modifies this, owned, if pendingPartial.Some? then {pendingPartial.value.samples} else {}
      ensures Valid() && currentUtteranceId.None? && stream == old(stream) && events == old(events) && old(finals) <= finals
      ensures owned == old(owned)
      ensures Account() == Ended(old(Account())) && (old(currentUtteranceId).None? ==> preroll == old(preroll))
      ensures if old(currentUtteranceId).Some? then Zeroed(old(utterance)) && preroll == [] else preroll == old(preroll)
    {
      HeldIfSpeaking();
      hide Delivers, Flat, Holds, Apart, Idle, Speaking, Sum, Fits, Zeroed;
      if currentUtteranceId.Some? {
        FinalizeUtterance();
        assert Lengths(preroll) == [];
      }
    }

    lemma HeldIfSpeaking()
      requires Valid()
      ensures currentUtteranceId.Some? ==> current.lo + utteranceCount == |stream|
    {
    }

    /** The number of samples in the first n final jobs. */
    ghost function Handed(n: nat): nat
      requires n <= |finals|
      reads `finals
    {
      if n == 0 then 0 else Handed(n - 1) + finals[n - 1].samples.Length
    }

    /** No sample reaches two final jobs: the first n together are no longer than the stream up to the end of the nth. */
    lemma {:induction false} NothingHandedTwice(n: nat)
      requires Delivers() && n <= |finals|
      ensures Handed(n) <= (if n == 0 then 0 else segments[n - 1].hi) <= |stream|
    {
      if n > 0 {
        NothingHandedTwice(n - 1);
        assert finals[n - 1].samples.Length == |finals[n - 1].samples[..]| == segments[n - 1].hi - segments[n - 1].lo;
        assert n > 1 ==> segments[n - 2].hi <= segments[n - 1].lo;
      }
    }
  }
}
