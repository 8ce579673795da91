/** A scan that publishes a result has sampled every channel once, in order, each after the dwell time,
    and reports the first of the strongest; any other scan gives the channel back. */
module VrxLaws {
  import opened Vrx

  lemma PollKeeps(c: Config, v: Receiver, now: nat, r: Reply)
    requires Inv(c, v)
    ensures Inv(c, PollTune(c, v, now, r))
  {
    hide Strongest, Dwelt;
  }

  /** One sample more keeps the best the first of the strongest. */
  lemma SampleKeeps(c: Config, v: Receiver, now: nat, r: Reply)
    requires Inv(c, v) && SampleDue(v, now)
    ensures var s := SampleCandidate(c, v, now, r);
      && Placed(s) && Dwelt(c, s.samples) && Strongest(s.samples, s.bestIndex, s.bestRssi)
      && |s.samples| == |v.samples| + 1 && s.scanIndex == v.scanIndex
  {
  }

  lemma CandidateKeeps(c: Config, v: Receiver, now: nat, r: Reply)
    requires Placed(v) && Dwelt(c, v.samples) && Strongest(v.samples, v.bestIndex, v.bestRssi) && !v.resultPending
    requires Sampling(v) && v.scanIndex == |v.samples| <= CANDIDATES
    ensures Inv(c, TuneCandidate(c, v, now, r))
  {
    if v.scanIndex == CANDIDATES {
      FinishKeeps(c, v, now, r);
    }
    hide Strongest, Dwelt;
  }

  lemma FinishKeeps(c: Config, v: Receiver, now: nat, r: Reply)
    requires Placed(v) && Dwelt(c, v.samples) && Strongest(v.samples, v.bestIndex, v.bestRssi) && !v.resultPending
    requires Sampling(v) && |v.samples| == CANDIDATES
    ensures Inv(c, FinishScan(c, v, now, r))
  {
    assert v.bestRssi != NO_RSSI ==> v.bestIndex < CANDIDATES;
    hide Strongest, Dwelt;
  }

  lemma AdvanceKeeps(c: Config, v: Receiver, now: nat, r: Reply)
    requires Inv(c, v) && SampleDue(v, now)
    ensures Inv(c, Advance(c, v, now, r))
  {
    hide Strongest, Dwelt, SampleCandidate, TuneCandidate;
    SampleKeeps(c, v, now, r);
    SampleAdds(c, v, now, r);
    var s := SampleCandidate(c, v, now, r);
    var next := s.(scanIndex := s.scanIndex + 1);
    assert Sampling(next) && !next.resultPending;
    CandidateKeeps(c, next, now, r);
    hide Inv;
    assert Advance(c, v, now, r) == TuneCandidate(c, next, now, r);
  }

  /** What sampling leaves alone. */
  lemma SampleAdds(c: Config, v: Receiver, now: nat, r: Reply)
    ensures var s := SampleCandidate(c, v, now, r);
      && |s.samples| == |v.samples| + 1 && s.scanIndex == v.scanIndex
      && s.originBand == v.originBand && s.originChannel == v.originChannel
      && s.scanning == v.scanning && s.finishing == v.finishing && s.restoring == v.restoring
      && s.tuning == v.tuning && s.resultPending == v.resultPending
  {
    hide Strongest, Dwelt, Inv, ValidReading;
  }

  lemma WatchKeeps(c: Config, v: Receiver, now: nat)
    requires Inv(c, v)
    ensures Inv(c, Watch(c, v, now))
  {
    hide Strongest, Dwelt;
  }

  lemma TickKeeps(c: Config, v: Receiver, now: nat, r: Reply)
    requires Inv(c, v)
    ensures Inv(c, Tick(c, v, now, r))
  {
    hide Inv, PollTune, Advance, Watch, SampleDue;
    PollKeeps(c, v, now, r);
    var p := PollTune(c, v, now, r);
    if SampleDue(p, now) {
      AdvanceKeeps(c, p, now, r);
    } else {
      WatchKeeps(c, p, now);
    }
  }

  lemma StepKeepsInv(c: Config, v: Receiver, e: Event)
    requires Inv(c, v)
    ensures Inv(c, Step(c, v, e))
  {
    match e
    case TickEvent(now, r) =>
      TickKeeps(c, v, now, r);
      hide Inv, Tick;
    case BeginEvent(now, r) =>
      if !v.scanning {
        var begun := v.(originBand := v.band, originChannel := v.channel, scanIndex := 0, bestIndex := 0,
                        bestRssi := NO_RSSI, scanning := true, finishing := false, restoring := false,
                        resultPending := false, samples := []);
        CandidateKeeps(c, begun, now, r);
      }
      hide Inv, TuneCandidate;
    case _ => hide Strongest, Dwelt;
  }

  function Run(c: Config, v: Receiver, es: seq<Event>): Receiver
    decreases |es|
  {
    if es == [] then v else Run(c, Step(c, v, es[0]), es[1..])
  }

  lemma {:induction false} RunKeepsInv(c: Config, v: Receiver, es: seq<Event>)
    requires Inv(c, v)
    ensures Inv(c, Run(c, v, es))
    decreases |es|
  {
    hide Inv, Step;
    if es != [] {
      StepKeepsInv(c, v, es[0]);
      RunKeepsInv(c, Step(c, v, es[0]), es[1..]);
    }
  }

  /** Sample `best` is valid, none is stronger, and none before it is as strong. */
  predicate FirstOfStrongest(samples: seq<Sample>, best: nat) {
    && best < |samples| && samples[best].valid
    && (forall i :: 0 <= i < |samples| && samples[i].valid ==> samples[i].raw <= samples[best].raw)
    && (forall i :: 0 <= i < best && samples[i].valid ==> samples[i].raw < samples[best].raw)
  }

  /** Optimality: whenever a result is there to be taken, all 48 candidates were sampled once each in
      order, each at least the dwell time after its tune completed, and the channel reported is the first
      one with the strongest valid reading. */
  lemma ResultIsOptimal(c: Config, es: seq<Event>)
    requires Run(c, NEW, es).resultPending
    ensures var v := Run(c, NEW, es);
      |v.samples| == 48 && Dwelt(c, v.samples) && FirstOfStrongest(v.samples, 8 * v.band + v.channel)
  {
    RunKeepsInv(c, NEW, es);
    var v := Run(c, NEW, es);
    hide Run;
    assert CHANNELS_PER_BAND * v.band + v.channel == v.bestIndex;
  }

  /** What tuning leaves alone. */
  lemma TuneLeaves(c: Config, v: Receiver, now: nat, r: Reply)
    ensures var w := TuneCandidate(c, v, now, r);
      w.samples == v.samples && w.originBand == v.originBand && w.originChannel == v.originChannel
      && (w.resultPending <==> v.resultPending)
  {
    Leaves(c, v, v.scanIndex / CHANNELS_PER_BAND, v.scanIndex % CHANNELS_PER_BAND, now, r);
    Leaves(c, v.(finishing := true), v.bestIndex / CHANNELS_PER_BAND, v.bestIndex % CHANNELS_PER_BAND, now, r);
    Leaves(c, v.(restoring := true), v.originBand, v.originChannel, now, r);
    hide RequestTune;
  }

  lemma Leaves(c: Config, v: Receiver, band: nat, channel: nat, now: nat, r: Reply)
    ensures var w := RequestTune(c, v, band, channel, now, r);
      w.samples == v.samples && w.originBand == v.originBand && w.originChannel == v.originChannel
      && (w.resultPending <==> v.resultPending)
  {
  }

  lemma PollLeaves(c: Config, v: Receiver, now: nat, r: Reply)
    ensures var w := PollTune(c, v, now, r);
      w.samples == v.samples && w.originBand == v.originBand && w.originChannel == v.originChannel
  {
  }

  lemma AdvanceAdds(c: Config, v: Receiver, now: nat, r: Reply)
    ensures var w := Advance(c, v, now, r);
      && |w.samples| == |v.samples| + 1 && w.samples == SampleCandidate(c, v, now, r).samples
      && w.originBand == v.originBand && w.originChannel == v.originChannel
  {
    hide TuneCandidate, SampleCandidate;
    SampleAdds(c, v, now, r);
    var s := SampleCandidate(c, v, now, r);
    TuneLeaves(c, s.(scanIndex := s.scanIndex + 1), now, r);
    assert Advance(c, v, now, r) == TuneCandidate(c, s.(scanIndex := s.scanIndex + 1), now, r);
  }

  /** Sample `i` is taken while candidate `i` is tuned, and holds what the converter read: it is valid exactly if the
      receiver is calibrated and the reading is one of twelve bits. */
  lemma SampledInOrder(c: Config, v: Receiver, now: nat, r: Reply)
    requires Inv(c, v) && |Tick(c, v, now, r).samples| > |v.samples|
    ensures var p := PollTune(c, v, now, r);
      && |Tick(c, v, now, r).samples| == |v.samples| + 1
      && Requested(p, |v.samples|) && !p.tuning && now >= p.tunedAt + c.dwellUs
      && var sample := Tick(c, v, now, r).samples[|v.samples|];
      && sample.tunedAt == p.tunedAt && sample.at == now
      && (sample.valid <==> c.calibrated && r.adc.Reading? && 0 <= r.adc.raw <= 4095)
      && (sample.valid ==> sample.raw == r.adc.raw)
  {
    PollKeeps(c, v, now, r);
    PollLeaves(c, v, now, r);
    AdvanceAdds(c, PollTune(c, v, now, r), now, r);
    hide Strongest, Dwelt, Advance, PollTune;
  }

  // ---------------------------------------------------------------- giving the channel back

  /** Until the scan ends, the channel it will give back is the one selected when it began. */
  lemma OriginKept(c: Config, v: Receiver, e: Event)
    requires v.scanning && Step(c, v, e).scanning
    ensures Step(c, v, e).originBand == v.originBand && Step(c, v, e).originChannel == v.originChannel
  {
    match e
    case TickEvent(now, r) =>
      PollLeaves(c, v, now, r);
      AdvanceAdds(c, PollTune(c, v, now, r), now, r);
      hide Advance, PollTune;
    case SelectEvent(band, channel, now, r) =>
      Leaves(c, v.(scanning := false, finishing := false, restoring := false, resultPending := false),
             band, channel, now, r);
      hide RequestTune;
    case CancelEvent(now, r) =>
      Leaves(c, v.(scanning := false, finishing := false, restoring := true), v.originBand, v.originChannel, now, r);
      hide RequestTune;
    case _ =>
  }

  lemma OriginSet(c: Config, v: Receiver, now: nat, r: Reply)
    requires !v.scanning
    ensures BeginScan(c, v, now, r).originBand == v.band && BeginScan(c, v, now, r).originChannel == v.channel
  {
  }

  /** Along a run of ticks that keeps scanning. */
  predicate KeepsScanning(c: Config, v: Receiver, es: seq<Event>)
    decreases |es|
  {
    es != [] ==> Step(c, v, es[0]).scanning && KeepsScanning(c, Step(c, v, es[0]), es[1..])
  }

  lemma {:induction false} OriginOverRun(c: Config, v: Receiver, es: seq<Event>)
    requires v.scanning && KeepsScanning(c, v, es)
    ensures Run(c, v, es).scanning
    ensures Run(c, v, es).originBand == v.originBand && Run(c, v, es).originChannel == v.originChannel
    decreases |es|
  {
    hide Step;
    if es != [] {
      OriginKept(c, v, es[0]);
      OriginOverRun(c, Step(c, v, es[0]), es[1..]);
    }
  }

  /** A scan begun, run for any while and cancelled asks for the channel selected when it began. */
  lemma CancelRestores(c: Config, v: Receiver, begin: nat, r0: Reply, es: seq<Event>, now: nat, r: Reply)
    requires Inv(c, v) && !v.scanning && BeginScan(c, v, begin, r0).scanning
    requires KeepsScanning(c, BeginScan(c, v, begin, r0), es)
    ensures var w := CancelScan(c, Run(c, BeginScan(c, v, begin, r0), es), now, r);
      && !w.scanning && w.band == v.band && w.channel == v.channel
      && (r.accept ==> w.tuning && w.requestedBand == v.band && w.requestedChannel == v.channel)
  {
    OriginSet(c, v, begin, r0);
    OriginOverRun(c, BeginScan(c, v, begin, r0), es);
    hide Run, BeginScan, Strongest, Dwelt;
  }

  /** A scan without a valid sample asks for that channel too, instead of publishing. */
  lemma NoValidRestores(c: Config, v: Receiver, now: nat, r: Reply)
    requires Inv(c, v) && Sampling(v) && r.accept
    requires |Tick(c, v, now, r).samples| == CANDIDATES
    requires forall i :: 0 <= i < CANDIDATES ==> !Tick(c, v, now, r).samples[i].valid
    ensures var w := Tick(c, v, now, r);
      w.restoring && w.tuning && w.requestedBand == v.originBand && w.requestedChannel == v.originChannel
      && !w.resultPending
  {
    PollKeeps(c, v, now, r);
    PollLeaves(c, v, now, r);
    var p := PollTune(c, v, now, r);
    AdvanceAdds(c, p, now, r);
    assert SampleDue(p, now) by {
      hide Advance, PollTune, Strongest;
    }
    SampleKeeps(c, p, now, r);
    LastRestores(c, p, now, r);
    hide Advance, PollTune, Inv;
  }

  lemma LastRestores(c: Config, v: Receiver, now: nat, r: Reply)
    requires Inv(c, v) && SampleDue(v, now) && r.accept
    requires |v.samples| + 1 == CANDIDATES
    requires forall i :: 0 <= i < CANDIDATES ==> !SampleCandidate(c, v, now, r).samples[i].valid
    ensures var w := Advance(c, v, now, r);
      w.restoring && w.tuning && w.requestedBand == v.originBand && w.requestedChannel == v.originChannel
      && !w.resultPending
  {
    SampleKeeps(c, v, now, r);
    var s := SampleCandidate(c, v, now, r);
    assert s.originBand == v.originBand && s.originChannel == v.originChannel && !s.resultPending;
    assert s.bestRssi == NO_RSSI;
    hide SampleCandidate, Inv;
  }

  // ---------------------------------------------------------------- a scan over a working receiver

  /** The receiver takes every channel it is asked for and settles on it in time. */
  predicate Working(v: Receiver, now: nat, r: Reply) {
    r.accept && (v.tuning ==> r.tune.Complete? || (r.tune.Pending? && now < v.tuneDeadline))
  }

  /** The receiver has not settled yet, or the candidate's dwell time is not over. */
  predicate Waits(v: Receiver, now: nat, r: Reply) {
    if v.tuning then r.tune.Pending? else now < v.nextScanStep
  }

  function Ticks(c: Config, v: Receiver, ticks: seq<(nat, Reply)>): Receiver
    decreases |ticks|
  {
    if ticks == [] then v else Ticks(c, Tick(c, v, ticks[0].0, ticks[0].1), ticks[1..])
  }

  predicate AllWorking(c: Config, v: Receiver, ticks: seq<(nat, Reply)>)
    decreases |ticks|
  {
    ticks != [] ==>
      Working(v, ticks[0].0, ticks[0].1) && AllWorking(c, Tick(c, v, ticks[0].0, ticks[0].1), ticks[1..])
  }

  /** The ticks of the scan that had nothing to wait for. */
  function Moves(c: Config, v: Receiver, ticks: seq<(nat, Reply)>): nat
    decreases |ticks|
  {
    if ticks == [] then 0
    else
      (if v.scanning && !Waits(v, ticks[0].0, ticks[0].1) then 1 else 0)
      + Moves(c, Tick(c, v, ticks[0].0, ticks[0].1), ticks[1..])
  }

  /** The moves a scan has left at most: two for each channel, and one to go to the result. */
  function Left(v: Receiver): nat {
    if !v.scanning then 0
    else if v.finishing || v.restoring || v.scanIndex >= CANDIDATES then 1
    else 2 * (CANDIDATES - v.scanIndex) + (if v.tuning then 1 else 0)
  }

  /** The scan is over, its channels all sampled: the best one is reported, or the one it came from is back. */
  predicate Over(v: Receiver, band: nat, channel: nat) {
    && !v.scanning && !v.tuning && v.available && |v.samples| == 48
    && (if v.bestRssi != NO_RSSI then v.resultPending && v.band == v.bestIndex / 8 && v.channel == v.bestIndex % 8
        else !v.resultPending && v.band == band && v.channel == channel)
  }

  predicate From(v: Receiver, band: nat, channel: nat) {
    v.originBand == band && v.originChannel == channel && !v.resultPending
    && (v.scanning && v.restoring ==> v.requestedBand == band && v.requestedChannel == channel)
  }

  lemma TuneGoes(c: Config, v: Receiver, now: nat, r: Reply, band: nat, channel: nat)
    requires Placed(v) && From(v, band, channel) && Sampling(v) && v.scanIndex == |v.samples| <= CANDIDATES && r.accept
    requires Strongest(v.samples, v.bestIndex, v.bestRssi)
    ensures var w := TuneCandidate(c, v, now, r);
      && w.scanning && w.tuning && From(w, band, channel)
      && Left(w) == if v.scanIndex == CANDIDATES then 1 else 2 * (CANDIDATES - v.scanIndex) + 1
  {
  }

  lemma AdvanceGoes(c: Config, v: Receiver, now: nat, r: Reply, band: nat, channel: nat)
    requires Inv(c, v) && SampleDue(v, now) && From(v, band, channel) && r.accept
    ensures var w := Advance(c, v, now, r);
      w.scanning && From(w, band, channel) && Left(w) < 2 * (CANDIDATES - v.scanIndex)
  {
    hide SampleCandidate, TuneCandidate;
    SampleKeeps(c, v, now, r);
    SampleAdds(c, v, now, r);
    var s := SampleCandidate(c, v, now, r);
    TuneGoes(c, s.(scanIndex := s.scanIndex + 1), now, r, band, channel);
    hide Inv, Strongest, Dwelt;
  }

  lemma PollGoes(c: Config, v: Receiver, now: nat, r: Reply, band: nat, channel: nat)
    requires Inv(c, v) && v.scanning && From(v, band, channel) && Working(v, now, r)
    ensures var p := PollTune(c, v, now, r);
      && (if p.scanning then From(p, band, channel) else Over(p, band, channel))
      && (v.tuning && r.tune.Complete? && p.scanning ==>
            !p.tuning && Left(p) == Left(v) - 1 && p.scanIndex == v.scanIndex)
      && (v.tuning && r.tune.Complete? && !p.scanning ==> Left(v) == 1)
      && (!(v.tuning && r.tune.Complete?) ==> p == v)
  {
    hide Strongest, Dwelt;
  }

  lemma TickGoes(c: Config, v: Receiver, now: nat, r: Reply, band: nat, channel: nat)
    requires Inv(c, v) && v.scanning && From(v, band, channel) && Working(v, now, r)
    ensures var w := Tick(c, v, now, r);
      && (if w.scanning then From(w, band, channel) else Over(w, band, channel))
      && (if Waits(v, now, r) then Left(w) <= Left(v) else Left(w) < Left(v))
  {
    PollKeeps(c, v, now, r);
    PollGoes(c, v, now, r, band, channel);
    var p := PollTune(c, v, now, r);
    if SampleDue(p, now) {
      AdvanceGoes(c, p, now, r, band, channel);
      SampleLeft(c, p, now);
    }
    NotDue(c, v);
    hide Inv, Advance, PollTune, Strongest, Dwelt;
  }

  lemma SampleLeft(c: Config, v: Receiver, now: nat)
    requires Inv(c, v) && SampleDue(v, now)
    ensures Left(v) == 2 * (CANDIDATES - v.scanIndex)
  {
    hide Strongest, Dwelt;
  }

  /** A scan that is not tuning is sampling. */
  lemma NotDue(c: Config, v: Receiver)
    requires Inv(c, v)
    ensures v.scanning && !v.tuning ==> Sampling(v)
  {
    hide Strongest, Dwelt;
  }

  lemma {:induction false} StaysOver(c: Config, v: Receiver, ticks: seq<(nat, Reply)>, band: nat, channel: nat)
    requires Over(v, band, channel)
    ensures Over(Ticks(c, v, ticks), band, channel)
    decreases |ticks|
  {
    if ticks != [] {
      StaysOver(c, Tick(c, v, ticks[0].0, ticks[0].1), ticks[1..], band, channel);
    }
  }

  lemma {:induction false} ScanGoes(c: Config, v: Receiver, ticks: seq<(nat, Reply)>, band: nat, channel: nat)
    requires Inv(c, v) && v.scanning && From(v, band, channel) && AllWorking(c, v, ticks)
    requires Moves(c, v, ticks) >= Left(v)
    ensures Over(Ticks(c, v, ticks), band, channel) && Inv(c, Ticks(c, v, ticks))
    decreases |ticks|
  {
    hide Inv, Tick, Working, Waits, Over, From;
    LeftPositive(v);
    var (now, r) := ticks[0];
    TickGoes(c, v, now, r, band, channel);
    TickKeeps(c, v, now, r);
    var w := Tick(c, v, now, r);
    if w.scanning {
      ScanGoes(c, w, ticks[1..], band, channel);
    } else {
      StaysOver(c, w, ticks[1..], band, channel);
      TicksKeep(c, w, ticks[1..]);
    }
  }

  lemma {:induction false} TicksKeep(c: Config, v: Receiver, ticks: seq<(nat, Reply)>)
    requires Inv(c, v)
    ensures Inv(c, Ticks(c, v, ticks))
    decreases |ticks|
  {
    hide Inv, Tick;
    if ticks != [] {
      TickKeeps(c, v, ticks[0].0, ticks[0].1);
      TicksKeep(c, Tick(c, v, ticks[0].0, ticks[0].1), ticks[1..]);
    }
  }

  lemma LeftPositive(v: Receiver)
    requires v.scanning
    ensures Left(v) > 0
  {
  }

  /** A scan over a working receiver ends within 97 moves, with all channels sampled: if any sample was valid the
      receiver is on the first of the strongest and reports it, and else it is back on the channel it came from. */
  lemma ScanCompletes(c: Config, v: Receiver, begin: nat, r0: Reply, ticks: seq<(nat, Reply)>)
    requires Inv(c, v) && !v.scanning && r0.accept && AllWorking(c, BeginScan(c, v, begin, r0), ticks)
    requires Moves(c, BeginScan(c, v, begin, r0), ticks) >= 97
    ensures var w := Ticks(c, BeginScan(c, v, begin, r0), ticks);
      && !w.scanning && !w.tuning && w.available && |w.samples| == 48
      && (w.resultPending <==> exists i :: 0 <= i < 48 && w.samples[i].valid)
      && (if w.resultPending then FirstOfStrongest(w.samples, 8 * w.band + w.channel)
          else w.band == v.band && w.channel == v.channel)
  {
    StepKeepsInv(c, v, BeginEvent(begin, r0));
    BeginGoes(c, v, begin, r0);
    hide BeginScan, Step, Inv, Over;
    ScanGoes(c, BeginScan(c, v, begin, r0), ticks, v.band, v.channel);
    OverMeans(c, Ticks(c, BeginScan(c, v, begin, r0), ticks), v.band, v.channel);
  }

  lemma BeginGoes(c: Config, v: Receiver, begin: nat, r0: Reply)
    requires Inv(c, v) && !v.scanning && r0.accept
    ensures var w := BeginScan(c, v, begin, r0);
      w == Step(c, v, BeginEvent(begin, r0)) && w.scanning && From(w, v.band, v.channel) && Left(w) == 97
  {
    hide Strongest, Dwelt;
  }

  lemma OverMeans(c: Config, w: Receiver, band: nat, channel: nat)
    requires Inv(c, w) && Over(w, band, channel)
    ensures w.resultPending <==> exists i :: 0 <= i < 48 && w.samples[i].valid
    ensures if w.resultPending then FirstOfStrongest(w.samples, 8 * w.band + w.channel)
            else w.band == band && w.channel == channel
  {
    if w.bestRssi != NO_RSSI {
      assert 8 * w.band + w.channel == w.bestIndex;
      assert w.samples[w.bestIndex].valid;
    }
  }

  /** Selecting a channel ends any scan, and the receiver is on that channel exactly if there is one like it, the
      request is accepted and the tuner settles; a tuner that fails, or has not settled when the time is over, leaves
      the receiver unavailable with the reason. */
  lemma SelectTunes(c: Config, v: Receiver, band: nat, channel: nat, now: nat, r: Reply, then': nat, r': Reply)
    requires Inv(c, v)
    ensures var s := Select(c, v, band, channel, now, r);
      var w := Tick(c, s, then', r');
      && !s.scanning && !w.scanning && !w.resultPending
      && (if band >= 6 || channel >= 8 then s.failure.InvalidFrequency? && !s.tuning && !s.available
          else if !r.accept then s.failure.TuneRejected? && !s.tuning && !s.available
          else
            && s.tuning && !s.available
            && (r'.tune.Complete? ==> w.available && !w.tuning && w.band == band && w.channel == channel)
            && (r'.tune.Failed? ==> w.failure.Communication? && !w.available && !w.tuning)
            && (r'.tune.Pending? && then' >= now + c.timeoutUs ==>
                  w.failure.TuneTimeout? && !w.available && !w.tuning)
            && (r'.tune.Pending? && then' < now + c.timeoutUs ==> w == s))
  {
    hide Strongest, Dwelt, Advance;
  }
}
