/** The receiver's controller as the object it is. */
module VrxObject {
  import opened Vrx
  import opened VrxLaws

  /** `status_`. */
  datatype Status = Status(band: nat, channel: nat, failure: Failure, available: bool, scanning: bool, tuning: bool)

  class VrxController {
    const config: Config
    var reply: Reply
    var status: Status
    var scanIndex: nat
    var bestIndex: nat
    var bestRssi: int
    var originBand: nat
    var originChannel: nat
    var requestedBand: nat
    var requestedChannel: nat
    var nextScanStep: nat
    var tuneDeadline: nat
    var nextSample: nat
    var finishing: bool
    var restoring: bool
    var resultPending: bool
    ghost var tunedAt: nat
    ghost var samples: seq<Sample>

    ghost function View(): Receiver
      reads this
    {
      Receiver(status.band, status.channel, status.failure, status.available, status.scanning, status.tuning,
               scanIndex, bestIndex, bestRssi, originBand, originChannel, requestedBand, requestedChannel,
               nextScanStep, tuneDeadline, nextSample, finishing, restoring, resultPending, tunedAt, samples)
    }

    ghost predicate Valid()
      reads this
    {
      Inv(config, View())
    }

    constructor (c: Config, first: Reply)
      ensures Valid() && View() == NEW && config == c && reply == first
    {
      config := c;
      reply := first;
      status := Status(0, 0, NoFailure, false, false, false);
      scanIndex, bestIndex, bestRssi, originBand, originChannel := 0, 0, NO_RSSI, 0, 0;
      requestedBand, requestedChannel, nextScanStep, tuneDeadline, nextSample := 0, 0, 0, 0, 0;
      finishing, restoring, resultPending := false, false, false;
      tunedAt, samples := 0, [];
    }

    method Fail(failure: Failure)
      modifies this`status, this`finishing, this`restoring
      ensures View() == FailTune(old(View()), failure)
    {
      status := status.(tuning := false, available := false, scanning := false, failure := failure);
      finishing, restoring := false, false;
    }

    method Request(band: nat, channel: nat, now: nat)
      modifies this`status, this`finishing, this`restoring, this`requestedBand, this`requestedChannel, this`tuneDeadline
      ensures View() == RequestTune(config, old(View()), band, channel, now, reply)
    {
      if band >= BANDS || channel >= CHANNELS_PER_BAND {
        Fail(InvalidFrequency);
        return;
      }
      status := status.(band := band, channel := channel);
      if !reply.accept {
        Fail(TuneRejected);
        return;
      }
      requestedBand, requestedChannel := band, channel;
      status := status.(tuning := true, available := false, failure := NoFailure);
      tuneDeadline := now + config.timeoutUs;
    }

    method Finish(now: nat)
      modifies this`status, this`finishing, this`restoring, this`requestedBand, this`requestedChannel, this`tuneDeadline
      ensures View() == FinishScan(config, old(View()), now, reply)
    {
      hide RequestTune;
      if bestRssi != NO_RSSI {
        finishing := true;
        Request(bestIndex / CHANNELS_PER_BAND, bestIndex % CHANNELS_PER_BAND, now);
      } else {
        restoring := true;
        Request(originBand, originChannel, now);
      }
    }

    method TuneNext(now: nat)
      modifies this`status, this`finishing, this`restoring, this`requestedBand, this`requestedChannel, this`tuneDeadline
      ensures View() == TuneCandidate(config, old(View()), now, reply)
    {
      hide RequestTune, FinishScan;
      if scanIndex >= CANDIDATES {
        Finish(now);
      } else {
        Request(scanIndex / CHANNELS_PER_BAND, scanIndex % CHANNELS_PER_BAND, now);
      }
    }

    method SelectChannel(band: nat, channel: nat, now: nat)
      requires Valid()
      modifies this`status, this`finishing, this`restoring, this`requestedBand, this`requestedChannel
      modifies this`tuneDeadline, this`resultPending
      ensures View() == Select(config, old(View()), band, channel, now, reply) && Valid()
    {
      StepKeepsInv(config, View(), SelectEvent(band, channel, now, reply));
      hide Inv, RequestTune;
      status := status.(scanning := false);
      finishing, restoring, resultPending := false, false, false;
      Request(band, channel, now);
    }

    method Begin(now: nat) returns (begun: bool)
      requires Valid()
      modifies this
      ensures View() == BeginScan(config, old(View()), now, reply) && Valid() && reply == old(reply)
      ensures begun == (!old(status.scanning) && status.tuning)
    {
      StepKeepsInv(config, View(), BeginEvent(now, reply));
      hide Inv, TuneCandidate;
      begun := !status.scanning;
      if begun {
        ClearScan();
        TuneNext(now);
        begun := status.tuning;
      }
    }

    method ClearScan()
      modifies this
      ensures reply == old(reply)
      ensures View() == old(View()).(
                originBand := old(status).band, originChannel := old(status).channel, scanIndex := 0, bestIndex := 0,
                bestRssi := NO_RSSI, scanning := true, finishing := false, restoring := false,
                resultPending := false, samples := [])
    {
      originBand, originChannel := status.band, status.channel;
      scanIndex, bestIndex, bestRssi := 0, 0, NO_RSSI;
      ClearMarks();
    }

    method ClearMarks()
      modifies this`status, this`finishing, this`restoring, this`resultPending, this`samples
      ensures View() == old(View()).(scanning := true, finishing := false, restoring := false,
                                     resultPending := false, samples := [])
    {
      status := status.(scanning := true);
      finishing, restoring, resultPending := false, false, false;
      samples := [];
    }

    method Cancel(now: nat) returns (cancelled: bool)
      requires Valid()
      modifies this`status, this`finishing, this`restoring, this`requestedBand, this`requestedChannel, this`tuneDeadline
      ensures cancelled == (old(status.scanning) && status.tuning)
      ensures View() == CancelScan(config, old(View()), now, reply) && Valid()
    {
      StepKeepsInv(config, View(), CancelEvent(now, reply));
      hide Inv, RequestTune;
      if !status.scanning {
        return false;
      }
      status := status.(scanning := false);
      finishing, restoring := false, true;
      Request(originBand, originChannel, now);
      cancelled := status.tuning;
    }

    method CompleteTune(now: nat)
      modifies this`status, this`finishing, this`restoring, this`resultPending, this`nextSample
      modifies this`nextScanStep, this`tunedAt
      ensures View() == FinishTune(config, old(View()), now)
    {
      hide Settled;
      status := status.(tuning := false, available := true, failure := NoFailure, band := requestedBand,
                        channel := requestedChannel);
      tunedAt := now;
      SettleTune(now);
    }

    /** What the scan, or the watch on the signal, does next. */
    method SettleTune(now: nat)
      modifies this`status, this`finishing, this`restoring, this`resultPending, this`nextSample, this`nextScanStep
      ensures View() == Settled(config, old(View()), now)
    {
      if status.scanning && finishing {
        status := status.(scanning := false);
        finishing, resultPending, nextSample := false, true, now;
      } else if restoring {
        status := status.(scanning := false);
        restoring, nextSample := false, now;
      } else if status.scanning {
        nextScanStep := now + config.dwellUs;
      } else {
        nextSample := now;
      }
    }

    method Poll(now: nat)
      modifies this`status, this`finishing, this`restoring, this`resultPending, this`nextSample
      modifies this`nextScanStep, this`tunedAt
      ensures View() == PollTune(config, old(View()), now, reply)
    {
      hide FinishTune, FailTune;
      if status.tuning {
        if reply.tune.Complete? {
          CompleteTune(now);
        } else if reply.tune.Failed? {
          Fail(Communication);
        } else if now >= tuneDeadline {
          Fail(TuneTimeout);
        }
      }
    }

    method SampleNow(now: nat)
      modifies this`samples, this`status, this`bestRssi, this`bestIndex
      ensures View() == SampleCandidate(config, old(View()), now, reply)
    {
      var valid := config.calibrated && reply.adc.Reading? && 0 <= reply.adc.raw <= MAXIMUM_ADC;
      samples := samples + [Sample(tunedAt, now, valid, if valid then reply.adc.raw else 0)];
      if !config.calibrated {
        status := status.(failure := RssiCalibration);
      }
      if valid && reply.adc.raw > bestRssi {
        bestRssi, bestIndex := reply.adc.raw, scanIndex;
      }
    }

    method AdvanceNow(now: nat)
      modifies this
      ensures View() == Advance(config, old(View()), now, reply) && reply == old(reply)
    {
      hide SampleCandidate, TuneCandidate;
      SampleNow(now);
      scanIndex := scanIndex + 1;
      TuneNext(now);
    }

    method WatchNow(now: nat)
      modifies this`nextSample, this`status
      ensures View() == Watch(config, old(View()), now)
    {
      if !status.scanning && !status.tuning && status.available && now >= nextSample {
        nextSample := now + config.intervalUs;
        if !config.calibrated {
          status := status.(failure := RssiCalibration);
        }
      }
    }

    method TickNow(now: nat)
      requires Valid()
      modifies this
      ensures View() == Tick(config, old(View()), now, reply) && Valid() && reply == old(reply)
    {
      StepKeepsInv(config, View(), TickEvent(now, reply));
      assert Step(config, View(), TickEvent(now, reply)) == Tick(config, View(), now, reply);
      hide Inv, Step, PollTune, Advance, Watch;
      Poll(now);
      if status.scanning && !status.tuning && !finishing && !restoring && now >= nextScanStep {
        AdvanceNow(now);
      } else {
        WatchNow(now);
      }
    }

    method TakeResult() returns (taken: bool, band: nat, channel: nat)
      requires Valid()
      modifies this`resultPending
      ensures taken == old(resultPending) && (taken ==> band == status.band && channel == status.channel)
      ensures View() == Step(config, old(View()), TakeEvent) && Valid()
    {
      taken, band, channel := resultPending, status.band, status.channel;
      resultPending := false;
    }
  }
}
