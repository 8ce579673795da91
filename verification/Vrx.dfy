/** Scanning the video receiver's 48 channels for the strongest one.  The controller keeps a log of the
    scan under way, so that what it reports can be stated against what it has measured. */
module Vrx {
  const BANDS := 6
  const CHANNELS_PER_BAND := 8
  const CANDIDATES := 48
  const NO_RSSI := -32768
  const MAXIMUM_ADC := 4095

  datatype Failure = NoFailure | InvalidFrequency | TuneRejected | TuneTimeout | Communication | RssiCalibration

  datatype Config = Config(dwellUs: nat, timeoutUs: nat, intervalUs: nat, calibrated: bool)

  /** What the converter delivers. */
  datatype Adc = Unavailable | SensorFault | Reading(raw: int)

  datatype TuneState = Pending | Complete | Failed

  /** One candidate's sample: when its tune completed, when it was taken, and the reading if valid. */
  datatype Sample = Sample(tunedAt: nat, at: nat, valid: bool, raw: int)

  datatype Receiver = Receiver(
    band: nat, channel: nat, failure: Failure, available: bool, scanning: bool, tuning: bool,
    scanIndex: nat, bestIndex: nat, bestRssi: int, originBand: nat, originChannel: nat,
    requestedBand: nat, requestedChannel: nat, nextScanStep: nat, tuneDeadline: nat, nextSample: nat,
    finishing: bool, restoring: bool, resultPending: bool,
    tunedAt: nat, samples: seq<Sample>)

  /** The environment's answers to one call. */
  datatype Reply = Reply(accept: bool, tune: TuneState, adc: Adc)

  const NEW := Receiver(
    0, 0, NoFailure, false, false, false, 0, 0, NO_RSSI, 0, 0, 0, 0, 0, 0, 0, false, false, false, 0, [])

  predicate Tunable(band: nat, channel: nat) {
    band < BANDS && channel < CHANNELS_PER_BAND
  }

  predicate ValidReading(c: Config, adc: Adc) {
    c.calibrated && adc.Reading? && 0 <= adc.raw <= MAXIMUM_ADC
  }

  // ---------------------------------------------------------------- the steps

  function FailTune(v: Receiver, failure: Failure): Receiver {
    v.(tuning := false, available := false, scanning := false, failure := failure, finishing := false,
       restoring := false)
  }

  function RequestTune(c: Config, v: Receiver, band: nat, channel: nat, now: nat, r: Reply): Receiver {
    if !Tunable(band, channel) then FailTune(v, InvalidFrequency)
    else
      var v := v.(band := band, channel := channel);
      if !r.accept then FailTune(v, TuneRejected)
      else
        v.(requestedBand := band, requestedChannel := channel, tuning := true, available := false,
           failure := NoFailure, tuneDeadline := now + c.timeoutUs)
  }

  function FinishScan(c: Config, v: Receiver, now: nat, r: Reply): Receiver {
    if v.bestRssi != NO_RSSI then
      RequestTune(c, v.(finishing := true), v.bestIndex / CHANNELS_PER_BAND, v.bestIndex % CHANNELS_PER_BAND, now, r)
    else RequestTune(c, v.(restoring := true), v.originBand, v.originChannel, now, r)
  }

  function TuneCandidate(c: Config, v: Receiver, now: nat, r: Reply): Receiver {
    if v.scanIndex >= CANDIDATES then FinishScan(c, v, now, r)
    else RequestTune(c, v, v.scanIndex / CHANNELS_PER_BAND, v.scanIndex % CHANNELS_PER_BAND, now, r)
  }

  function Select(c: Config, v: Receiver, band: nat, channel: nat, now: nat, r: Reply): Receiver {
    RequestTune(c, v.(scanning := false, finishing := false, restoring := false, resultPending := false),
                band, channel, now, r)
  }

  function BeginScan(c: Config, v: Receiver, now: nat, r: Reply): Receiver {
    if v.scanning then v
    else
      TuneCandidate(c,
        v.(originBand := v.band, originChannel := v.channel, scanIndex := 0, bestIndex := 0, bestRssi := NO_RSSI,
           scanning := true, finishing := false, restoring := false, resultPending := false, samples := []),
        now, r)
  }

  function CancelScan(c: Config, v: Receiver, now: nat, r: Reply): Receiver {
    if !v.scanning then v
    else
      RequestTune(c, v.(scanning := false, finishing := false, restoring := true),
                  v.originBand, v.originChannel, now, r)
  }

  function FinishTune(c: Config, v: Receiver, now: nat): Receiver {
    Settled(c, v.(tuning := false, available := true, failure := NoFailure, band := v.requestedBand,
                  channel := v.requestedChannel, tunedAt := now), now)
  }

  /** What the scan, or the watch on the signal, does next. */
  function Settled(c: Config, v: Receiver, now: nat): Receiver {
    if v.scanning && v.finishing then
      v.(scanning := false, finishing := false, resultPending := true, nextSample := now)
    else if v.restoring then v.(scanning := false, restoring := false, nextSample := now)
    else if v.scanning then v.(nextScanStep := now + c.dwellUs)
    else v.(nextSample := now)
  }

  /** A scan sample: a valid reading above the best so far becomes the best. */
  function SampleCandidate(c: Config, v: Receiver, now: nat, r: Reply): Receiver {
    var valid := ValidReading(c, r.adc);
    var v := v.(samples := v.samples + [Sample(v.tunedAt, now, valid, if valid then r.adc.raw else 0)],
                failure := if c.calibrated then v.failure else RssiCalibration);
    if valid && r.adc.raw > v.bestRssi then v.(bestRssi := r.adc.raw, bestIndex := v.scanIndex) else v
  }

  function PollTune(c: Config, v: Receiver, now: nat, r: Reply): Receiver {
    if !v.tuning then v
    else
      match r.tune
      case Complete => FinishTune(c, v, now)
      case Failed => FailTune(v, Communication)
      case Pending => if now >= v.tuneDeadline then FailTune(v, TuneTimeout) else v
  }

  predicate SampleDue(v: Receiver, now: nat) {
    v.scanning && !v.tuning && !v.finishing && !v.restoring && now >= v.nextScanStep
  }

  /** Take the candidate's sample and go on to the next. */
  function Advance(c: Config, v: Receiver, now: nat, r: Reply): Receiver {
    var v := SampleCandidate(c, v, now, r);
    TuneCandidate(c, v.(scanIndex := v.scanIndex + 1), now, r)
  }

  /** Outside a scan the signal strength is sampled periodically. */
  function Watch(c: Config, v: Receiver, now: nat): Receiver {
    if !v.scanning && !v.tuning && v.available && now >= v.nextSample then
      v.(nextSample := now + c.intervalUs, failure := if c.calibrated then v.failure else RssiCalibration)
    else v
  }

  function Tick(c: Config, v: Receiver, now: nat, r: Reply): Receiver {
    var v := PollTune(c, v, now, r);
    if SampleDue(v, now) then Advance(c, v, now, r) else Watch(c, v, now)
  }

  datatype Event =
    | SelectEvent(band: nat, channel: nat, now: nat, r: Reply) | BeginEvent(now: nat, r: Reply)
    | CancelEvent(now: nat, r: Reply) | TickEvent(now: nat, r: Reply) | TakeEvent

  function Step(c: Config, v: Receiver, e: Event): Receiver {
    match e
    case SelectEvent(band, channel, now, r) => Select(c, v, band, channel, now, r)
    case BeginEvent(now, r) => BeginScan(c, v, now, r)
    case CancelEvent(now, r) => CancelScan(c, v, now, r)
    case TickEvent(now, r) => Tick(c, v, now, r)
    case TakeEvent => v.(resultPending := false)
  }

  // ---------------------------------------------------------------- what a scan promises

  /** Each candidate's sample came at least the dwell time after its tune. */
  predicate Dwelt(c: Config, samples: seq<Sample>) {
    forall i :: 0 <= i < |samples| ==> samples[i].at >= samples[i].tunedAt + c.dwellUs
  }

  /** `best` is the first of the strongest valid samples; without one, nothing is. */
  predicate Strongest(samples: seq<Sample>, best: nat, rssi: int) {
    if rssi == NO_RSSI then forall i :: 0 <= i < |samples| ==> !samples[i].valid
    else
      && best < |samples| && samples[best].valid && samples[best].raw == rssi && 0 <= rssi
      && (forall i :: 0 <= i < |samples| && samples[i].valid ==> samples[i].raw <= rssi)
      && (forall i :: 0 <= i < best && samples[i].valid ==> samples[i].raw < rssi)
  }

  /** A scan is under way and still sampling. */
  predicate Sampling(v: Receiver) {
    v.scanning && !v.finishing && !v.restoring
  }

  /** The receiver is set to, or on its way to, candidate `i`. */
  predicate Requested(v: Receiver, i: nat) {
    v.requestedBand == i / CHANNELS_PER_BAND && v.requestedChannel == i % CHANNELS_PER_BAND
  }

  predicate OnCandidate(v: Receiver, i: nat) {
    v.band == i / CHANNELS_PER_BAND && v.channel == i % CHANNELS_PER_BAND
  }

  /** The channels the receiver is set to, gives back and asks for are ones it can tune to. */
  predicate Placed(v: Receiver) {
    && Tunable(v.band, v.channel) && Tunable(v.originBand, v.originChannel)
    && Tunable(v.requestedBand, v.requestedChannel)
  }

  predicate Inv(c: Config, v: Receiver) {
    && Placed(v)
    && Dwelt(c, v.samples) && Strongest(v.samples, v.bestIndex, v.bestRssi)
    && (Sampling(v) ==>
        && v.scanIndex == |v.samples| < CANDIDATES && Requested(v, v.scanIndex)
        && (!v.tuning ==> v.nextScanStep == v.tunedAt + c.dwellUs))
    && (v.finishing ==>
        && v.scanning && v.tuning && |v.samples| == CANDIDATES && v.bestRssi != NO_RSSI
        && Requested(v, v.bestIndex))
    && (v.resultPending ==>
        |v.samples| == CANDIDATES && v.bestRssi != NO_RSSI && OnCandidate(v, v.bestIndex)
        && !v.scanning && !v.tuning)
    && (v.scanning && v.restoring ==> v.tuning && v.bestRssi == NO_RSSI && |v.samples| == CANDIDATES)
  }
}
