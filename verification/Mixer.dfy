/** The output stage of the mixer: reversing, subtrim, limits, and the fade between flight modes.  The
    sums that the mix lines leave in the sixteen accumulators are inputs here, and may be anything. */
module Mixer {
  import opened Bits
  import opened Wire
  import opened Model
  import opened Safety
  import opened CrsfPacking

  type Sums = s: seq<int> | |s| == 16 witness seq(16, _ => 0)

  /** What the mixer keeps between frames for its output stage. */
  datatype State = State(
    previous: Channels, fadeFrom: Channels, initialized: bool, previousMode: nat, transition: nat, duration: nat,
    sequence: nat)

  function Reset(): State {
    State(Zeros(), Zeros(), false, 0, 0, 0, 0)
  }

  function Zeros(): Channels {
    seq(16, _ => 0)
  }

  // ---------------------------------------------------------------- one output

  /** The output a sum asks for. */
  function Limited(output: OutputLimit, sum: int): (v: int16)
    requires OutputOk(output)
    ensures output.minimum <= v <= output.maximum
  {
    var value := Clamp(-RESOLUTION, sum, RESOLUTION);
    Clamp(output.minimum, (if output.reversed then -value else value) + output.subtrim, output.maximum)
  }

  /** The way from one value to another, `elapsed` parts of `duration` through. */
  function Faded(from: int16, to: int16, elapsed: nat, duration: nat): (v: int16)
    requires elapsed < duration
    ensures (from <= v <= to) || (to <= v <= from)
  {
    FadeBetween(from, to, elapsed, duration);
    from + Truncate((to - from) * elapsed, duration)
  }

  lemma FadeBetween(from: int, to: int, elapsed: nat, duration: nat)
    requires elapsed < duration
    ensures var v := from + Truncate((to - from) * elapsed, duration);
      (from <= v <= to) || (to <= v <= from)
  {
    if to >= from {
      PartOf(to - from, elapsed, duration);
    } else {
      PartOf(from - to, elapsed, duration);
      assert -((to - from) * elapsed) == (from - to) * elapsed;
      NotPositive(from - to, elapsed);
    }
  }

  /** The quotient of natural numbers, with the inequalities that define it. */
  function Quotient(x: nat, d: nat): (q: nat)
    requires d > 0
    ensures q == x / d && q * d <= x < q * d + d
  {
    x / d
  }

  lemma QuotientOrder(x: nat, y: nat, d: nat)
    requires x <= y && d > 0
    ensures 0 <= x / d <= y / d
  {
    var p, q := Quotient(x, d), Quotient(y, d);
    assert (q + 1) * d == q * d + d;
    Below(p, q, d);
  }

  /** A part of `a` that is no more than the whole. */
  lemma PartOf(a: nat, elapsed: nat, duration: nat)
    requires elapsed <= duration && duration > 0
    ensures 0 <= a * elapsed <= a * duration && 0 <= a * elapsed / duration <= a
  {
    NotPositive(a, elapsed);
    TimesOrder(elapsed, duration, a);
    var q := Quotient(a * elapsed, duration);
    assert (a + 1) * duration == a * duration + duration;
    Below(q, a, duration);
  }

  lemma PartGrows(a: nat, e1: nat, e2: nat, duration: nat)
    requires e1 <= e2 && duration > 0
    ensures a * e1 / duration <= a * e2 / duration
  {
    NotPositive(a, e1);
    TimesOrder(e1, e2, a);
    QuotientOrder(a * e1, a * e2, duration);
  }

  // ---------------------------------------------------------------- one frame

  predicate LimitsOk(m: Model) {
    forall i :: 0 <= i < 16 ==> OutputOk(m.outputs[i])
  }

  /** Every channel lies within the limits of its output. */
  predicate Within(m: Model, c: Channels) {
    forall i :: 0 <= i < 16 ==> m.outputs[i].minimum <= c[i] <= m.outputs[i].maximum
  }

  function Targets(m: Model, sums: Sums): (c: Channels)
    requires LimitsOk(m)
    ensures Within(m, c)
  {
    seq(16, i requires 0 <= i < 16 => Limited(m.outputs[i], sums[i]))
  }

  /** Entering a flight mode: the frame sent last is where the fade starts. */
  function Entered(m: Model, s: State, mode: nat, now: nat): State
    requires mode < 5 && s.previousMode < 5
  {
    if !s.initialized then s.(previousMode := mode, initialized := true)
    else if mode != s.previousMode then
      var out, into := m.modes[s.previousMode].fadeOutMs, m.modes[mode].fadeInMs;
      State(s.previous, seq(16, i requires 0 <= i < 16 => Clamp(-RESOLUTION, s.previous[i], RESOLUTION) as int16),
            true, mode, now, 1000 * (if out > into then out else into), s.sequence)
    else s
  }

  predicate Fading(s: State, now: nat) {
    s.duration != 0 && now >= s.transition && now - s.transition < s.duration
  }

  /** The channels of a frame, given the state after `Entered`. */
  function Output(m: Model, s: State, sums: Sums, now: nat): Channels
    requires LimitsOk(m)
  {
    FadedAll(s, Targets(m, sums), now)
  }

  function FadedAll(s: State, targets: Channels, now: nat): Channels {
    if Fading(s, now) then
      seq(16, i requires 0 <= i < 16 => Faded(s.fadeFrom[i], targets[i], now - s.transition, s.duration))
    else targets
  }

  /** The state after a frame with active mode `mode`; `previous` holds the frame. */
  function Evaluate(m: Model, s: State, mode: nat, sums: Sums, now: nat): State
    requires LimitsOk(m) && mode < 5 && s.previousMode < 5
  {
    var e := Entered(m, s, mode, now);
    var over := e.duration != 0 && now >= e.transition && now - e.transition >= e.duration;
    e.(previous := Output(m, e, sums, now), duration := if over then 0 else e.duration,
       sequence := (s.sequence + 1) % 0x1_0000_0000)
  }

  // ---------------------------------------------------------------- limits hold in every run

  /** Once a frame has been sent, it and the start of a fade under way lie within the limits. */
  predicate Inv(m: Model, s: State) {
    && s.previousMode < 5
    && (s.initialized ==> Within(m, s.previous))
    && (s.duration != 0 ==> s.initialized && Within(m, s.fadeFrom))
  }

  lemma EvaluateKeeps(m: Model, s: State, mode: nat, sums: Sums, now: nat)
    requires LimitsOk(m) && mode < 5 && Inv(m, s)
    ensures Inv(m, Evaluate(m, s, mode, sums, now)) && Evaluate(m, s, mode, sums, now).initialized
  {
    var e := Entered(m, s, mode, now);
    EnteredWithin(m, s, mode, now);
    OutputWithin(m, e, sums, now);
    hide Entered, Output, Within;
  }

  lemma EnteredWithin(m: Model, s: State, mode: nat, now: nat)
    requires LimitsOk(m) && mode < 5 && Inv(m, s)
    ensures var e := Entered(m, s, mode, now);
      e.initialized && e.previousMode < 5 && (e.duration != 0 ==> Within(m, e.fadeFrom))
  {
  }

  lemma OutputWithin(m: Model, e: State, sums: Sums, now: nat)
    requires LimitsOk(m) && (e.duration != 0 ==> Within(m, e.fadeFrom))
    ensures Within(m, Output(m, e, sums, now))
  {
    var targets, c := Targets(m, sums), Output(m, e, sums, now);
    if Fading(e, now) {
      forall i | 0 <= i < 16 ensures m.outputs[i].minimum <= c[i] <= m.outputs[i].maximum {
        assert c[i] == Faded(e.fadeFrom[i], targets[i], now - e.transition, e.duration);
        hide Faded;
      }
    }
  }

  // ---------------------------------------------------------------- what the fade is for

  /** Changing the flight mode with a fade does not move the outputs: the frame of the change repeats the
      frame before it. */
  lemma NoJumpOnModeChange(m: Model, s: State, mode: nat, sums: Sums, now: nat)
    requires LimitsOk(m) && mode < 5 && Inv(m, s) && s.initialized && mode != s.previousMode
    requires m.modes[s.previousMode].fadeOutMs > 0 || m.modes[mode].fadeInMs > 0
    ensures Evaluate(m, s, mode, sums, now).previous == s.previous
  {
    var e := Entered(m, s, mode, now);
    var targets, c := Targets(m, sums), Output(m, e, sums, now);
    assert Fading(e, now);
    forall i | 0 <= i < 16 ensures c[i] == s.previous[i] {
      assert OutputOk(m.outputs[i]) && m.outputs[i].minimum <= s.previous[i] <= m.outputs[i].maximum;
      assert e.fadeFrom[i] == s.previous[i];
      StartOfFade(e.fadeFrom[i], targets[i], e.duration);
    }
    assert c == s.previous;
  }

  lemma StartOfFade(from: int16, to: int16, duration: nat)
    requires duration > 0
    ensures Faded(from, to, 0, duration) == from
  {
    assert (to - from) * 0 == 0;
  }

  lemma FadeRises(from: int16, to: int16, e1: nat, e2: nat, duration: nat)
    requires e1 <= e2 < duration && from <= to
    ensures Faded(from, to, e1, duration) <= Faded(from, to, e2, duration) <= to
  {
    PartGrows(to - from, e1, e2, duration);
    NotPositive(to - from, e1);
    NotPositive(to - from, e2);
  }

  lemma FadeFalls(from: int16, to: int16, e1: nat, e2: nat, duration: nat)
    requires e1 <= e2 < duration && to < from
    ensures to <= Faded(from, to, e2, duration) <= Faded(from, to, e1, duration)
  {
    FallenPart(from, to, e1, duration);
    FallenPart(from, to, e2, duration);
    PartGrows(from - to, e1, e2, duration);
    hide Faded;
  }

  lemma FallenPart(from: int16, to: int16, e: nat, duration: nat)
    requires e < duration && to < from
    ensures Faded(from, to, e, duration) == from - (from - to) * e / duration >= to
  {
    PartOf(from - to, e, duration);
    assert -((to - from) * e) == (from - to) * e;
    if e == 0 {
      assert (to - from) * e == 0;
      assert 0 / duration == 0;
    } else {
      assert (from - to) * e > 0;
    }
  }

  /** With a steady target the outputs only get closer to it. */
  lemma FadeApproaches(from: int16, to: int16, e1: nat, e2: nat, duration: nat)
    requires e1 <= e2 < duration
    ensures from <= to ==> Faded(from, to, e1, duration) <= Faded(from, to, e2, duration) <= to
    ensures to <= from ==> to <= Faded(from, to, e2, duration) <= Faded(from, to, e1, duration)
  {
    if from <= to {
      FadeRises(from, to, e1, e2, duration);
    } else {
      FadeFalls(from, to, e1, e2, duration);
    }
  }

  /** The fade ends: from `duration` on the frame is the target. */
  lemma FadeEnds(m: Model, s: State, sums: Sums, now: nat)
    requires LimitsOk(m) && Inv(m, s) && s.initialized && now >= s.transition + s.duration
    ensures Evaluate(m, s, s.previousMode, sums, now).previous == Targets(m, sums)
    ensures Evaluate(m, s, s.previousMode, sums, now).duration == 0
  {
  }

  /** A fade lasts as long as the longer of the two times, from the last frame of the old mode on. */
  lemma FadeLasts(m: Model, s: State, mode: nat, sums: Sums, now: nat)
    requires LimitsOk(m) && mode < 5 && Inv(m, s) && s.initialized && mode != s.previousMode
    ensures var v := Evaluate(m, s, mode, sums, now);
      var out, into := m.modes[s.previousMode].fadeOutMs, m.modes[mode].fadeInMs;
      && out * 1000 <= v.duration && into * 1000 <= v.duration
      && (v.duration == out * 1000 || v.duration == into * 1000)
      && v.transition == now && v.previousMode == mode
      && (v.duration > 0 ==> v.fadeFrom == s.previous)
  {
    var e := Entered(m, s, mode, now);
    forall i | 0 <= i < 16 ensures e.fadeFrom[i] == s.previous[i] {
      assert OutputOk(m.outputs[i]) && m.outputs[i].minimum <= s.previous[i] <= m.outputs[i].maximum;
    }
    assert e.fadeFrom == s.previous;
  }

  lemma FadeStraight(from: int16, to: int16, elapsed: nat, duration: nat)
    requires elapsed < duration
    ensures var v := Faded(from, to, elapsed, duration);
      && (from <= to ==> (v - from) * duration <= (to - from) * elapsed < (v - from + 1) * duration)
      && (to <= from ==> (from - v) * duration <= (from - to) * elapsed < (from - v + 1) * duration)
  {
    if from <= to {
      NotPositive(to - from, elapsed);
      var q := Quotient((to - from) * elapsed, duration);
      assert (q + 1) * duration == q * duration + duration;
    }
    if to < from {
      FallenPart(from, to, elapsed, duration);
      NotPositive(from - to, elapsed);
      var q := Quotient((from - to) * elapsed, duration);
      assert (q + 1) * duration == q * duration + duration;
    } else if to == from {
      assert (from - to) * elapsed == 0;
    }
  }

  /** The frames of a fade are on the straight line from where it began to their target, at the part of the way that
      its time is through, rounded toward where it began. */
  lemma FadeFrames(m: Model, s: State, sums: Sums, now: nat, i: nat)
    requires LimitsOk(m) && Inv(m, s) && s.initialized && s.transition <= now < s.transition + s.duration && i < 16
    ensures var v := Evaluate(m, s, s.previousMode, sums, now).previous[i];
      var from, to, elapsed := s.fadeFrom[i], Targets(m, sums)[i], now - s.transition;
      && (from <= to ==> (v - from) * s.duration <= (to - from) * elapsed < (v - from + 1) * s.duration)
      && (to <= from ==> (from - v) * s.duration <= (from - to) * elapsed < (from - v + 1) * s.duration)
  {
    hide Faded, Limited;
    FadeStraight(s.fadeFrom[i], Targets(m, sums)[i], now - s.transition, s.duration);
  }

  // ---------------------------------------------------------------- what an output does

  /** No fade is under way in the frame. */
  predicate Steady(m: Model, s: State, mode: nat, now: nat)
    requires mode < 5 && s.previousMode < 5
  {
    !Fading(Entered(m, s, mode, now), now)
  }

  /** An output that is not reversed follows its sum: it is the sum moved by the subtrim wherever that lies between
      the limits, and else the nearer limit; a sum beyond the resolution counts as its end. */
  lemma OutputFollows(m: Model, s: State, mode: nat, sums: Sums, now: nat, i: nat)
    requires LimitsOk(m) && mode < 5 && s.previousMode < 5 && Steady(m, s, mode, now) && i < 16
    requires !m.outputs[i].reversed
    ensures var v, o := Evaluate(m, s, mode, sums, now).previous[i], m.outputs[i];
      var sum := if sums[i] > 1024 then 1024 else if sums[i] < -1024 then -1024 else sums[i];
      && (o.minimum <= sum + o.subtrim <= o.maximum ==> v == sum + o.subtrim)
      && (sum + o.subtrim < o.minimum ==> v == o.minimum)
      && (sum + o.subtrim > o.maximum ==> v == o.maximum)
  {
    assert OutputOk(m.outputs[i]);
  }

  /** A reversed output gives what it would give, not reversed, for the opposite sum. */
  lemma ReversedMirrors(m: Model, s: State, mode: nat, sums: Sums, now: nat, i: nat)
    requires LimitsOk(m) && mode < 5 && s.previousMode < 5 && Steady(m, s, mode, now) && i < 16
    requires m.outputs[i].reversed
    ensures var plain := m.(outputs := m.outputs[i := m.outputs[i].(reversed := false)]);
      && LimitsOk(plain) && Steady(plain, s, mode, now)
      && Evaluate(m, s, mode, sums, now).previous[i]
         == Evaluate(plain, s, mode, sums[i := -sums[i]], now).previous[i]
  {
    assert OutputOk(m.outputs[i]);
    var plain := m.(outputs := m.outputs[i := m.outputs[i].(reversed := false)]);
    assert Entered(m, s, mode, now) == Entered(plain, s, mode, now);
  }

  /** An output never falls while its sum rises; a reversed one never rises. */
  lemma OutputMonotone(m: Model, s: State, mode: nat, sums: Sums, more: Sums, now: nat, i: nat)
    requires LimitsOk(m) && mode < 5 && s.previousMode < 5 && Steady(m, s, mode, now) && i < 16
    requires sums[i] <= more[i]
    ensures var v, v' := Evaluate(m, s, mode, sums, now).previous[i], Evaluate(m, s, mode, more, now).previous[i];
      if m.outputs[i].reversed then v' <= v else v <= v'
  {
    assert OutputOk(m.outputs[i]);
  }
}
