/** The violin drone: each call plays C4, re-arms itself after a random
    delay, and, when at least 20 time units have passed since the last
    embellishment and a 0.3 coin comes up, adds an A or G embellishment
    (never A twice in a row), sometimes doubled an octave up. */
module Drone {
  import opened Common

  /** Pitch classes the drone voice plays. */
  datatype PitchClass = C | A | G

  /** A note name such as `C4` or `G5`. */
  datatype Pitch = Pitch(name: PitchClass, octave: nat)

  /** The drone's closure: `lastExtraNote` (A or G) and `lastExtraNoteTime`. */
  datatype DroneState = DroneState(lastExtra: PitchClass, lastExtraTime: real)

  /** The values of `Math.random()` one call may consume, in source order:
      the re-arm delay, the embellishment gate, the A/G choice and the
      octave doubling. */
  datatype Draws = Draws(delay: real, gate: real, choice: real, octave: real)

  /** What one call does: the notes it plays, the delay after which it runs
      again, and the state it leaves. */
  datatype Call = Call(attacks: seq<Pitch>, delay: real, next: DroneState)

  /** One call's clock reading and random values. */
  datatype Input = Input(now: real, draws: Draws)

  /** Embellishments at least this far apart in time. */
  const Cooldown: real := 20.0

  /** The longest re-arm delay, exclusive: `Math.random() * 10`. */
  const MaxDelay: real := 10.0

  const Root: Pitch := Pitch(C, 4)

  predicate ValidDraws(d: Draws) {
    IsDraw(d.delay) && IsDraw(d.gate) && IsDraw(d.choice) && IsDraw(d.octave)
  }

  predicate IsExtra(p: PitchClass) {
    p == A || p == G
  }

  /** The closure as the voice starts: `lastExtraNote = 'A'` and the
      current time, so the first embellishment waits a full cooldown. */
  function Start(now: real): (s: DroneState)
    ensures s.lastExtra == A && s.lastExtraTime == now
  {
    DroneState(A, now)
  }

  /** Whether the call adds an embellishment: the early `return` is taken
      when fewer than 20 units have passed or the gate draw is below 0.7. */
  predicate Fires(s: DroneState, now: real, gate: real) {
    !(now - s.lastExtraTime < Cooldown || gate < 0.7)
  }

  /** The embellishment chosen: G when the draw is below 0.6 or the last one
      was A, otherwise A. */
  function Choose(last: PitchClass, r: real): (p: PitchClass)
    ensures IsExtra(p)
    ensures last == A ==> p == G
    ensures p == A <==> last != A && r >= 0.6
  {
    if r < 0.6 || last == A then G else A
  }

  /** One call of `drone()` at clock reading `now`. */
  function Step(s: DroneState, now: real, d: Draws): (c: Call)
    requires ValidDraws(d)
    ensures |c.attacks| >= 1 && c.attacks[0] == Root
    ensures 0.0 <= c.delay < MaxDelay
    ensures Fires(s, now, d.gate) <==> now - s.lastExtraTime >= Cooldown && d.gate >= 0.7
    ensures !Fires(s, now, d.gate) ==> c.next == s && c.attacks == [Root]
    ensures Fires(s, now, d.gate) ==>
      && c.next.lastExtraTime == now
      && IsExtra(c.next.lastExtra)
      && (s.lastExtra == A ==> c.next.lastExtra == G)
      && (c.next.lastExtra == A <==> s.lastExtra != A && d.choice >= 0.6)
      && 2 <= |c.attacks| <= 3
      && c.attacks[1] == Pitch(c.next.lastExtra, 4)
      && (|c.attacks| == 3 <==> d.octave < 0.2)
      && (|c.attacks| == 3 ==> c.attacks[2] == Pitch(c.next.lastExtra, 5))
  {
    var delay := d.delay * 10.0;
    if !Fires(s, now, d.gate) then
      Call([Root], delay, s)
    else
      var extra := Choose(s.lastExtra, d.choice);
      var doubled := if d.octave < 0.2 then [Pitch(extra, 5)] else [];
      Call([Root, Pitch(extra, 4)] + doubled, delay, DroneState(extra, now))
  }

  /** The embellishments played over several calls, and the final state. */
  datatype Trace = Trace(extras: seq<PitchClass>, times: seq<real>, last: DroneState)

  predicate AllValid(inputs: seq<Input>) {
    forall k :: 0 <= k < |inputs| ==> ValidDraws(inputs[k].draws)
  }

  /** Successive calls: the embellishments they play, with their times. */
  function Run(s: DroneState, inputs: seq<Input>): (t: Trace)
    requires AllValid(inputs)
    ensures |t.extras| == |t.times| <= |inputs|
    ensures |t.extras| == 0 ==> t.last == s
    ensures |t.extras| > 0 ==> t.last == DroneState(t.extras[|t.extras| - 1], t.times[|t.times| - 1])
    ensures |inputs| > 0 && Fires(s, inputs[0].now, inputs[0].draws.gate) ==>
      && |t.extras| > 0
      && t.extras[0] == Choose(s.lastExtra, inputs[0].draws.choice)
      && t.times[0] == inputs[0].now
    decreases |inputs|
  {
    if |inputs| == 0 then Trace([], [], s)
    else
      var c := Step(s, inputs[0].now, inputs[0].draws);
      var rest := Run(c.next, inputs[1..]);
      if Fires(s, inputs[0].now, inputs[0].draws.gate) then
        Trace([c.next.lastExtra] + rest.extras, [inputs[0].now] + rest.times, rest.last)
      else
        rest
  }

  /** No two neighbouring entries are both A. */
  predicate NoDoubleA(s: seq<PitchClass>) {
    forall k :: 0 <= k < |s| - 1 ==> !(s[k] == A && s[k + 1] == A)
  }

  /** Clock readings that never go backwards. */
  predicate Monotone(inputs: seq<Input>) {
    forall a, b :: 0 <= a < b < |inputs| ==> inputs[a].now <= inputs[b].now
  }

  /** Over any run, the embellishments, read after the remembered one, are
      A or G and never A twice in a row; in particular the first one after
      the voice starts is G. */
  lemma {:induction false} NeverTwoAs(s: DroneState, inputs: seq<Input>)
    requires AllValid(inputs) && IsExtra(s.lastExtra)
    ensures var e := Run(s, inputs).extras;
      NoDoubleA([s.lastExtra] + e) && forall k :: 0 <= k < |e| ==> IsExtra(e[k])
    ensures IsExtra(Run(s, inputs).last.lastExtra)
    decreases |inputs|
  {
    if |inputs| > 0 {
      var c := Step(s, inputs[0].now, inputs[0].draws);
      NeverTwoAs(c.next, inputs[1..]);
      var rest := Run(c.next, inputs[1..]).extras;
      if Fires(s, inputs[0].now, inputs[0].draws.gate) {
        var e := [c.next.lastExtra] + rest;
        assert [s.lastExtra] + e == [s.lastExtra] + ([c.next.lastExtra] + rest);
        assert ([c.next.lastExtra] + rest) == [c.next.lastExtra] + rest;
        forall k | 0 <= k < |[s.lastExtra] + e| - 1
          ensures !(([s.lastExtra] + e)[k] == A && ([s.lastExtra] + e)[k + 1] == A)
        {
          if k > 0 {
            assert ([s.lastExtra] + e)[k] == ([c.next.lastExtra] + rest)[k - 1];
            assert ([s.lastExtra] + e)[k + 1] == ([c.next.lastExtra] + rest)[k];
          }
        }
      } else {
        assert c.next == s;
      }
    }
  }

  /** Since the voice starts remembering A, its first embellishment is G. */
  lemma FirstExtraIsG(now: real, inputs: seq<Input>)
    requires AllValid(inputs)
    ensures var e := Run(Start(now), inputs).extras;
      |e| > 0 ==> e[0] == G
  {
    NeverTwoAs(Start(now), inputs);
    var e := Run(Start(now), inputs).extras;
    if |e| > 0 {
      assert ([A] + e)[0] == A && ([A] + e)[1] == e[0];
    }
  }

  /** Embellishments are at least the cooldown apart, and the first comes
      at least the cooldown after the remembered one, whatever the clock
      readings: each firing is measured against the previous firing's
      recorded time. */
  lemma {:induction false} CooldownRespected(s: DroneState, inputs: seq<Input>)
    requires AllValid(inputs)
    ensures var t := Run(s, inputs).times;
      && (|t| > 0 ==> t[0] - s.lastExtraTime >= Cooldown)
      && (forall k :: 0 <= k < |t| - 1 ==> t[k + 1] - t[k] >= Cooldown)
    decreases |inputs|
  {
    if |inputs| > 0 {
      var c := Step(s, inputs[0].now, inputs[0].draws);
      var tail := inputs[1..];
      CooldownRespected(c.next, tail);
      var rest := Run(c.next, tail).times;
      if Fires(s, inputs[0].now, inputs[0].draws.gate) {
        var t := [inputs[0].now] + rest;
        forall k | 0 <= k < |t| - 1
          ensures t[k + 1] - t[k] >= Cooldown
        {
          if k > 0 {
            assert t[k] == rest[k - 1] && t[k + 1] == rest[k];
          }
        }
      } else {
        assert c.next == s;
      }
    }
  }

  /** With a clock that never goes backwards, no embellishment precedes the
      first call's clock reading. */
  lemma {:induction false} TimesFromInputs(s: DroneState, inputs: seq<Input>)
    requires AllValid(inputs) && Monotone(inputs)
    ensures forall k :: 0 <= k < |Run(s, inputs).times| ==> inputs[0].now <= Run(s, inputs).times[k]
    decreases |inputs|
  {
    if |inputs| > 0 {
      var c := Step(s, inputs[0].now, inputs[0].draws);
      var tail := inputs[1..];
      assert Monotone(tail) by {
        forall a, b | 0 <= a < b < |tail|
          ensures tail[a].now <= tail[b].now
        {
          assert tail[a] == inputs[a + 1] && tail[b] == inputs[b + 1];
        }
      }
      TimesFromInputs(c.next, tail);
      var rest := Run(c.next, tail).times;
      forall k | 0 <= k < |rest|
        ensures inputs[0].now <= rest[k]
      {
        assert |tail| > 0;
        assert tail[0].now <= rest[k];
        assert inputs[0].now <= inputs[1].now == tail[0].now;
      }
      if Fires(s, inputs[0].now, inputs[0].draws.gate) {
        var t := [inputs[0].now] + rest;
        assert Run(s, inputs).times == t;
        forall k | 0 <= k < |t|
          ensures inputs[0].now <= t[k]
        {
          if k > 0 {
            assert t[k] == rest[k - 1];
          }
        }
      } else {
        assert Run(s, inputs).times == rest;
      }
    }
  }
}
