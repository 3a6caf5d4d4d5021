/** The three percussion voices. Each repeat callback at transport time
    `time` triggers its sample a fixed lead-in of one unit later, at fixed
    offsets, some of them only when a coin comes up. */
module Percussion {
  import opened Common

  /** `sampler.triggerAttack(time, velocity)`. */
  datatype Hit = Hit(time: real, velocity: real)

  /** Every callback schedules its hits one time unit ahead. */
  const LeadIn: real := 1.0

  /** Interval of the hats callback: `BASE_TIME_UNIT / 2`. */
  const HatsPeriod: real := BaseTimeUnit / 2.0

  /** Velocity of every hat hit. */
  const HatsVelocity: real := 0.1

  /** Velocity of every kick and snare hit. */
  const DrumVelocity: real := 0.25

  /** Hits in strictly increasing time order. */
  predicate Ascending(hits: seq<Hit>) {
    forall a, b :: 0 <= a < b < |hits| ==> hits[a].time < hits[b].time
  }

  /** Every hit lies within one `period` after the lead-in, at one of the
      given offsets, with the given velocity. */
  predicate Within(hits: seq<Hit>, time: real, period: real, offsets: set<real>, velocity: real) {
    forall h :: h in hits ==>
      && time + LeadIn <= h.time < time + LeadIn + period
      && h.time - (time + LeadIn) in offsets
      && h.velocity == velocity
  }

  /** The hats callback: a hit on the beat, and with draw `r` below 0.1 a
      second one an eighth of a unit later. */
  function Hats(time: real, r: real): (hits: seq<Hit>)
    requires IsDraw(r)
    ensures Ascending(hits)
    ensures Within(hits, time, HatsPeriod, {0.0, 0.125}, HatsVelocity)
    ensures Hit(time + LeadIn, HatsVelocity) in hits
    ensures Hit(time + LeadIn + 0.125, HatsVelocity) in hits <==> r < 0.1
    ensures 1 <= |hits| <= 2
  {
    [Hit(time + 1.0, 0.1)]
    + (if r < 0.1 then [Hit(time + 1.0 + BaseTimeUnit / 4.0, 0.1)] else [])
  }

  /** The kick callback: a hit on the beat, with draw `r1` below 0.2 one
      more half a unit later, and with draw `r2` below 0.2 one more 3.5
      units later. */
  function Kicks(time: real, r1: real, r2: real): (hits: seq<Hit>)
    requires IsDraw(r1) && IsDraw(r2)
    ensures Ascending(hits)
    ensures Within(hits, time, BarPeriod, {0.0, 0.5, 3.5}, DrumVelocity)
    ensures Hit(time + LeadIn, DrumVelocity) in hits
    ensures Hit(time + LeadIn + 0.5, DrumVelocity) in hits <==> r1 < 0.2
    ensures Hit(time + LeadIn + 3.5, DrumVelocity) in hits <==> r2 < 0.2
    ensures 1 <= |hits| <= 3
  {
    [Hit(time + 1.0, 0.25)]
    + (if r1 < 0.2 then [Hit(time + 1.0 + BaseTimeUnit, 0.25)] else [])
    + (if r2 < 0.2 then [Hit(time + 1.0 + BaseTimeUnit * 7.0, 0.25)] else [])
  }

  /** The snare callback: with draw `r1` below 0.33 a ghost hit before the
      backbeat, the backbeat itself always, and with draw `r2` below 0.1 a
      pair of hits closing the bar. */
  function Snare(time: real, r1: real, r2: real): (hits: seq<Hit>)
    requires IsDraw(r1) && IsDraw(r2)
    ensures Ascending(hits)
    ensures Within(hits, time, BarPeriod, {1.625, 2.0, 3.75, 3.875}, DrumVelocity)
    ensures Hit(time + LeadIn + 2.0, DrumVelocity) in hits
    ensures Hit(time + LeadIn + 1.625, DrumVelocity) in hits <==> r1 < 0.33
    ensures Hit(time + LeadIn + 3.75, DrumVelocity) in hits <==> r2 < 0.1
    ensures Hit(time + LeadIn + 3.875, DrumVelocity) in hits <==> r2 < 0.1
    ensures 1 <= |hits| <= 4
  {
    (if r1 < 0.33 then [Hit(time + 1.0 + 3.25 * BaseTimeUnit, 0.25)] else [])
    + [Hit(time + 1.0 + 4.0 * BaseTimeUnit, 0.25)]
    + (if r2 < 0.1 then
         [Hit(time + 1.0 + 7.5 * BaseTimeUnit, 0.25), Hit(time + 1.0 + 7.75 * BaseTimeUnit, 0.25)]
       else [])
  }

  /** Hits that lie within one period of a callback end before those of
      the callback one period later begin: consecutive runs of a voice
      never interleave. */
  lemma ConsecutiveRunsDoNotInterleave(first: seq<Hit>, second: seq<Hit>, time: real, period: real,
                                       offsets: set<real>, velocity: real)
    requires Within(first, time, period, offsets, velocity)
    requires Within(second, time + period, period, offsets, velocity)
    ensures forall x, y :: x in first && y in second ==> x.time < y.time
  {
  }
}
