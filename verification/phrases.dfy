/** The tongue-drum voice: `createPhrase` keeps each of eight slots by a
    coin whose odds fall on odd slots, pairs each kept slot with the next
    note of the shared generator, and the repeat callback replays the
    phrase each bar and renews it with a chance that grows with the number
    of loops played. */
module Phrases {
  import opened Common
  import opened Notes

  /** Number of slots `createPhrase` walks (`Array.from({ length: 8 })`). */
  const SlotCount: nat := 8

  /** Lead-in added to every tongue-drum event (the percussion voices use
      a full time unit instead). */
  const PhraseLeadIn: real := 0.95

  /** One phrase element: `{ index, note }`. */
  datatype Entry = Entry(index: nat, note: Option<Note>)

  /** A built phrase and the shared generator after building it. */
  datatype Built = Built(phrase: seq<Entry>, gen: Generator)

  /** The voice's closure: `phrase`, `phraseLoops` and the shared generator. */
  datatype LoopState = LoopState(phrase: seq<Entry>, loops: nat, gen: Generator)

  /** `sampler.triggerAttack(note, time)`. */
  datatype Attack = Attack(note: Option<Note>, time: real)

  /** What one repeat callback does: the attacks it schedules, the state
      it leaves and whether it built a new phrase. */
  datatype Tick = Tick(attacks: seq<Attack>, next: LoopState, renewed: bool)

  /** The slot gate: slot `i` survives the filter when its draw is below
      `0.5 - (i % 2) * 0.25`. */
  predicate Kept(i: nat, r: real) {
    r < 0.5 - (i % 2) as real * 0.25
  }

  /** Strictly increasing slot numbers below `SlotCount`. */
  predicate SlotsOrdered(s: seq<nat>) {
    && (forall k :: 0 <= k < |s| ==> s[k] < SlotCount)
    && (forall a, b :: 0 <= a < b < |s| ==> s[a] < s[b])
  }

  /** The slots below `n` that survive the filter, in order. */
  function SlotsBelow(gates: seq<real>, n: nat): (s: seq<nat>)
    requires n <= |gates|
    ensures forall k :: 0 <= k < |s| ==> s[k] < n
    ensures forall a, b :: 0 <= a < b < |s| ==> s[a] < s[b]
    ensures |s| <= n
    ensures forall j :: 0 <= j < n ==> (j in s <==> Kept(j, gates[j]))
  {
    if n == 0 then []
    else SlotsBelow(gates, n - 1) + (if Kept(n - 1, gates[n - 1]) then [n - 1] else [])
  }

  /** The slots of `[0, 8)` that survive the filter, one gate draw each. */
  function Slots(gates: seq<real>): (s: seq<nat>)
    requires |gates| == SlotCount
    ensures SlotsOrdered(s) && |s| <= SlotCount
    ensures forall j :: 0 <= j < SlotCount ==> (j in s <==> Kept(j, gates[j]))
  {
    SlotsBelow(gates, |gates|)
  }

  /** The `index` fields of a phrase, in order. */
  function Indices(p: seq<Entry>): (s: seq<nat>)
    ensures |s| == |p| && forall k :: 0 <= k < |p| ==> s[k] == p[k].index
  {
    seq(|p|, k requires 0 <= k < |p| => p[k].index)
  }

  /** The `note` fields of a phrase, in order. */
  function NotesOf(p: seq<Entry>): (s: seq<Option<Note>>)
    ensures |s| == |p| && forall k :: 0 <= k < |p| ==> s[k] == p[k].note
  {
    seq(|p|, k requires 0 <= k < |p| => p[k].note)
  }

  /** Every note of the phrase is a defined pool note, and neighbours differ. */
  predicate WellDrawn(p: seq<Entry>, pool: seq<Note>) {
    NoRepeatNotes(NotesOf(p), pool)
  }

  /** `createPhrase()`: `gates` are the eight filter draws, `draws` the
      draws of the `noteGenerator.next()` calls made for the kept slots
      (extra draws are not consumed). */
  function CreatePhrase(g: Generator, gates: seq<real>, draws: seq<real>): (b: Built)
    requires |gates| == SlotCount && |draws| >= SlotCount && AllDraws(draws)
    ensures SlotsOrdered(Indices(b.phrase)) && |b.phrase| <= SlotCount
    ensures forall j :: 0 <= j < SlotCount ==> (j in Indices(b.phrase) <==> Kept(j, gates[j]))
    ensures Indices(b.phrase) == Slots(gates)
    ensures NotesOf(b.phrase) == Run(g, draws[..|Slots(gates)|]).notes
    ensures b.gen == Run(g, draws[..|Slots(gates)|]).next
  {
    var slots := Slots(gates);
    var d := Run(g, draws[..|slots|]);
    Built(Pair(slots, d.notes), d.next)
  }

  /** After building, the shared generator remembers the phrase's last
      note, or is untouched when the phrase is empty. */
  lemma CreatePhraseKeepsGeneratorInStep(g: Generator, gates: seq<real>, draws: seq<real>)
    requires |gates| == SlotCount && |draws| >= SlotCount && AllDraws(draws)
    ensures var b := CreatePhrase(g, gates, draws);
      && b.gen.pool == g.pool
      && (|b.phrase| > 0 ==> b.gen.last == b.phrase[|b.phrase| - 1].note)
      && (|b.phrase| == 0 ==> b.gen == g)
  {
    var b := CreatePhrase(g, gates, draws);
    var p := b.phrase;
    assert |NotesOf(p)| == |p|;
    if |p| > 0 {
      assert NotesOf(p)[|p| - 1] == p[|p| - 1].note;
    }
  }

  /** The notes of a phrase come from the shared generator in slot order:
      with a valid pool they are defined pool notes, neighbours differ, and
      the first differs from the note drawn before the phrase was built. */
  lemma CreatePhraseNeverRepeats(g: Generator, gates: seq<real>, draws: seq<real>)
    requires ValidPool(g.pool)
    requires |gates| == SlotCount && |draws| >= SlotCount && AllDraws(draws)
    ensures NoRepeatStream(NotesOf(CreatePhrase(g, gates, draws).phrase), g.pool, g.last)
  {
    RunIsNoRepeatStream(g, draws[..|Slots(gates)|]);
  }

  /** The phrase whose indices are `slots` and whose notes are `notes`. */
  function Pair(slots: seq<nat>, notes: seq<Option<Note>>): (p: seq<Entry>)
    requires |slots| == |notes|
    ensures Indices(p) == slots && NotesOf(p) == notes
  {
    var p := seq(|slots|, k requires 0 <= k < |slots| => Entry(slots[k], notes[k]));
    assert Indices(p) == slots;
    assert NotesOf(p) == notes;
    p
  }

  /** The voice as it starts: a phrase built from a fresh generator and
      `phraseLoops = 0`. */
  function Start(pool: seq<Note>, gates: seq<real>, draws: seq<real>): (s: LoopState)
    requires |gates| == SlotCount && |draws| >= SlotCount && AllDraws(draws)
    ensures s.loops == 0 && s.gen.pool == pool
    ensures forall j :: 0 <= j < SlotCount ==> (j in Indices(s.phrase) <==> Kept(j, gates[j]))
  {
    var b := CreatePhrase(Fresh(pool), gates, draws);
    LoopState(b.phrase, 0, b.gen)
  }

  /** The renewal threshold `phraseLoops ** 2 / 100`. */
  function Threshold(loops: nat): real {
    (loops * loops) as real / 100.0
  }

  /** The attacks `phrase.forEach` schedules for a run at `time`: each note
      at `time + index * BASE_TIME_UNIT + 0.95`. */
  function Schedule(p: seq<Entry>, time: real): (a: seq<Attack>)
    ensures |a| == |p|
    ensures forall k :: 0 <= k < |p| ==> a[k].note == p[k].note
    ensures forall k :: 0 <= k < |p| ==>
      a[k].time == time + PhraseLeadIn + p[k].index as real * BaseTimeUnit
  {
    seq(|p|, k requires 0 <= k < |p| =>
      Attack(p[k].note, time + p[k].index as real * BaseTimeUnit + PhraseLeadIn))
  }

  /** One run of the repeat callback at transport time `time`: schedule the
      current phrase, then with draw `r` either build a new phrase (from
      `gates` and `draws`) and reset `phraseLoops`, or count one more loop. */
  function Step(s: LoopState, time: real, r: real, gates: seq<real>, draws: seq<real>): (t: Tick)
    requires IsDraw(r)
    requires |gates| == SlotCount && |draws| >= SlotCount && AllDraws(draws)
    ensures t.attacks == Schedule(s.phrase, time)
    ensures t.renewed <==> r < Threshold(s.loops)
    ensures t.renewed ==> t.next.loops == 0
    ensures t.renewed ==> Indices(t.next.phrase) == Slots(gates)
    ensures t.renewed ==> t.next.phrase == CreatePhrase(s.gen, gates, draws).phrase
    ensures t.renewed ==> t.next.gen == CreatePhrase(s.gen, gates, draws).gen
    ensures !t.renewed ==> t.next == s.(loops := s.loops + 1)
    ensures t.next.gen.pool == s.gen.pool
  {
    var attacks := Schedule(s.phrase, time);
    if r < Threshold(s.loops) then
      var b := CreatePhrase(s.gen, gates, draws);
      Tick(attacks, LoopState(b.phrase, 0, b.gen), true)
    else
      Tick(attacks, s.(loops := s.loops + 1), false)
  }

  /** A rebuilt phrase keeps slot `i` exactly when the gate lets it through.
      A corollary of the contracts of `Step` and `Slots`, stated for the
      reader in the voice's own terms. */
  lemma RenewedPhraseSlots(s: LoopState, time: real, r: real, gates: seq<real>, draws: seq<real>)
    requires IsDraw(r)
    requires |gates| == SlotCount && |draws| >= SlotCount && AllDraws(draws)
    requires r < Threshold(s.loops)
    ensures var p := Step(s, time, r, gates, draws).next.phrase;
      && SlotsOrdered(Indices(p))
      && forall j :: 0 <= j < SlotCount ==> (j in Indices(p) <==> Kept(j, gates[j]))
  {
  }

  /** What every reachable state of the voice satisfies. */
  predicate Invariant(s: LoopState) {
    && s.loops <= 10
    && SlotsOrdered(Indices(s.phrase))
    && (|s.phrase| > 0 ==> s.gen.last == s.phrase[|s.phrase| - 1].note)
    && (ValidPool(s.gen.pool) ==> WellDrawn(s.phrase, s.gen.pool))
  }

  /** A freshly built phrase, with `phraseLoops = 0`, satisfies the invariant. */
  lemma BuiltEstablishesInvariant(g: Generator, gates: seq<real>, draws: seq<real>)
    requires |gates| == SlotCount && |draws| >= SlotCount && AllDraws(draws)
    ensures var b := CreatePhrase(g, gates, draws);
      Invariant(LoopState(b.phrase, 0, b.gen))
  {
    if ValidPool(g.pool) {
      CreatePhraseNeverRepeats(g, gates, draws);
    }
  }

  lemma StartEstablishesInvariant(pool: seq<Note>, gates: seq<real>, draws: seq<real>)
    requires |gates| == SlotCount && |draws| >= SlotCount && AllDraws(draws)
    ensures Invariant(Start(pool, gates, draws))
  {
    BuiltEstablishesInvariant(Fresh(pool), gates, draws);
  }

  /** The threshold is 0 for a fresh phrase, so a phrase is always played
      at least twice, and it reaches 1 at ten loops, so renewal is certain
      there: `phraseLoops` never exceeds 10. */
  lemma ThresholdBounds(loops: nat)
    ensures loops == 0 ==> Threshold(loops) == 0.0
    ensures loops >= 10 ==> Threshold(loops) >= 1.0
    ensures loops < 10 ==> Threshold(loops) < 1.0
  {
    if loops >= 10 {
      assert loops * loops >= 10 * loops >= 100;
    } else {
      assert loops * loops <= 9 * loops <= 81;
    }
  }

  /** Every run of the callback keeps the invariant: in particular
      `0 <= phraseLoops <= 10`, sorted slots and a phrase without
      neighbouring repeats. */
  lemma StepPreservesInvariant(s: LoopState, time: real, r: real, gates: seq<real>, draws: seq<real>)
    requires Invariant(s) && IsDraw(r)
    requires |gates| == SlotCount && |draws| >= SlotCount && AllDraws(draws)
    ensures Invariant(Step(s, time, r, gates, draws).next)
  {
    var t := Step(s, time, r, gates, draws);
    ThresholdBounds(s.loops);
    if t.renewed {
      var b := CreatePhrase(s.gen, gates, draws);
      BuiltEstablishesInvariant(s.gen, gates, draws);
      assert t.next == LoopState(b.phrase, 0, b.gen);
    } else {
      assert t.next == s.(loops := s.loops + 1);
      assert s.loops < 10;
    }
  }

  /** The first run after a fresh phrase never renews it, and the run at
      ten loops always does. */
  lemma RenewalExtremes(s: LoopState, time: real, r: real, gates: seq<real>, draws: seq<real>)
    requires IsDraw(r)
    requires |gates| == SlotCount && |draws| >= SlotCount && AllDraws(draws)
    ensures s.loops == 0 ==> !Step(s, time, r, gates, draws).renewed
    ensures s.loops == 10 ==> Step(s, time, r, gates, draws).renewed
  {
    ThresholdBounds(s.loops);
  }

  /** Because the generator is shared, a rebuilt phrase never opens with
      the note that closed the phrase it replaces. */
  lemma RenewalAvoidsRepeat(s: LoopState, time: real, r: real, gates: seq<real>, draws: seq<real>)
    requires Invariant(s) && ValidPool(s.gen.pool) && IsDraw(r)
    requires |gates| == SlotCount && |draws| >= SlotCount && AllDraws(draws)
    requires |s.phrase| > 0
    ensures var t := Step(s, time, r, gates, draws);
      t.renewed && |t.next.phrase| > 0 ==>
        t.next.phrase[0].note != s.phrase[|s.phrase| - 1].note
  {
    CreatePhraseNeverRepeats(s.gen, gates, draws);
  }

  /** The attacks of one run come in strictly increasing time order and all
      lie in `[time + 0.95, time + 4.45]`, so they end before the attacks of
      the next run, one `BarPeriod` later, begin. */
  lemma AttacksWithinBar(s: LoopState, time: real, r: real, gates: seq<real>, draws: seq<real>)
    requires Invariant(s) && IsDraw(r)
    requires |gates| == SlotCount && |draws| >= SlotCount && AllDraws(draws)
    ensures var a := Step(s, time, r, gates, draws).attacks;
      && (forall k :: 0 <= k < |a| ==> time + PhraseLeadIn <= a[k].time <= time + PhraseLeadIn + 3.5)
      && (forall x, y :: 0 <= x < y < |a| ==> a[x].time < a[y].time)
      && (forall k :: 0 <= k < |a| ==> a[k].time < time + BarPeriod + PhraseLeadIn)
  {
    var a := Step(s, time, r, gates, draws).attacks;
    forall k | 0 <= k < |a|
      ensures time + PhraseLeadIn <= a[k].time <= time + PhraseLeadIn + 3.5
    {
      assert s.phrase[k].index == Indices(s.phrase)[k] < SlotCount;
    }
    forall x, y | 0 <= x < y < |a|
      ensures a[x].time < a[y].time
    {
      assert Indices(s.phrase)[x] < Indices(s.phrase)[y];
    }
  }
}
