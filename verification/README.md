# Generative playground: the scheduling decisions

This project models the decision logic of the generative piece in
`src/index.js`. Audio comes from Tone.js. The logic below decides which note
plays, which slots a phrase uses, when a phrase is renewed, where the
percussion hits fall in a bar, and when the violin drone adds an
embellishment. Every `Math.random()` value is an explicit `real` argument in
`[0, 1)` (`Common.IsDraw`). Every transport time is an exact `real`. Each
callback is one pure step function from the voice's state to its scheduled
events and next state.

Modules:

- `Common` (common.dfy): `BASE_TIME_UNIT`, the `Option` type that stands for
  JavaScript `undefined`, random draws, and the pick rule
  `Math.floor(Math.random() * length)`.
- `Notes` (notes.dfy): `makeNoteGenerator`. It is an endless stream over the
  tongue-drum pool. Each pick excludes the previous note.
- `Phrases` (phrases.dfy): `createPhrase` and the tongue-drum repeat callback.
  The callback replays the phrase every bar of `8 * BASE_TIME_UNIT`. It
  renews the phrase with probability `phraseLoops² / 100`.
- `Percussion` (percussion.dfy): the hats, kick and snare callbacks. Each
  has fixed offsets after a one-unit lead-in, and some of those offsets are
  gated by a coin.
- `Drone` (drone.dfy): the violin `drone()` call. Its state is the last
  embellishment (A or G) and the time it was played. An embellishment plays
  at most once per 20 time units, and never as A twice in a row.

Behaviour of `src/index.js` worth noting:

- A one-note pool yields `undefined` on every second draw
  (`Notes.SingletonPoolYieldsUndefined`). The generator has no fallback
  that returns the sole note.
- Tongue-drum events are scheduled 0.95 units after the callback time,
  while the percussion voices use a lead-in of one unit.
- The hats callback repeats every `BASE_TIME_UNIT / 2`, a quarter of a unit.

## Model

| member | source | states |
|---|---|---|
| Common.PickIndex | src/index.js:17-18 | For a draw in `[0, 1)`, `floor(r * len)` is a valid index of a non-empty candidate list. For an empty list it is 0, which is out of range. |
| Common.PickReachesEveryIndex | src/index.js:18 | Every index of a non-empty list is picked by some draw in `[0, 1)`. |
| Notes.Fresh | src/index.js:11-12 | A new generator holds the pool and no last note (`lastNote` is `undefined`). |
| Notes.Candidates | src/index.js:14-16 | Every candidate is a pool note other than the last note. If nothing is excluded, the pool is returned unchanged. With distinct keys, at most one note is dropped. |
| Notes.CandidatesKeepOthers | src/index.js:14-16 | Every pool note other than the last note is a candidate, so only the last note is filtered out. |
| Notes.Draw | src/index.js:17-19 | A drawn note is defined exactly when a candidate exists. A defined note is a pool note different from the last one. The value handed out becomes `lastNote`, even when it is `undefined`. |
| Notes.DrawDefined | src/index.js:14-18 | With at least two distinct notes, every draw yields a pool note different from the previous one. |
| Notes.DrawReachesEveryCandidate | src/index.js:14-18 | Every pool note other than the last one is the outcome of some draw. |
| Notes.Run | src/index.js:11-20 | Consecutive `next()` calls yield one value per draw. Afterwards `lastNote` is the last value yielded, and the pool is unchanged. |
| Notes.RunYieldsPoolNotes | src/index.js:11-20 | Over any number of draws from a valid pool, every value handed out is a defined pool note. |
| Notes.RunNeverRepeats | src/index.js:11-20 | Over any number of draws from a valid pool, no two neighbouring values are equal, and the first differs from the note drawn before the run. |
| Notes.SingletonPoolYieldsUndefined | src/index.js:14-18 | A one-note pool yields the note, then `undefined` (no candidate is left), then the note again. |
| Phrases.SlotsBelow | src/index.js:73-74 | The kept slots below `n` are strictly increasing and below `n`, and there are at most `n` of them. Slot `j` is kept exactly when its draw is below `0.5 - (j % 2) * 0.25`. |
| Phrases.Slots | src/index.js:73-74 | The kept slots are strictly increasing within `[0, 8)`. An even slot is kept iff its draw is below 0.5, and an odd slot iff its draw is below 0.25. |
| Phrases.CreatePhrase | src/index.js:72-78 | The phrase's indices are strictly increasing within `[0, 8)`, and slot `j` appears exactly when its gate draw passes. Its notes are the next values of the shared generator, one per kept slot and in slot order. The generator advances by exactly those draws. |
| Phrases.CreatePhraseKeepsGeneratorInStep | src/index.js:72-78 | After a build, the shared generator's `lastNote` is the phrase's last note. An empty phrase leaves the generator untouched. |
| Phrases.CreatePhraseNeverRepeats | src/index.js:70-78 | With a valid pool, every phrase note is a defined pool note and neighbours differ. The first note differs from the note drawn before the phrase. |
| Phrases.Start | src/index.js:80-81 | The voice starts with `phraseLoops = 0` and a phrase whose slots pass the gate. |
| Phrases.Schedule | src/index.js:83-85 | Each phrase entry becomes one attack, in phrase order, with the same note, at `time + 0.95 + index * BASE_TIME_UNIT`. |
| Phrases.Step | src/index.js:82-93 | A run schedules the current phrase. It renews the phrase exactly when the draw is below `phraseLoops² / 100`, and then resets the counter and takes the gated slots. Otherwise it increments `phraseLoops` and changes nothing else. |
| Phrases.RenewedPhraseSlots | src/index.js:86-89 | A renewed phrase has strictly increasing slots in `[0, 8)`, exactly those whose gate draw passes. |
| Phrases.BuiltEstablishesInvariant | src/index.js:86-89 | A freshly built phrase with the counter at 0 satisfies the voice invariant. |
| Phrases.StartEstablishesInvariant | src/index.js:80-81 | The initial state satisfies the voice invariant: counter at most 10, sorted slots, generator in step with the phrase and, with a valid pool, no neighbouring repeats. |
| Phrases.ThresholdBounds | src/index.js:86 | The renewal threshold is 0 at zero loops, below 1 under ten loops, and at least 1 from ten loops on. |
| Phrases.StepPreservesInvariant | src/index.js:86-92 | Every run keeps `0 <= phraseLoops <= 10`, sorted slots, the generator in step with the phrase and, with a valid pool, a phrase without neighbouring repeats. |
| Phrases.RenewalExtremes | src/index.js:86-92 | The run right after a renewal never renews. The run at ten loops always renews. |
| Phrases.RenewalAvoidsRepeat | src/index.js:86-89 | Because the generator is shared, a rebuilt phrase never opens with the note that closed the phrase it replaces. |
| Phrases.AttacksWithinBar | src/index.js:82-93 | The attacks of one run are in strictly increasing time order. They lie in `[time + 0.95, time + 4.45]`, so they end before the next run's attacks, one bar later, begin. |
| Percussion.Hats | src/index.js:107-112 | Hits are ascending, at offsets {0, 0.125} after `time + 1`, within one hats period, and at velocity 0.1. The downbeat always sounds. The second hit sounds iff the draw is below 0.1. |
| Percussion.Kicks | src/index.js:119-128 | Hits are ascending, at offsets {0, 0.5, 3.5} after `time + 1`, within one bar, and at velocity 0.25. The downbeat always sounds. Each extra hit sounds iff its own draw is below 0.2. |
| Percussion.Snare | src/index.js:135-144 | Hits are ascending, at offsets {1.625, 2, 3.75, 3.875} after `time + 1`, within one bar, and at velocity 0.25. The backbeat at 2 always sounds. The ghost hit sounds iff its draw is below 0.33. The closing pair sounds iff its draw is below 0.1. |
| Percussion.ConsecutiveRunsDoNotInterleave | src/index.js:107-144 | Hits of one callback all precede the hits of the callback one period later. |
| Drone.Choose | src/index.js:171 | The embellishment is A or G. After an A it is always G. It is A exactly when the last one was G and the draw is at least 0.6. |
| Drone.Start | src/index.js:157-158 | The voice starts remembering A as its last embellishment, timed at the start. |
| Drone.Step | src/index.js:160-179 | C4 always plays, and the re-arm delay is in `[0, 10)`. An embellishment fires iff at least 20 units have passed and the gate draw is at least 0.7. When none fires, the state is unchanged. When one fires, the note is A exactly when the last one was G and the choice draw is at least 0.6, otherwise G. The state records that note and `now`, X4 plays, and X5 follows iff the octave draw is below 0.2. |
| Drone.Run | src/index.js:160-179 | Successive calls yield at most one embellishment each, with its time. When the first call fires, the trace opens with the note `Choose` picks, at that call's time. Afterwards the state remembers the last embellishment and its time, or is unchanged when none fired. |
| Drone.NeverTwoAs | src/index.js:157-172 | Over any run of calls, the embellishments (after the remembered one) are A or G, and two As are never adjacent. |
| Drone.FirstExtraIsG | src/index.js:157-171 | Since the voice starts remembering A, its first embellishment is G. |
| Drone.CooldownRespected | src/index.js:158-172 | Whatever the clock readings, embellishments are at least 20 units apart. The first comes at least 20 units after the remembered time. |
| Drone.TimesFromInputs | src/index.js:167-172 | With a clock that never goes backwards, no embellishment is timed before the first call's clock reading. |

## Left out

- The Tone.js audio graph is not modelled: compressor, auto-filter, gains, buffer sources, `connect`/`toDestination` (src/index.js:23-58, 96-101, 183-188). It is library plumbing with no decision logic.
- Sample loading and the `Promise.all` start gate are not modelled (src/index.js:60-66, 103-105, 147-149, 151-154). They are asynchronous I/O.
- The `activeSources` list in `createPercussionInstrument` is not modelled. Nothing is ever added to it, so `dispose` does nothing.
- The panner and synth callback is not modelled (src/index.js:190-195). It is floating-point ramping of an external parameter.
- `console.log` calls are not modelled.
- The self-rescheduling chains (`scheduleRepeat`, `scheduleOnce`) are each modelled as one step function. The drone's re-arm delay is returned as a value and never executed. The infinite loop is not modelled.
- The contents of the tongue-drum sample map are not part of this model. The pool is a parameter, and `Notes.ValidPool` states what the no-repeat results need: at least two distinct keys.
- Times and probabilities are exact reals. JavaScript's binary floating point rounds, for example `0.95`; that rounding is not modelled.
- Randomness is a parameter. Each call receives all the draws it might use, and ignores those that short-circuiting skips. The draw stream's shared order across voices is not modelled.
- Only the tongue-drum note and time reach `triggerAttack` in the model. The sampler's default velocity and its pitch shift are not modelled.
- The drone reads `Tone.now()` twice (lines 167 and 172). The model uses one reading per call.
- Notes.Draw: states which notes can be drawn and that every candidate is reachable, but not that the pick is uniform. Probabilities are outside a deterministic model.
- Loop boundaries: the phrase is replayed on every loop, so the last note of one loop may equal the first note of the next. The no-repeat results cover neighbours within a phrase and across a renewal only.
