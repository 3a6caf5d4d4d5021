/** The tongue-drum note generator (`makeNoteGenerator`): an endless
    stream that never hands out the note it handed out last time. */
module Notes {
  import opened Common

  type Note = string

  /** The generator's closure: the tongue-drum sample keys and `lastNote`. */
  datatype Generator = Generator(pool: seq<Note>, last: Option<Note>)

  /** One value of `noteGenerator.next()` and the generator after it. */
  datatype Drawn = Drawn(note: Option<Note>, next: Generator)

  /** Several consecutive values and the generator after them. */
  datatype Drawing = Drawing(notes: seq<Option<Note>>, next: Generator)

  /** A pool for which the no-repeat rule always leaves a candidate:
      `Object.keys` yields distinct names, and there are at least two. */
  predicate ValidPool(pool: seq<Note>) {
    |pool| >= 2 && Distinct(pool)
  }

  /** The generator as it is created: nothing drawn yet. */
  function Fresh(pool: seq<Note>): (g: Generator)
    ensures g.pool == pool && g.last.None?
  {
    Generator(pool, None)
  }

  /** `potentialNotes`: the pool in order, without the last note. */
  function Candidates(pool: seq<Note>, last: Option<Note>): (c: seq<Note>)
    ensures forall n :: n in c ==> n in pool && Some(n) != last
    ensures |c| <= |pool|
    ensures (forall k :: 0 <= k < |pool| ==> Some(pool[k]) != last) ==> c == pool
    ensures Distinct(pool) ==> |c| >= |pool| - 1
  {
    if |pool| == 0 then []
    else
      var rest := Candidates(pool[1..], last);
      assert forall n :: n in pool <==> n == pool[0] || n in pool[1..];
      if Some(pool[0]) != last then
        [pool[0]] + rest
      else
        assert Distinct(pool) ==>
            forall k :: 0 <= k < |pool[1..]| ==> Some(pool[1..][k]) != last by {
          if Distinct(pool) {
            forall k | 0 <= k < |pool[1..]|
              ensures Some(pool[1..][k]) != last
            {
              assert pool[1..][k] == pool[k + 1];
              assert pool[0] != pool[k + 1];
            }
          }
        }
        rest
  }

  /** Only the last note is filtered out: every other pool note stays a
      candidate. */
  lemma {:induction false} CandidatesKeepOthers(pool: seq<Note>, last: Option<Note>, n: Note)
    requires n in pool && Some(n) != last
    ensures n in Candidates(pool, last)
    decreases |pool|
  {
    if pool[0] != n {
      assert n in pool[1..];
      CandidatesKeepOthers(pool[1..], last, n);
    }
  }

  /** One call of `noteGenerator.next()` with `r` the value of
      `Math.random()`: a uniform pick among the candidates, which also
      becomes `lastNote`; `undefined` when no candidate is left. */
  function Draw(g: Generator, r: real): (d: Drawn)
    requires IsDraw(r)
    ensures d.next.pool == g.pool
    ensures d.next.last == d.note
    ensures d.note.Some? <==> |Candidates(g.pool, g.last)| > 0
    ensures d.note.Some? ==> d.note.value in g.pool && d.note != g.last
  {
    var c := Candidates(g.pool, g.last);
    var i := PickIndex(r, |c|);
    var note := if i < |c| then Some(c[i]) else None;
    Drawn(note, Generator(g.pool, note))
  }

  /** The pick is over all candidates: every pool note other than the last
      one is the outcome of some draw. */
  lemma DrawReachesEveryCandidate(g: Generator, n: Note)
    requires n in g.pool && Some(n) != g.last
    ensures exists r :: IsDraw(r) && Draw(g, r).note == Some(n)
  {
    var c := Candidates(g.pool, g.last);
    CandidatesKeepOthers(g.pool, g.last, n);
    var k :| 0 <= k < |c| && c[k] == n;
    PickReachesEveryIndex(k, |c|);
    var r := k as real / |c| as real;
    assert Draw(g, r).note == Some(n);
  }

  /** `|rs|` consecutive calls of `noteGenerator.next()`, one draw each. */
  function Run(g: Generator, rs: seq<real>): (d: Drawing)
    requires AllDraws(rs)
    ensures |d.notes| == |rs|
    ensures d.next.pool == g.pool
    ensures |rs| > 0 ==> d.next.last == d.notes[|rs| - 1]
    ensures |rs| == 0 ==> d.next == g
    decreases |rs|
  {
    if |rs| == 0 then Drawing([], g)
    else
      var first := Draw(g, rs[0]);
      var rest := Run(first.next, rs[1..]);
      Drawing([first.note] + rest.notes, rest.next)
  }

  /** With a valid pool every draw yields a pool note different from the
      one before it. */
  lemma DrawDefined(g: Generator, r: real)
    requires ValidPool(g.pool) && IsDraw(r)
    ensures Draw(g, r).note.Some?
    ensures Draw(g, r).note.value in g.pool
    ensures Draw(g, r).note != g.last
  {
    assert |Candidates(g.pool, g.last)| >= 1;
  }

  /** Defined pool notes without neighbouring repeats. */
  predicate NoRepeatNotes(notes: seq<Option<Note>>, pool: seq<Note>) {
    && (forall k :: 0 <= k < |notes| ==> notes[k].Some? && notes[k].value in pool)
    && NoAdjacentRepeat(notes)
  }

  /** Such notes, the first of which differs from `before`. */
  predicate NoRepeatStream(notes: seq<Option<Note>>, pool: seq<Note>, before: Option<Note>) {
    NoRepeatNotes(notes, pool) && (|notes| > 0 ==> notes[0] != before)
  }

  /** Over any number of draws from a valid pool, every value handed out
      is a defined pool note. */
  lemma {:induction false} RunYieldsPoolNotes(g: Generator, rs: seq<real>)
    requires ValidPool(g.pool) && AllDraws(rs)
    ensures forall k :: 0 <= k < |Run(g, rs).notes| ==>
      Run(g, rs).notes[k].Some? && Run(g, rs).notes[k].value in g.pool
    decreases |rs|
  {
    if |rs| > 0 {
      var first := Draw(g, rs[0]);
      DrawDefined(g, rs[0]);
      RunYieldsPoolNotes(first.next, rs[1..]);
      var rest := Run(first.next, rs[1..]).notes;
      var notes := [first.note] + rest;
      forall k | 0 <= k < |notes|
        ensures notes[k].Some? && notes[k].value in g.pool
      {
        if k > 0 {
          assert notes[k] == rest[k - 1];
        }
      }
    }
  }

  /** The stream never repeats a note back to back, and never repeats the
      note drawn before it started. */
  lemma {:induction false} RunNeverRepeats(g: Generator, rs: seq<real>)
    requires ValidPool(g.pool) && AllDraws(rs)
    ensures NoAdjacentRepeat(Run(g, rs).notes)
    ensures |rs| > 0 ==> Run(g, rs).notes[0] != g.last
    decreases |rs|
  {
    if |rs| > 0 {
      var first := Draw(g, rs[0]);
      DrawDefined(g, rs[0]);
      RunNeverRepeats(first.next, rs[1..]);
      var rest := Run(first.next, rs[1..]).notes;
      var notes := [first.note] + rest;
      forall k | 0 <= k < |notes| - 1
        ensures notes[k] != notes[k + 1]
      {
        if k > 0 {
          assert notes[k] == rest[k - 1] && notes[k + 1] == rest[k];
        }
      }
    }
  }

  /** Both facts together, as the phrase builder uses them. */
  lemma RunIsNoRepeatStream(g: Generator, rs: seq<real>)
    requires ValidPool(g.pool) && AllDraws(rs)
    ensures NoRepeatStream(Run(g, rs).notes, g.pool, g.last)
  {
    RunYieldsPoolNotes(g, rs);
    RunNeverRepeats(g, rs);
  }

  /** The degenerate pool of one note: the second draw finds no candidate
      and yields `undefined`, after which the sole note is drawn again. */
  lemma SingletonPoolYieldsUndefined(n: Note, r1: real, r2: real, r3: real)
    requires IsDraw(r1) && IsDraw(r2) && IsDraw(r3)
    ensures Run(Fresh([n]), [r1, r2, r3]).notes == [Some(n), None, Some(n)]
  {
    var g := Fresh([n]);
    assert Candidates([n], None) == [n];
    var d1 := Draw(g, r1);
    assert d1.note == Some(n);
    assert Candidates([n], Some(n)) == [];
    var d2 := Draw(d1.next, r2);
    assert d2.note == None;
    var d3 := Draw(d2.next, r3);
    assert d3.note == Some(n);
    assert [r1, r2, r3][1..] == [r2, r3];
    assert [r2, r3][1..] == [r3];
    assert [r3][1..] == [];
    assert Run(d3.next, []).notes == [];
    assert Run(d2.next, [r3]).notes == [Some(n)];
    assert Run(d1.next, [r2, r3]).notes == [None, Some(n)];
  }
}
