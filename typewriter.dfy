/**
 * The terminal that types its lines out one at a time: mounting it, or
 * handing it new lines, clears what it shows and schedules line idx to
 * appear after idx * 600 ms; the cleanup of that effect cancels every timer
 * it registered.
 *
 * The browser's timers are the sequence `pending`, in the order they fire
 * (their delays strictly increase); timer ids come from a counter.
 */
module Typewriter {

  /** Line idx appears idx * 600 ms after the effect runs: only the first line at once, each next one 600 ms later. */
  function RevealDelay(idx: nat): (d: nat)
    ensures d == 0 <==> idx == 0
    ensures d / 600 == idx && d % 600 == 0
  {
    idx * 600
  }

  /** A registered timer: its id, its delay in ms, and the line it appends when it fires. */
  datatype Reveal = Reveal(id: nat, delay: nat, line: string)

  /** The timers the effect registers for lines[0 .. n-1], ids from firstId. */
  function Schedule(lines: seq<string>, firstId: nat, n: nat): (rs: seq<Reveal>)
    requires n <= |lines|
    ensures |rs| == n
  {
    if n == 0 then []
    else Schedule(lines, firstId, n - 1) + [Reveal(firstId + n - 1, RevealDelay(n - 1), lines[n - 1])]
  }

  /** Timer k of the effect shows line k after k * 600 ms and has id firstId + k. */
  lemma {:induction false} ScheduleAt(lines: seq<string>, firstId: nat, n: nat)
    requires n <= |lines|
    ensures forall k :: 0 <= k < n ==> Schedule(lines, firstId, n)[k] == Reveal(firstId + k, RevealDelay(k), lines[k])
  {
    if n > 0 {
      ScheduleAt(lines, firstId, n - 1);
    }
  }

  /** The delays of the schedule strictly increase, so its timers fire in line order. */
  lemma ScheduleOrdered(lines: seq<string>, firstId: nat, i: nat, j: nat)
    requires i < j < |lines|
    ensures Schedule(lines, firstId, |lines|)[i].delay < Schedule(lines, firstId, |lines|)[j].delay
  {
    ScheduleAt(lines, firstId, |lines|);
  }

  function Ids(rs: seq<Reveal>): (ids: seq<nat>)
    ensures |ids| == |rs|
    ensures forall k :: 0 <= k < |rs| ==> ids[k] == rs[k].id
  {
    if rs == [] then [] else [rs[0].id] + Ids(rs[1..])
  }

  lemma IdsAppend(rs: seq<Reveal>, r: Reveal)
    ensures Ids(rs + [r]) == Ids(rs) + [r.id]
  {
    var l, m := Ids(rs + [r]), Ids(rs) + [r.id];
    assert |l| == |m|;
    forall k | 0 <= k < |l| ensures l[k] == m[k] {
      if k < |rs| { assert (rs + [r])[k] == rs[k]; }
    }
  }

  /** clearTimeout: the pending timers without the one of that id. */
  function CancelId(rs: seq<Reveal>, id: nat): (r: seq<Reveal>)
    ensures forall x :: x in r <==> x in rs && x.id != id
  {
    if rs == [] then []
    else if rs[0].id == id then CancelId(rs[1..], id)
    else [rs[0]] + CancelId(rs[1..], id)
  }

  /** Timer r shows line `pos` at its delay, and its id is recorded. */
  ghost predicate CarriesAt(r: Reveal, lines: seq<string>, pos: nat, ids: seq<nat>)
  {
    pos < |lines| && r.line == lines[pos] && r.delay == RevealDelay(pos) && r.id in ids
  }

  /** The pending timers carry the lines from index `shown` on, in order. */
  ghost predicate Carries(rs: seq<Reveal>, lines: seq<string>, shown: nat, ids: seq<nat>)
  {
    forall j :: 0 <= j < |rs| ==> CarriesAt(rs[j], lines, shown + j, ids)
  }

  /** The effect's schedule carries every line from the first one on. */
  lemma ScheduleCarries(lines: seq<string>, firstId: nat)
    ensures Carries(Schedule(lines, firstId, |lines|), lines, 0, Ids(Schedule(lines, firstId, |lines|)))
  {
    var rs := Schedule(lines, firstId, |lines|);
    ScheduleAt(lines, firstId, |lines|);
    forall j | 0 <= j < |rs| ensures CarriesAt(rs[j], lines, 0 + j, Ids(rs)) {
      assert Ids(rs)[j] == rs[j].id;
    }
  }

  /** Once the first pending timer has fired, the rest carry the lines from one further on. */
  lemma CarriesTail(rs: seq<Reveal>, lines: seq<string>, shown: nat, ids: seq<nat>)
    requires rs != [] && Carries(rs, lines, shown, ids)
    ensures Carries(rs[1..], lines, shown + 1, ids)
  {
    forall j | 0 <= j < |rs[1..]| ensures CarriesAt(rs[1..][j], lines, shown + 1 + j, ids) {
      assert CarriesAt(rs[j + 1], lines, shown + (j + 1), ids);
      assert rs[1..][j] == rs[j + 1];
      assert shown + (j + 1) == shown + 1 + j;
    }
  }

  lemma FirstIsMember(rs: seq<Reveal>)
    ensures rs != [] ==> rs[0] in rs
  {}

  class Terminal {
    /** the lines property */
    var lines: seq<string>
    /** the lines shown so far */
    var displayed: seq<string>
    /** the ids the current effect registered */
    var timeouts: seq<nat>
    /** the timers still to fire, in firing order */
    var pending: seq<Reveal>
    var nextId: nat
    var mounted: bool

    /**
     * What is shown is a prefix of the lines; while mounted the pending
     * timers carry exactly the rest of the lines, in order, each at its
     * delay; after unmounting nothing is pending.
     */
    ghost predicate Valid()
      reads this
    {
      && |displayed| <= |lines| && displayed == lines[..|displayed|]
      && (mounted ==> |displayed| + |pending| == |lines|)
      && (!mounted ==> pending == [])
      && Carries(pending, lines, |displayed|, timeouts)
    }

    constructor (lines: seq<string>)
      ensures Valid() && mounted && this.lines == lines
      ensures displayed == [] && pending == Schedule(lines, 0, |lines|)
    {
      this.lines := lines;
      displayed := [];
      timeouts := [];
      pending := [];
      nextId := 0;
      mounted := true;
      new;
      RunEffect();
    }

    /** The effect body: clear the display, then register one timer per line. */
    method RunEffect()
      requires mounted && pending == []
      modifies this`displayed, this`timeouts, this`pending, this`nextId
      ensures Valid()
      ensures displayed == [] && pending == Schedule(lines, old(nextId), |lines|)
      ensures timeouts == Ids(pending) && nextId == old(nextId) + |lines|
    {
      timeouts := [];
      displayed := [];
      var first := nextId;
      for idx := 0 to |lines|
        invariant displayed == [] && nextId == first + idx
        invariant pending == Schedule(lines, first, idx)
        invariant timeouts == Ids(pending)
      {
        ScheduleLine(first, idx);
      }
      ScheduleCarries(lines, first);
    }

    /** One turn of the effect's loop: register the timer of line idx and record its id. */
    method ScheduleLine(first: nat, idx: nat)
      requires idx < |lines| && nextId == first + idx
      requires pending == Schedule(lines, first, idx) && timeouts == Ids(pending)
      modifies this`timeouts, this`pending, this`nextId
      ensures nextId == first + idx + 1
      ensures pending == Schedule(lines, first, idx + 1) && timeouts == Ids(pending)
    {
      var r := Reveal(nextId, RevealDelay(idx), lines[idx]);
      assert Schedule(lines, first, idx + 1) == pending + [r];
      IdsAppend(pending, r);
      pending := pending + [r];
      timeouts := timeouts + [nextId];
      nextId := nextId + 1;
    }

    /** The earliest pending timer fires and appends its line. */
    method Fire() returns (fired: bool)
      requires Valid()
      modifies this`displayed, this`pending
      ensures Valid()
      ensures fired == (old(pending) != [])
      ensures fired ==> displayed == old(displayed) + [old(pending)[0].line] && pending == old(pending)[1..]
      ensures !fired ==> displayed == old(displayed) && pending == old(pending)
      ensures mounted && pending == [] ==> displayed == lines
    {
      if pending == [] {
        fired := false;
        if mounted {
          assert |displayed| == |lines|;
        }
      } else {
        var n := |displayed|;
        displayed := displayed + [pending[0].line];
        pending := pending[1..];
        fired := true;
        assert displayed == lines[..n + 1];
        CarriesTail(old(pending), lines, n, timeouts);
      }
    }

    /** Time passes until every pending timer has fired. */
    method RunToEnd()
      requires Valid() && mounted
      modifies this`displayed, this`pending
      ensures Valid() && pending == [] && displayed == lines
    {
      while pending != []
        invariant Valid()
        decreases |pending|
      {
        var _ := Fire();
      }
    }

    /** The effect cleanup: clearTimeout on every id the effect registered. */
    method Cleanup()
      requires forall r :: r in pending ==> r.id in timeouts
      modifies this`pending
      ensures pending == []
    {
      for i := 0 to |timeouts|
        invariant forall r :: r in pending ==> r.id in timeouts[i..]
      {
        pending := CancelId(pending, timeouts[i]);
        forall r | r in pending ensures r.id in timeouts[i + 1..] {
          var k :| i <= k < |timeouts| && timeouts[k] == r.id;
          assert k != i;
          assert timeouts[k] == timeouts[i + 1..][k - (i + 1)];
        }
      }
      FirstIsMember(pending);
    }

    /** New lines: the old effect is cleaned up before the new one runs. */
    method SetLines(newLines: seq<string>)
      requires Valid() && mounted
      modifies this`lines, this`displayed, this`timeouts, this`pending, this`nextId
      ensures Valid() && lines == newLines
      ensures displayed == [] && pending == Schedule(newLines, old(nextId), |newLines|)
    {
      CleanupValid();
      lines := newLines;
      RunEffect();
    }

    /** Unmounting runs the cleanup: nothing is left to fire and the display stays as it was. */
    method Unmount()
      requires Valid() && mounted
      modifies this`pending, this`mounted
      ensures Valid() && !mounted && pending == [] && displayed == old(displayed)
    {
      CleanupValid();
      mounted := false;
    }

    method CleanupValid()
      requires Valid()
      modifies this`pending
      ensures pending == []
    {
      forall r | r in pending ensures r.id in timeouts {
        var j :| 0 <= j < |pending| && pending[j] == r;
      }
      Cleanup();
    }
  }
}
