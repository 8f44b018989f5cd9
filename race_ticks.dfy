/** The lanes of a race as values. Both races (part1/Race.java and part2 models/Race.java)
    run the same loop: on every tick, lane after lane, each horse that has neither reached
    the length nor fallen is moved by moveHorse, which takes two draws from Math.random().
    The races prove their loops against these functions whenever no horse stands in two
    lanes; they differ only in the fall probability. */
module RaceTicks {
  /** A lane's horse as the loop sees it: how far it went, whether it fell, and its
      confidence, which a race never changes. */
  datatype Runner = Runner(distance: int, fallen: bool, confidence: real)

  /** raceWonBy: the horse is at or past the length. */
  predicate Reached(r: Runner, length: int) {
    r.distance >= length
  }

  /** The loop's guard for a lane: neither finished nor fallen. */
  predicate Running(r: Runner, length: int) {
    !Reached(r, length) && !r.fallen
  }

  /** moveHorse on a horse that has not fallen: it advances one unit when draw `next` is
      below its confidence, and it is fallen afterwards exactly when draw `next + 1` is
      below the fall probability times its confidence squared. */
  function Move(r: Runner, fallProbability: real, draw: nat -> real, next: nat): Runner {
    Runner(r.distance + (if draw(next) < r.confidence then 1 else 0),
           draw(next + 1) < fallProbability * r.confidence * r.confidence,
           r.confidence)
  }

  /** The lanes' runners and the index of the next draw. */
  datatype Lanes = Lanes(runners: seq<Runner>, next: nat)

  /** One lane of a tick: moved with draws `next` and `next + 1` if running, else kept. */
  function LaneAfter(r: Runner, length: int, fallProbability: real, draw: nat -> real, next: nat): Runner {
    if Running(r, length) then Move(r, fallProbability, draw, next) else r
  }

  /** One lane's step, seen from before and after: the distance grows by at most one, the
      confidence stays, a fall is kept, and a lane that is not running does not change. */
  lemma LaneAfterBounds(r: Runner, length: int, fallProbability: real, draw: nat -> real, next: nat)
    ensures var r' := LaneAfter(r, length, fallProbability, draw, next);
      && r.distance <= r'.distance <= r.distance + 1
      && r'.confidence == r.confidence
      && (r.fallen ==> r'.fallen)
      && (!Running(r, length) ==> r' == r)
      && (r.distance < length ==> r'.distance <= length)
  {
  }

  /** From the lanes `rs` to the lanes `rs'`, as ticks leave them: every distance stays or
      grows, every fall is kept, and a lane that was not running is as it was. */
  predicate Advanced(rs: seq<Runner>, rs': seq<Runner>, length: int) {
    && |rs'| == |rs|
    && forall k :: 0 <= k < |rs| ==>
      && rs[k].distance <= rs'[k].distance
      && (rs[k].fallen ==> rs'[k].fallen)
      && (!Running(rs[k], length) ==> rs'[k] == rs[k])
  }

  /** One lane from `r` to `r'` over one tick: the confidence stays, the distance never
      shrinks, a fall is kept, a lane not running does not change, and a lane short of the
      length ends at most at the length. */
  predicate Stepped(r: Runner, r': Runner, length: int) {
    && r'.confidence == r.confidence && r.distance <= r'.distance && (r.fallen ==> r'.fallen)
    && (!Running(r, length) ==> r' == r)
    && (r.distance < length ==> r'.distance <= length)
  }

  /** Advanced composes: the ticks from `rs` to `rs'` and those from `rs'` to `rs''`
      together advance `rs` to `rs''`. */
  lemma AdvancedTrans(rs: seq<Runner>, rs': seq<Runner>, rs'': seq<Runner>, length: int)
    requires Advanced(rs, rs', length) && Advanced(rs', rs'', length)
    ensures Advanced(rs, rs'', length)
  {
  }

  /** The draws one lane of a tick takes: two if it is running, none otherwise. */
  function DrawsOf(r: Runner, length: int): nat {
    if Running(r, length) then 2 else 0
  }

  /** One pass over the lanes in lane order, the first draw being `next`. */
  function TickLanes(rs: seq<Runner>, length: int, fallProbability: real, draw: nat -> real, next: nat): (t: Lanes)
    ensures |t.runners| == |rs|
  {
    if |rs| == 0 then Lanes([], next)
    else
      var before := TickLanes(rs[..|rs| - 1], length, fallProbability, draw, next);
      var r := rs[|rs| - 1];
      Lanes(before.runners + [LaneAfter(r, length, fallProbability, draw, before.next)],
            before.next + DrawsOf(r, length))
  }

  /** How many lanes are running. */
  function RunningCount(rs: seq<Runner>, length: int): nat {
    if |rs| == 0 then 0
    else RunningCount(rs[..|rs| - 1], length) + (if Running(rs[|rs| - 1], length) then 1 else 0)
  }

  /** A tick takes two draws per running lane. */
  lemma {:induction false} TickLanesDraws(rs: seq<Runner>, length: int, fallProbability: real,
                                          draw: nat -> real, next: nat)
    ensures TickLanes(rs, length, fallProbability, draw, next).next == next + 2 * RunningCount(rs, length)
  {
    if |rs| > 0 {
      TickLanesDraws(rs[..|rs| - 1], length, fallProbability, draw, next);
    }
  }

  /** A tick lane by lane: a lane that is not running keeps its runner, and a running lane
      is moved with the two draws that follow those of the running lanes before it. */
  lemma {:induction false} TickLanesEach(rs: seq<Runner>, length: int, fallProbability: real,
                                         draw: nat -> real, next: nat, k: nat)
    requires k < |rs|
    ensures TickLanes(rs, length, fallProbability, draw, next).runners[k] ==
      LaneAfter(rs[k], length, fallProbability, draw, next + 2 * RunningCount(rs[..k], length))
  {
    var n := |rs| - 1;
    var init := rs[..n];
    if k == n {
      TickLanesDraws(init, length, fallProbability, draw, next);
    } else {
      TickLanesEach(init, length, fallProbability, draw, next, k);
      assert init[..k] == rs[..k];
    }
  }

  /** Every lane has finished or fallen: the completion check passes. */
  predicate Done(rs: seq<Runner>, length: int) {
    forall k :: 0 <= k < |rs| ==> !Running(rs[k], length)
  }

  /** Once every lane has finished or fallen a tick changes nothing and takes no draw. */
  lemma {:induction false} DoneTickIsIdle(rs: seq<Runner>, length: int, fallProbability: real,
                                          draw: nat -> real, next: nat)
    requires Done(rs, length)
    ensures TickLanes(rs, length, fallProbability, draw, next) == Lanes(rs, next)
  {
    if |rs| > 0 {
      var n := |rs| - 1;
      DoneTickIsIdle(rs[..n], length, fallProbability, draw, next);
      assert rs[..n] + [rs[n]] == rs;
    }
  }

  /** What a tick does to one lane, seen from before and after: distance never decreases
      and grows by at most one, a fall is kept, and a lane that is not running does not
      change; so a lane short of the length ends at most at the length. */
  lemma TickStepBounds(rs: seq<Runner>, length: int, fallProbability: real, draw: nat -> real, next: nat)
    ensures forall k :: 0 <= k < |rs| ==>
      var r, r' := rs[k], TickLanes(rs, length, fallProbability, draw, next).runners[k];
      && r.distance <= r'.distance <= r.distance + 1
      && r'.confidence == r.confidence
      && (r.fallen ==> r'.fallen)
      && (!Running(r, length) ==> r' == r)
      && (r.distance < length ==> r'.distance <= length)
  {
    forall k | 0 <= k < |rs| {
      TickLanesEach(rs, length, fallProbability, draw, next, k);
    }
  }

  /** `ticks` ticks of the loop from the runners `rs`, the first draw being `next`. */
  function RunLanes(rs: seq<Runner>, length: int, fallProbability: real, draw: nat -> real,
                    next: nat, ticks: nat): (r: Lanes)
    ensures |r.runners| == |rs|
  {
    if ticks == 0 then Lanes(rs, next)
    else
      var before := RunLanes(rs, length, fallProbability, draw, next, ticks - 1);
      TickLanes(before.runners, length, fallProbability, draw, before.next)
  }

  /** After none of the ticks 1 .. ticks - 1 was every lane finished or fallen: the loop's
      completion check failed each time it ran before the last. */
  predicate UndoneBefore(rs: seq<Runner>, length: int, fallProbability: real, draw: nat -> real,
                         next: nat, ticks: nat)
  {
    forall t :: 1 <= t < ticks ==> !Done(RunLanes(rs, length, fallProbability, draw, next, t).runners, length)
  }

  /** Running one more tick after an undone tick keeps UndoneBefore, and the lanes after it
      are one TickLanes on the lanes before. */
  lemma RunLanesNext(rs: seq<Runner>, length: int, fallProbability: real, draw: nat -> real,
                     next: nat, ticks: nat)
    requires UndoneBefore(rs, length, fallProbability, draw, next, ticks)
    requires ticks > 0 ==> !Done(RunLanes(rs, length, fallProbability, draw, next, ticks).runners, length)
    ensures UndoneBefore(rs, length, fallProbability, draw, next, ticks + 1)
    ensures var before := RunLanes(rs, length, fallProbability, draw, next, ticks);
      RunLanes(rs, length, fallProbability, draw, next, ticks + 1)
        == TickLanes(before.runners, length, fallProbability, draw, before.next)
  {
  }

  /** Distances only grow, so a horse that reached the length stays there, from any tick
      to any later one. */
  lemma {:induction false} ReachedStays(rs: seq<Runner>, length: int, fallProbability: real,
                                        draw: nat -> real, next: nat, t: nat, t': nat, k: nat)
    requires t <= t' && k < |rs|
    ensures RunLanes(rs, length, fallProbability, draw, next, t).runners[k].distance
      <= RunLanes(rs, length, fallProbability, draw, next, t').runners[k].distance
    decreases t' - t
  {
    if t < t' {
      ReachedStays(rs, length, fallProbability, draw, next, t, t' - 1, k);
      var before := RunLanes(rs, length, fallProbability, draw, next, t' - 1);
      TickLanesEach(before.runners, length, fallProbability, draw, before.next, k);
      LaneAfterBounds(before.runners[k], length, fallProbability, draw,
                      before.next + 2 * RunningCount(before.runners[..k], length));
    }
  }

  /** goBackToStart on every lane: distance 0, fall and confidence kept. */
  function ResetLanes(rs: seq<Runner>): (r: seq<Runner>)
    ensures |r| == |rs|
    ensures forall k :: 0 <= k < |rs| ==> r[k] == rs[k].(distance := 0)
  {
    seq(|rs|, k requires 0 <= k < |rs| => rs[k].(distance := 0))
  }
}
