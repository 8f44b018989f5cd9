/** The race of the graphical simulator (part2 models/Race.java): lanes sized by the
    track, a tick loop like the terminal race's, and a finish order recorded as horses
    reach the track length. Math.random() is a stream of draws and the loop is cut off
    after `maxTicks` ticks, as in Part1Race. */
module RaceModel {
  import opened Common
  import opened TrackModel
  import opened HorseModel
  import opened RaceTicks

  /** The source's `fallProbability`: the fall chance at full confidence. */
  const FallProbability: real := 0.01

  /** A horse falls when its second draw is below 0.01 times its confidence squared. */
  predicate Falls(confidence: real, draw: real) {
    draw < FallProbability * confidence * confidence
  }

  /** With draws from [0, 1) and every lane at confidence 0, a tick changes no lane. */
  lemma {:induction false} ZeroConfidenceTick(rs: seq<Runner>, length: int, draw: nat -> real, next: nat)
    requires forall k :: 0 <= k < |rs| ==> rs[k].confidence == 0.0
    requires forall i :: 0.0 <= draw(i)
    ensures TickLanes(rs, length, FallProbability, draw, next).runners == rs
  {
    if |rs| > 0 {
      var init := rs[..|rs| - 1];
      ZeroConfidenceTick(init, length, draw, next);
      assert init + [rs[|rs| - 1]] == rs;
    }
  }

  /** With draws from [0, 1) and every lane at confidence 0, no tick ever changes a lane, so
      the completion check gives the same answer after every tick: if a lane was running
      at the start, the source's loop never ends. */
  lemma {:induction false} ZeroConfidenceStalls(rs: seq<Runner>, length: int, draw: nat -> real, next: nat, t: nat)
    requires forall k :: 0 <= k < |rs| ==> rs[k].confidence == 0.0
    requires forall i :: 0.0 <= draw(i)
    ensures RunLanes(rs, length, FallProbability, draw, next, t).runners == rs
    ensures Done(RunLanes(rs, length, FallProbability, draw, next, t).runners, length) <==> Done(rs, length)
  {
    if t > 0 {
      ZeroConfidenceStalls(rs, length, draw, next, t - 1);
      var before := RunLanes(rs, length, FallProbability, draw, next, t - 1);
      ZeroConfidenceTick(before.runners, length, draw, before.next);
    }
  }

  // ---- the finish order as values: lanes, in the order the loop appends their horses ----

  /** The lanes whose horses reach the track length during one tick, in lane order: those
      running before the tick and at or past the length after it. */
  function Finishers(before: seq<Runner>, after: seq<Runner>, length: int): seq<nat>
    requires |after| == |before|
  {
    if |before| == 0 then []
    else
      var n := |before| - 1;
      Finishers(before[..n], after[..n], length)
        + (if Running(before[n], length) && Reached(after[n], length) then [n] else [])
  }

  /** A lane is among a tick's finishers exactly when it was running and reached the
      length, and the finishers are listed by increasing lane. */
  lemma {:induction false} FinishersEach(before: seq<Runner>, after: seq<Runner>, length: int)
    requires |after| == |before|
    ensures forall k :: 0 <= k < |before| ==>
      (k in Finishers(before, after, length) <==> Running(before[k], length) && Reached(after[k], length))
    ensures forall p, q :: 0 <= p < q < |Finishers(before, after, length)| ==>
      Finishers(before, after, length)[p] < Finishers(before, after, length)[q]
    ensures forall j :: 0 <= j < |Finishers(before, after, length)| ==> Finishers(before, after, length)[j] < |before|
  {
    if |before| > 0 {
      var n := |before| - 1;
      FinishersEach(before[..n], after[..n], length);
    }
  }

  /** A run of the lanes: the runners after each number of ticks. */
  type Run = nat -> seq<Runner>

  /** The run of this race's loop from the runners `rs`, the first draw being `next`. */
  function RunOf(rs: seq<Runner>, length: int, draw: nat -> real, next: nat): Run {
    (t: nat) => RunLanes(rs, length, FallProbability, draw, next, t).runners
  }

  /** Every tick of the run has n lanes. */
  ghost predicate HasLanes(run: Run, n: nat) {
    forall t :: |run(t)| == n
  }

  /** How lanes may change from one tick to the next: a lane that is not running keeps its
      runner, and no distance shrinks. */
  ghost predicate Steps(run: Run, n: nat, length: int)
    requires HasLanes(run, n)
  {
    forall t: nat, k :: 0 <= k < n ==> StepOk(run, n, length, t, k)
  }

  /** Lane k from tick t to the next: unchanged unless it was running, and no shorter. */
  ghost predicate StepOk(run: Run, n: nat, length: int, t: nat, k: nat)
    requires HasLanes(run, n) && k < n
  {
    (!Running(run(t)[k], length) ==> run(t + 1)[k] == run(t)[k]) && run(t)[k].distance <= run(t + 1)[k].distance
  }

  /** One lane over one tick of the loop: a lane that is not running does not change, and
      no distance shrinks. */
  lemma RunLaneStep(rs: seq<Runner>, length: int, draw: nat -> real, next: nat, t: nat, k: nat)
    requires k < |rs|
    ensures var before, after := RunLanes(rs, length, FallProbability, draw, next, t).runners[k],
                                 RunLanes(rs, length, FallProbability, draw, next, t + 1).runners[k];
      (!Running(before, length) ==> after == before) && before.distance <= after.distance
  {
    var before := RunLanes(rs, length, FallProbability, draw, next, t);
    TickLanesEach(before.runners, length, FallProbability, draw, before.next, k);
    LaneAfterBounds(before.runners[k], length, FallProbability, draw,
                    before.next + 2 * RunningCount(before.runners[..k], length));
  }

  /** The loop's run has the lanes it started with and changes them only as Steps allows. */
  lemma RunOfSteps(rs: seq<Runner>, length: int, draw: nat -> real, next: nat)
    ensures HasLanes(RunOf(rs, length, draw, next), |rs|)
    ensures Steps(RunOf(rs, length, draw, next), |rs|, length)
  {
    var run := RunOf(rs, length, draw, next);
    forall t: nat, k | 0 <= k < |rs|
      ensures StepOk(run, |rs|, length, t, k)
    {
      RunLaneStep(rs, length, draw, next, t, k);
      assert run(t) == RunLanes(rs, length, FallProbability, draw, next, t).runners;
      assert run(t + 1) == RunLanes(rs, length, FallProbability, draw, next, t + 1).runners;
    }
  }

  /** One tick of a run, as Steps says, at tick t and lane k. */
  lemma StepAt(run: Run, n: nat, length: int, t: nat, k: nat)
    requires HasLanes(run, n) && Steps(run, n, length) && t > 0 && k < n
    ensures (!Running(run(t - 1)[k], length) ==> run(t)[k] == run(t - 1)[k])
    ensures run(t - 1)[k].distance <= run(t)[k].distance
  {
    var p: nat := t - 1;
    assert p + 1 == t;
    assert StepOk(run, n, length, p, k);
  }

  /** The finish order after `ticks` ticks of a run: the lanes finishing in each tick,
      after those of the ticks before. */
  ghost function FinishOrder(run: Run, n: nat, length: int, ticks: nat): seq<nat>
    requires HasLanes(run, n)
  {
    if ticks == 0 then []
    else FinishOrder(run, n, length, ticks - 1) + Finishers(run(ticks - 1), run(ticks), length)
  }

  /** The finish order only grows from tick to tick. */
  lemma {:induction false} FinishOrderGrows(run: Run, n: nat, length: int, t: nat, t': nat)
    requires HasLanes(run, n) && t <= t'
    ensures FinishOrder(run, n, length, t) <= FinishOrder(run, n, length, t')
    decreases t' - t
  {
    if t < t' {
      FinishOrderGrows(run, n, length, t, t' - 1);
    }
  }

  /** Every entry of the finish order is a lane. */
  lemma {:induction false} FinishOrderInLanes(run: Run, n: nat, length: int, t: nat)
    requires HasLanes(run, n)
    ensures forall j :: 0 <= j < |FinishOrder(run, n, length, t)| ==> FinishOrder(run, n, length, t)[j] < n
  {
    if t > 0 {
      FinishOrderInLanes(run, n, length, t - 1);
      FinishersEach(run(t - 1), run(t), length);
    }
  }

  /** Starting with no horse at the length, the finish order after any number of ticks
      holds exactly the lanes whose horses reached the length, each once. */
  lemma {:induction false} FinishOrderIsReached(run: Run, n: nat, length: int, t: nat)
    requires HasLanes(run, n) && Steps(run, n, length)
    requires forall k :: 0 <= k < n ==> !Reached(run(0)[k], length)
    ensures forall k :: 0 <= k < n ==> (k in FinishOrder(run, n, length, t) <==> Reached(run(t)[k], length))
    ensures NoDuplicates(FinishOrder(run, n, length, t))
  {
    if t > 0 {
      FinishOrderIsReached(run, n, length, t - 1);
      var before, after := run(t - 1), run(t);
      FinishersEach(before, after, length);
      forall k | 0 <= k < n
        ensures (!Running(before[k], length) ==> after[k] == before[k]) && before[k].distance <= after[k].distance
      {
        StepAt(run, n, length, t, k);
      }
      var earlier, fin := FinishOrder(run, n, length, t - 1), Finishers(before, after, length);
      assert FinishOrder(run, n, length, t) == earlier + fin;
      FinishOrderInLanes(run, n, length, t - 1);
      assert forall j :: 0 <= j < |fin| ==> fin[j] !in earlier;
    }
  }

  /** Once the finish order has a first lane, that lane has reached the length, and it
      had at the tick before as well. */
  lemma WinnerAlreadyIn(run: Run, n: nat, length: int, t: nat)
    requires HasLanes(run, n) && Steps(run, n, length)
    requires forall k :: 0 <= k < n ==> !Reached(run(0)[k], length)
    requires t > 0 && FinishOrder(run, n, length, t - 1) != []
    ensures var w := FinishOrder(run, n, length, t - 1)[0];
      w < n && Reached(run(t - 1)[w], length) && Reached(run(t)[w], length)
  {
    var w := FinishOrder(run, n, length, t - 1)[0];
    FinishOrderInLanes(run, n, length, t - 1);
    FinishOrderIsReached(run, n, length, t - 1);
    assert w in FinishOrder(run, n, length, t - 1);
    StepAt(run, n, length, t, w);
  }

  /** While the finish order is empty no horse has reached the length. */
  lemma NobodyReachedYet(run: Run, n: nat, length: int, t: nat, t': nat, k: nat)
    requires HasLanes(run, n) && Steps(run, n, length)
    requires forall k :: 0 <= k < n ==> !Reached(run(0)[k], length)
    requires FinishOrder(run, n, length, t) == [] && t' <= t && k < n
    ensures !Reached(run(t')[k], length)
  {
    FinishOrderGrows(run, n, length, t', t);
    FinishOrderIsReached(run, n, length, t');
  }

  /** In a tick that starts with no horse at the length, the first finisher has reached
      the length and no lower lane has. */
  lemma FirstFinisher(before: seq<Runner>, after: seq<Runner>, length: int, k: nat)
    requires |after| == |before| && k < |before|
    requires forall j :: 0 <= j < |before| ==> !Reached(before[j], length)
    requires forall j :: 0 <= j < |before| ==> !Running(before[j], length) ==> after[j] == before[j]
    requires Finishers(before, after, length) != []
    ensures var w := Finishers(before, after, length)[0];
      w < |before| && Reached(after[w], length) && (k < w ==> !Reached(after[k], length))
  {
    var fin := Finishers(before, after, length);
    FinishersEach(before, after, length);
    assert fin[0] in fin;
    forall j | 0 <= j < |fin|
      ensures fin[0] <= fin[j]
    {
    }
  }

  /** In the first tick with finishers, the first of them has reached the length and no
      lower lane has. */
  lemma WinnerOfFirstTick(run: Run, n: nat, length: int, t: nat, k: nat)
    requires HasLanes(run, n) && Steps(run, n, length)
    requires forall k :: 0 <= k < n ==> !Reached(run(0)[k], length)
    requires t > 0 && FinishOrder(run, n, length, t - 1) == [] && k < n
    requires Finishers(run(t - 1), run(t), length) != []
    ensures var w := Finishers(run(t - 1), run(t), length)[0];
      w < n && Reached(run(t)[w], length) && (k < w ==> !Reached(run(t)[k], length))
  {
    var before, after := run(t - 1), run(t);
    forall j | 0 <= j < n
      ensures !Reached(before[j], length)
      ensures !Running(before[j], length) ==> after[j] == before[j]
    {
      NobodyReachedYet(run, n, length, t - 1, t - 1, j);
      StepAt(run, n, length, t, j);
    }
    FirstFinisher(before, after, length, k);
  }

  /** The winner claim at one tick t' and one lane k, by induction on the ticks run. */
  lemma {:induction false} WinnerFirstAt(run: Run, n: nat, length: int, t: nat, t': nat, k: nat)
    requires HasLanes(run, n) && Steps(run, n, length)
    requires forall k :: 0 <= k < n ==> !Reached(run(0)[k], length)
    requires FinishOrder(run, n, length, t) != [] && t' <= t && k < n
    ensures FinishOrder(run, n, length, t)[0] < n
    ensures Reached(run(t')[k], length) ==> Reached(run(t')[FinishOrder(run, n, length, t)[0]], length)
    ensures 1 <= t' && k < FinishOrder(run, n, length, t)[0] && Reached(run(t')[k], length) ==>
      Reached(run(t' - 1)[FinishOrder(run, n, length, t)[0]], length)
  {
    var earlier := FinishOrder(run, n, length, t - 1);
    var fin := Finishers(run(t - 1), run(t), length);
    assert FinishOrder(run, n, length, t) == earlier + fin;
    FinishOrderInLanes(run, n, length, t);
    if earlier != [] {
      assert FinishOrder(run, n, length, t)[0] == earlier[0];
      if t' < t {
        WinnerFirstAt(run, n, length, t - 1, t', k);
      } else {
        assert t' == t;
        WinnerAlreadyIn(run, n, length, t);
      }
    } else {
      assert FinishOrder(run, n, length, t)[0] == fin[0];
      if t' < t {
        NobodyReachedYet(run, n, length, t - 1, t', k);
        assert !Reached(run(t')[k], length);
      } else {
        assert t' == t;
        WinnerOfFirstTick(run, n, length, t, k);
      }
    }
  }

  /** Starting with no horse at the length, the first lane of the finish order, the
      winner, finished first: at any tick at which some horse had reached the length the
      winner had too, and a lower lane that reached the length at some tick did so only
      after the winner already had (ties within a tick go to the lower lane). */
  lemma WinnerFinishedFirst(run: Run, n: nat, length: int, t: nat)
    requires HasLanes(run, n) && Steps(run, n, length)
    requires forall k :: 0 <= k < n ==> !Reached(run(0)[k], length)
    requires FinishOrder(run, n, length, t) != []
    ensures FinishOrder(run, n, length, t)[0] < n
    ensures forall t', k :: 0 <= t' <= t && 0 <= k < n && Reached(run(t')[k], length) ==>
      Reached(run(t')[FinishOrder(run, n, length, t)[0]], length)
    ensures forall t', k ::
      1 <= t' <= t && 0 <= k < FinishOrder(run, n, length, t)[0] && Reached(run(t')[k], length) ==>
      Reached(run(t' - 1)[FinishOrder(run, n, length, t)[0]], length)
  {
    FinishOrderInLanes(run, n, length, t);
    var w := FinishOrder(run, n, length, t)[0];
    forall t', k | 0 <= t' <= t && 0 <= k < n
      ensures Reached(run(t')[k], length) ==> Reached(run(t')[w], length)
      ensures 1 <= t' && k < w && Reached(run(t')[k], length) ==> Reached(run(t' - 1)[w], length)
    {
      WinnerFirstAt(run, n, length, t, t', k);
    }
  }

  /** In a tick, the finishers among the first i + 1 lanes are those among the first i,
      then lane i if it was running and has reached the length. */
  lemma TickFinishersStep(rs: seq<Runner>, length: int, draw: nat -> real, first: nat, i: nat)
    requires i < |rs|
    ensures var before := TickLanes(rs[..i], length, FallProbability, draw, first);
      var after := TickLanes(rs[..i + 1], length, FallProbability, draw, first);
      && after.runners == before.runners + [LaneAfter(rs[i], length, FallProbability, draw, before.next)]
      && after.next == before.next + DrawsOf(rs[i], length)
      && Finishers(rs[..i + 1], after.runners, length)
           == Finishers(rs[..i], before.runners, length)
              + (if Running(rs[i], length) && Reached(after.runners[i], length) then [i] else [])
  {
    assert rs[..i + 1][..i] == rs[..i];
    var after := TickLanes(rs[..i + 1], length, FallProbability, draw, first);
    assert after.runners[..i] == TickLanes(rs[..i], length, FallProbability, draw, first).runners;
  }

  /** Part way through a tick from the lanes `s0` with first draw `first`: the lanes `cur`
      hold TickLanes' result on the first i lanes and the old runners on the rest, and
      `next` is the draw TickLanes on the first i lanes stops at. */
  predicate TickedLanes(s0: seq<Runner>, cur: seq<Runner>, length: int, draw: nat -> real, first: nat, i: nat, next: nat) {
    && |cur| == |s0| && i <= |s0|
    && (forall k :: 0 <= k < i ==> cur[k] == TickLanes(s0[..i], length, FallProbability, draw, first).runners[k])
    && (forall k :: i <= k < |s0| ==> cur[k] == s0[k])
    && next == TickLanes(s0[..i], length, FallProbability, draw, first).next
  }

  /** Moving lane i as LaneAfter says, and nothing else, carries a tick from the first i
      lanes to the first i + 1. */
  lemma TickedLanesStep(s0: seq<Runner>, cur: seq<Runner>, cur': seq<Runner>, length: int, draw: nat -> real,
                        first: nat, i: nat, next: nat)
    requires TickedLanes(s0, cur, length, draw, first, i, next) && i < |s0| && |cur'| == |cur|
    requires cur'[i] == LaneAfter(cur[i], length, FallProbability, draw, next)
    requires forall k :: 0 <= k < |cur| && k != i ==> cur'[k] == cur[k]
    ensures TickedLanes(s0, cur', length, draw, first, i + 1, next + DrawsOf(cur[i], length))
  {
    TickFinishersStep(s0, length, draw, first, i);
  }

  /** `horses` are the horses of the lanes `ls` listed in `order`, in that order. */
  predicate ListsLanes(ls: seq<Horse?>, horses: seq<Horse>, order: seq<nat>) {
    |horses| == |order| && forall j :: 0 <= j < |order| ==> order[j] < |ls| && horses[j] == ls[order[j]]
  }

  /** Listing lanes one after the other lists their horses one after the other. */
  lemma ListsLanesAppend(ls: seq<Horse?>, horses: seq<Horse>, order: seq<nat>, more: seq<Horse>, moreOrder: seq<nat>)
    requires ListsLanes(ls, horses, order) && ListsLanes(ls, more, moreOrder)
    ensures ListsLanes(ls, horses + more, order + moreOrder)
  {
    forall j | |order| <= j < |order| + |moreOrder|
      ensures (order + moreOrder)[j] == moreOrder[j - |order|] && (horses + more)[j] == more[j - |order|]
    {
    }
  }

  /** TickedLanes, and the horses added to the finish order `order` after position `done`
      are those of the finishers among the first i lanes of `ls`. */
  predicate TickedAt(s0: seq<Runner>, cur: seq<Runner>, ls: seq<Horse?>, order: seq<Horse>, done: nat, length: int,
                     draw: nat -> real, first: nat, i: nat, next: nat)
  {
    && TickedLanes(s0, cur, length, draw, first, i, next)
    && done <= |order|
    && ListsLanes(ls, order[done..], Finishers(s0[..i], TickLanes(s0[..i], length, FallProbability, draw, first).runners, length))
  }

  /** Moving lane i, whose horse is h, as LaneAfter says and nothing else, and adding h
      when it was running and has reached the length, carries TickedAt from the first i
      lanes to the first i + 1. */
  lemma TickedAtStep(s0: seq<Runner>, cur: seq<Runner>, cur': seq<Runner>, ls: seq<Horse?>, order: seq<Horse>,
                     done: nat, h: Horse, length: int, draw: nat -> real, first: nat, i: nat, next: nat)
    requires TickedAt(s0, cur, ls, order, done, length, draw, first, i, next) && i < |s0| && i < |ls| && ls[i] == h
    requires |cur'| == |cur| && cur'[i] == LaneAfter(cur[i], length, FallProbability, draw, next)
    requires forall k :: 0 <= k < |cur| && k != i ==> cur'[k] == cur[k]
    ensures TickedAt(s0, cur', ls, order + (if Running(cur[i], length) && Reached(cur'[i], length) then [h] else []),
                     done, length, draw, first, i + 1, next + DrawsOf(cur[i], length))
  {
    var added := order[done..];
    var extra := if Running(cur[i], length) && Reached(cur'[i], length) then [h] else [];
    assert (order + extra)[done..] == added + extra;
    TickedLanesStep(s0, cur, cur', length, draw, first, i, next);
    TickFinishersStep(s0, length, draw, first, i);
    var fin := Finishers(s0[..i], TickLanes(s0[..i], length, FallProbability, draw, first).runners, length);
    ListsLanesAppend(ls, added, fin, extra,
                     if Running(s0[i], length) && Reached(cur'[i], length) then [i] else []);
  }

  /** What the finish order `order` means for the lanes `ls` in the states `rs`: each
      horse at most once and only lane horses; on a positive length, exactly the lane
      horses that reached it; on a non-positive length, nobody (every horse counts as
      finished before moving); and every lane between the start and the length (0 is the
      start, which may lie beyond a non-positive length). */
  ghost predicate StandingsAt(ls: seq<Horse?>, rs: seq<Runner>, order: seq<Horse>, length: int) {
    && |ls| == |rs|
    && NoDuplicates(order)
    && (forall j :: 0 <= j < |order| ==> order[j] in ls)
    && (length <= 0 ==> order == [])
    && (length > 0 ==> forall k :: 0 <= k < |ls| ==> (ls[k] in order <==> Reached(rs[k], length)))
    && (forall k :: 0 <= k < |rs| ==> 0 <= rs[k].distance && (rs[k].distance <= length || rs[k].distance == 0))
  }

  /** Moving the running lane i, whose horse h may stand in other lanes too, keeps
      StandingsAt once h is added to the order on reaching the length; a running horse is
      not in the order yet. */
  lemma StandingsStep(ls: seq<Horse?>, rs: seq<Runner>, rs': seq<Runner>, order: seq<Horse>, length: int,
                      i: nat, h: Horse, draw: nat -> real, next: nat)
    requires StandingsAt(ls, rs, order, length) && i < |ls| && ls[i] == h && |rs'| == |rs|
    requires Running(rs[i], length) && rs'[i] == Move(rs[i], FallProbability, draw, next)
    requires forall k :: 0 <= k < |ls| ==> if ls[k] == h then rs[k] == rs[i] && rs'[k] == rs'[i] else rs'[k] == rs[k]
    ensures h !in order
    ensures StandingsAt(ls, rs', order + (if Reached(rs'[i], length) then [h] else []), length)
    ensures Advanced(rs, rs', length)
    ensures DistinctLanes(ls) ==> forall k :: 0 <= k < |ls| && k != i ==> rs'[k] == rs[k]
  {
    var order' := order + (if Reached(rs'[i], length) then [h] else []);
    forall j | 0 <= j < |order'| ensures order'[j] in ls {
      if j < |order| {
        assert order'[j] == order[j];
      } else {
        assert ls[i] in ls;
      }
    }
  }

  /** Once every lane is ticked, TickedAt says the lanes are TickLanes' result and the
      horses added to the order are those of the tick's finishers. */
  lemma TickedAtDone(s0: seq<Runner>, cur: seq<Runner>, ls: seq<Horse?>, order: seq<Horse>, done: nat, length: int,
                     draw: nat -> real, first: nat, next: nat)
    requires TickedAt(s0, cur, ls, order, done, length, draw, first, |s0|, next)
    ensures cur == TickLanes(s0, length, FallProbability, draw, first).runners
    ensures next == TickLanes(s0, length, FallProbability, draw, first).next
    ensures ListsLanes(ls, order[done..], Finishers(s0, cur, length))
  {
    assert s0[..|s0|] == s0;
  }

  /** The lanes `cur` are where `ticks` ticks from `s0` put them, and no tick before the
      last left every lane finished or fallen. */
  ghost predicate RanLanes(s0: seq<Runner>, cur: seq<Runner>, length: int, draw: nat -> real, ticks: nat) {
    && cur == RunLanes(s0, length, FallProbability, draw, 0, ticks).runners
    && UndoneBefore(s0, length, FallProbability, draw, 0, ticks)
  }

  /** After position `done`, `order` holds the horses of the lanes `ls` that FinishOrder
      lists for `ticks` ticks from `s0`. */
  ghost predicate FinishedInOrderAt(s0: seq<Runner>, ls: seq<Horse?>, order: seq<Horse>, done: nat, length: int,
                                    draw: nat -> real, ticks: nat)
  {
    && HasLanes(RunOf(s0, length, draw, 0), |ls|)
    && done <= |order|
    && ListsLanes(ls, order[done..], FinishOrder(RunOf(s0, length, draw, 0), |ls|, length, ticks))
  }

  /** RanLanes and FinishedInOrderAt for `ticks` ticks, with `next` the next draw. */
  ghost predicate RunSoFarAt(s0: seq<Runner>, cur: seq<Runner>, ls: seq<Horse?>, order: seq<Horse>, done: nat,
                             length: int, draw: nat -> real, ticks: nat, next: nat)
  {
    && RanLanes(s0, cur, length, draw, ticks)
    && next == RunLanes(s0, length, FallProbability, draw, 0, ticks).next
    && FinishedInOrderAt(s0, ls, order, done, length, draw, ticks)
  }

  /** One more tick of the loop, after a tick that left a lane running, extends RanLanes
      and FinishedInOrderAt by one tick when the horses it adds to the order are those of
      the tick's finishers. */
  lemma RunStep(s0: seq<Runner>, cur: seq<Runner>, cur': seq<Runner>, ls: seq<Horse?>, order: seq<Horse>,
                order': seq<Horse>, done: nat, length: int, draw: nat -> real, ticks: nat, next: nat, next': nat)
    requires RanLanes(s0, cur, length, draw, ticks) && next == RunLanes(s0, length, FallProbability, draw, 0, ticks).next
    requires FinishedInOrderAt(s0, ls, order, done, length, draw, ticks)
    requires ticks > 0 ==> !Done(cur, length)
    requires cur' == TickLanes(cur, length, FallProbability, draw, next).runners
    requires next' == TickLanes(cur, length, FallProbability, draw, next).next
    requires order <= order' && ListsLanes(ls, order'[|order|..], Finishers(cur, cur', length))
    ensures RanLanes(s0, cur', length, draw, ticks + 1)
    ensures next' == RunLanes(s0, length, FallProbability, draw, 0, ticks + 1).next
    ensures FinishedInOrderAt(s0, ls, order', done, length, draw, ticks + 1)
  {
    RunLanesNext(s0, length, FallProbability, draw, 0, ticks);
    FinishedInOrderStep(s0, cur, cur', ls, order, order', done, length, draw, ticks);
  }

  /** The finish order of one more tick: the horses added in the tick are those of its
      finishers. */
  lemma FinishedInOrderStep(s0: seq<Runner>, cur: seq<Runner>, cur': seq<Runner>, ls: seq<Horse?>, order: seq<Horse>,
                            order': seq<Horse>, done: nat, length: int, draw: nat -> real, ticks: nat)
    requires cur == RunLanes(s0, length, FallProbability, draw, 0, ticks).runners
    requires cur' == RunLanes(s0, length, FallProbability, draw, 0, ticks + 1).runners
    requires FinishedInOrderAt(s0, ls, order, done, length, draw, ticks)
    requires order <= order' && ListsLanes(ls, order'[|order|..], Finishers(cur, cur', length))
    ensures FinishedInOrderAt(s0, ls, order', done, length, draw, ticks + 1)
  {
    var run := RunOf(s0, length, draw, 0);
    assert run(ticks) == cur;
    assert run(ticks + 1) == cur';
    assert order'[done..] == order[done..] + order'[|order|..];
    ListsLanesAppend(ls, order[done..], FinishOrder(run, |ls|, length, ticks), order'[|order|..], Finishers(cur, cur', length));
  }

  /** No horse stands in two of the lanes `ls`. */
  predicate DistinctLanes(ls: seq<Horse?>) {
    forall i, j :: 0 <= i < j < |ls| ==> ls[i] != ls[j]
  }

  /** A horse as the tick loop sees it. */
  function StateOf(h: Horse): Runner
    reads h
  {
    Runner(h.distance, h.fallen, h.confidence)
  }

  datatype Outcome = NotStarted | OutOfTicks | Finished(ticks: nat)

  class Race {
    const track: Track
    const lanes: array<Horse?>
    var finishOrder: seq<Horse>

    /** One empty lane per lane of the track and an empty finish order. A negative lane
        count makes Java's array allocation throw, so it is excluded. */
    constructor (track: Track)
      requires track.laneCount >= 0
      ensures this.track == track && lanes.Length == track.laneCount && fresh(lanes)
      ensures forall i :: 0 <= i < lanes.Length ==> lanes[i] == null
      ensures finishOrder == []
    {
      this.track := track;
      lanes := new Horse?[track.laneCount](_ => null);
      finishOrder := [];
    }

    /** The horses standing in the lanes. */
    ghost function Horses(): set<Horse>
      reads lanes
    {
      set i | 0 <= i < lanes.Length && lanes[i] != null :: lanes[i]
    }

    /** Every lane holds a horse. */
    predicate Full()
      reads lanes
    {
      forall i :: 0 <= i < lanes.Length ==> lanes[i] != null
    }

    /** raceWonBy: the finish test. A horse that has won is the lane's Reached state, and
        the tick loop leaves it as it is whatever the draws. */
    predicate RaceWonBy(horse: Horse): (won: bool)
      reads track, horse
      ensures won <==> Reached(StateOf(horse), track.length)
      ensures won ==> forall draw: nat -> real, next: nat ::
        LaneAfter(StateOf(horse), track.length, FallProbability, draw, next) == StateOf(horse)
    {
      horse.distance >= track.length
    }

    /** Every lane's horse has reached the track length or fallen. */
    predicate AllDone()
      requires Full()
      reads lanes, Horses(), track
    {
      forall i :: 0 <= i < lanes.Length ==> RaceWonBy(lanes[i]) || lanes[i].fallen
    }

    /** The lanes' horses as the tick loop sees them, lane by lane. */
    ghost function States(): (s: seq<Runner>)
      requires Full()
      reads lanes, Horses()
      ensures |s| == lanes.Length
      ensures forall i :: 0 <= i < lanes.Length ==> s[i] == StateOf(lanes[i])
    {
      seq(lanes.Length, i reads lanes, Horses() requires 0 <= i < lanes.Length && lanes[i] != null => StateOf(lanes[i]))
    }

    /** No horse stands in two lanes. */
    predicate Distinct()
      reads lanes
    {
      DistinctLanes(lanes[..])
    }

    /** The completion check on the horses is the completion check on their states. */
    lemma AllDoneMeans()
      requires Full()
      ensures AllDone() <==> Done(States(), track.length)
    {
      if !AllDone() {
        var i :| 0 <= i < lanes.Length && !(RaceWonBy(lanes[i]) || lanes[i].fallen);
        assert Running(States()[i], track.length);
      }
    }

    /** What the finish order means once a race is under way (StandingsAt on the lanes). */
    ghost predicate Standings()
      requires Full()
      reads this, lanes, Horses(), track
    {
      StandingsAt(lanes[..], States(), finishOrder, track.length)
    }

    /** The race winner announced after the results: the first horse in the finish order. */
    function Winner(): (w: Option<Horse>)
      reads this
      ensures w.Some? <==> finishOrder != []
      ensures w.Some? ==> w.value == finishOrder[0]
    {
      if finishOrder == [] then None else Some(finishOrder[0])
    }

    /** A lane outside 1..lanes.length is refused and nothing changes; otherwise the horse
        takes lane `laneNumber`, replacing any horse there. */
    method AddHorse(horse: Horse, laneNumber: int)
      modifies lanes
      ensures 1 <= laneNumber <= lanes.Length ==> lanes[..] == old(lanes[..])[laneNumber - 1 := horse]
      ensures !(1 <= laneNumber <= lanes.Length) ==> lanes[..] == old(lanes[..])
    {
      if laneNumber < 1 || laneNumber > lanes.Length {
        return;
      }
      lanes[laneNumber - 1] := horse;
    }

    /** moveHorse: as in the terminal race, a standing horse takes two draws, one to
        advance (below its confidence) and one to fall (below 0.01 times its confidence
        squared); a fallen horse takes none. The horse's performance modifiers play no
        part here. */
    method MoveHorse(horse: Horse, draw: nat -> real, next: nat) returns (next': nat)
      modifies horse`distance, horse`fallen
      ensures old(horse.fallen) ==> next' == next && horse.distance == old(horse.distance) && horse.fallen
      ensures !old(horse.fallen) ==>
        next' == next + 2
        && horse.distance == old(horse.distance) + (if draw(next) < horse.confidence then 1 else 0)
        && horse.fallen == Falls(horse.confidence, draw(next + 1))
      ensures horse.confidence == old(horse.confidence) && horse.symbol == old(horse.symbol)
      ensures horse.equipment == old(horse.equipment) && horse.accessories == old(horse.accessories)
    {
      next' := next;
      if !horse.fallen {
        if draw(next') < horse.confidence {
          horse.MoveForward();
        }
        next' := next' + 1;
        if draw(next') < FallProbability * horse.confidence * horse.confidence {
          horse.Fall();
        }
        next' := next' + 1;
      }
    }

    /** One lane of a tick: a horse that has neither finished nor fallen is moved, taking
        the next two draws, and joins the finish order the moment it reaches the track
        length. */
    method MoveLane(i: nat, draw: nat -> real, next: nat) returns (next': nat)
      requires Full() && i < lanes.Length && StandingsAt(lanes[..], States(), finishOrder, track.length)
      modifies this, {lanes[i]}`distance, {lanes[i]}`fallen
      ensures unchanged(track)
      ensures StandingsAt(lanes[..], States(), finishOrder, track.length)
      ensures States()[i] == LaneAfter(old(States())[i], track.length, FallProbability, draw, next)
      ensures next' == next + DrawsOf(old(States())[i], track.length)
      ensures finishOrder == old(finishOrder)
        + (if Running(old(States())[i], track.length) && Reached(States()[i], track.length) then [lanes[i]] else [])
      ensures Advanced(old(States()), States(), track.length)
      ensures Distinct() ==> forall k :: 0 <= k < lanes.Length && k != i ==> States()[k] == old(States())[k]
    {
      next' := next;
      var horse := lanes[i];
      if !RaceWonBy(horse) && !horse.fallen {
        ghost var rs := States();
        next' := MoveRunning(i, draw, next');
        ghost var rs' := States();
        StandingsStep(lanes[..], rs, rs', finishOrder, track.length, i, horse, draw, next);
        if RaceWonBy(horse) && horse !in finishOrder {
          finishOrder := finishOrder + [horse];
        }
        assert States() == rs';
      }
    }

    /** moveHorse on the horse of a running lane, seen on the lanes' states. */
    method MoveRunning(i: nat, draw: nat -> real, next: nat) returns (next': nat)
      requires Full() && i < lanes.Length && Running(StateOf(lanes[i]), track.length)
      modifies {lanes[i]}`distance, {lanes[i]}`fallen
      ensures unchanged(track)
      ensures States()[i] == Move(old(States())[i], FallProbability, draw, next)
      ensures next' == next + 2
      ensures Advanced(old(States()), States(), track.length)
      ensures forall k :: 0 <= k < lanes.Length ==>
        if lanes[k] == lanes[i] then old(States())[k] == old(States())[i] && States()[k] == States()[i]
        else States()[k] == old(States())[k]
    {
      next' := MoveHorse(lanes[i], draw, next);
    }

    /** MoveLane, which keeps the lanes advanced from the tick's start `s0` and, when no
        horse stands in two lanes, carries the tick from the first i lanes to the first
        i + 1. */
    method TickLane(i: nat, draw: nat -> real, next: nat, ghost s0: seq<Runner>, ghost first: nat, ghost done: nat)
      returns (next': nat)
      requires Full() && i < lanes.Length && StandingsAt(lanes[..], States(), finishOrder, track.length)
      requires Advanced(s0, States(), track.length)
      requires Distinct() ==> TickedAt(s0, States(), lanes[..], finishOrder, done, track.length, draw, first, i, next)
      modifies this, {lanes[i]}`distance, {lanes[i]}`fallen
      ensures unchanged(track)
      ensures StandingsAt(lanes[..], States(), finishOrder, track.length)
      ensures old(finishOrder) <= finishOrder
      ensures Advanced(s0, States(), track.length)
      ensures Distinct() ==> TickedAt(s0, States(), lanes[..], finishOrder, done, track.length, draw, first, i + 1, next')
    {
      ghost var cur := States();
      ghost var order := finishOrder;
      next' := MoveLane(i, draw, next);
      AdvancedTrans(s0, cur, States(), track.length);
      if Distinct() {
        TickedAtStep(s0, cur, States(), lanes[..], order, done, lanes[i], track.length, draw, first, i, next);
      }
    }

    /** One pass over the lanes. The finish order only grows and keeps its meaning. When
        no horse stands in two lanes the pass is TickLanes on the lanes' states, and the
        horses it adds to the finish order are those of the tick's Finishers, in lane
        order. */
    method Tick(draw: nat -> real, next: nat) returns (next': nat)
      requires Full() && Standings()
      modifies this, Horses()`distance, Horses()`fallen
      ensures unchanged(track)
      ensures Standings()
      ensures old(finishOrder) <= finishOrder
      ensures Advanced(old(States()), States(), track.length)
      ensures Distinct() ==>
        && States() == TickLanes(old(States()), track.length, FallProbability, draw, next).runners
        && next' == TickLanes(old(States()), track.length, FallProbability, draw, next).next
        && ListsLanes(lanes[..], finishOrder[|old(finishOrder)|..], Finishers(old(States()), States(), track.length))
    {
      ghost var s0 := States();
      ghost var done := |finishOrder|;
      next' := next;
      var i := 0;
      while i < lanes.Length
        invariant 0 <= i <= lanes.Length
        invariant StandingsAt(lanes[..], States(), finishOrder, track.length)
        invariant old(finishOrder) <= finishOrder
        invariant Advanced(s0, States(), track.length)
        invariant Distinct() ==> TickedAt(s0, States(), lanes[..], finishOrder, done, track.length, draw, next, i, next')
      {
        next' := TickLane(i, draw, next', s0, next, done);
        i := i + 1;
      }
      if Distinct() {
        TickedAtDone(s0, States(), lanes[..], finishOrder, done, track.length, draw, next, next');
      }
    }

    /** The lanes are where `ticks` ticks from the states `s0` and the first draw put them,
        and the completion check failed after every earlier tick. */
    ghost predicate RanFor(s0: seq<Runner>, draw: nat -> real, ticks: nat)
      requires Full()
      reads lanes, Horses(), track
    {
      RanLanes(s0, States(), track.length, draw, ticks)
    }

    /** After position `done`, the finish order holds the horses of the lanes FinishOrder
        lists for `ticks` ticks from the states `s0`: by the tick they reached the length,
        and within a tick in lane order. */
    ghost predicate FinishedInOrder(s0: seq<Runner>, draw: nat -> real, ticks: nat, done: nat)
      reads this, lanes, track
    {
      FinishedInOrderAt(s0, lanes[..], finishOrder, done, track.length, draw, ticks)
    }

    /** One round of the loop's tick, carrying RunSoFarAt from one tick to the next. */
    method TickRun(draw: nat -> real, next: nat, ghost s0: seq<Runner>, ghost ticks: nat, ghost done: nat)
      returns (next': nat)
      requires Full() && StandingsAt(lanes[..], States(), finishOrder, track.length)
      requires Distinct() ==>
        RunSoFarAt(s0, States(), lanes[..], finishOrder, done, track.length, draw, ticks, next)
        && (ticks > 0 ==> !Done(States(), track.length))
      modifies this, Horses()`distance, Horses()`fallen
      ensures unchanged(track)
      ensures StandingsAt(lanes[..], States(), finishOrder, track.length)
      ensures old(finishOrder) <= finishOrder
      ensures Advanced(old(States()), States(), track.length)
      ensures Distinct() ==> RunSoFarAt(s0, States(), lanes[..], finishOrder, done, track.length, draw, ticks + 1, next')
    {
      ghost var before := States();
      ghost var order := finishOrder;
      next' := Tick(draw, next);
      if Distinct() {
        RunStep(s0, before, States(), lanes[..], order, finishOrder, done, track.length, draw, ticks, next, next');
      }
    }

    /** One round of the loop: a tick, then the completion check. */
    method TickAndCheck(draw: nat -> real, next: nat, ghost s0: seq<Runner>, ghost ticks: nat, ghost done: nat)
      returns (next': nat, complete: bool)
      requires Full() && StandingsAt(lanes[..], States(), finishOrder, track.length)
      requires Distinct() ==>
        RunSoFarAt(s0, States(), lanes[..], finishOrder, done, track.length, draw, ticks, next)
        && (ticks > 0 ==> !Done(States(), track.length))
      modifies this, Horses()`distance, Horses()`fallen
      ensures unchanged(track)
      ensures StandingsAt(lanes[..], States(), finishOrder, track.length)
      ensures old(finishOrder) <= finishOrder
      ensures complete == AllDone() && complete == Done(States(), track.length)
      ensures Advanced(old(States()), States(), track.length)
      ensures Distinct() ==> RunSoFarAt(s0, States(), lanes[..], finishOrder, done, track.length, draw, ticks + 1, next')
    {
      next' := TickRun(draw, next, s0, ticks, done);
      complete := true;
      var i := 0;
      while i < lanes.Length
        invariant 0 <= i <= lanes.Length
        invariant forall k :: 0 <= k < i ==> RaceWonBy(lanes[k]) || lanes[k].fallen
      {
        if !RaceWonBy(lanes[i]) && !lanes[i].fallen {
          complete := false;
          break;
        }
        i := i + 1;
      }
      AllDoneMeans();
    }

    /** The reset before the first tick: the finish order is cleared and every horse goes
        back to distance 0, fallen flags and everything else kept. */
    method Reset()
      requires Full()
      modifies this, Horses()`distance
      ensures unchanged(track)
      ensures Standings()
      ensures finishOrder == []
      ensures forall i :: 0 <= i < lanes.Length ==>
        && lanes[i].distance == 0 && lanes[i].confidence == old(lanes[i].confidence)
        && lanes[i].symbol == old(lanes[i].symbol) && lanes[i].fallen == old(lanes[i].fallen)
        && lanes[i].equipment == old(lanes[i].equipment) && lanes[i].accessories == old(lanes[i].accessories)
      ensures States() == ResetLanes(old(States()))
    {
      finishOrder := [];
      var i := 0;
      while i < lanes.Length
        invariant 0 <= i <= lanes.Length
        invariant finishOrder == []
        invariant forall k :: 0 <= k < i ==> lanes[k].distance == 0
      {
        assert lanes[i] in Horses();
        lanes[i].GoBackToStart();
        i := i + 1;
      }
      forall h | h in Horses() ensures h.distance == 0 {
        var k :| 0 <= k < lanes.Length && lanes[k] == h;
      }
    }

    /** The loop `while (!raceComplete)`, cut off after maxTicks ticks. It ends complete
        only after at least one tick with every horse finished or fallen; cut off, it has
        run maxTicks ticks and the last check found a horse still running. The finish order
        only grows and keeps its meaning throughout. When no horse stands in two lanes, the
        lanes end as RunLanes says and the horses added to the finish order are those of
        FinishOrder's lanes. */
    method RunTicks(draw: nat -> real, maxTicks: nat, ghost s0: seq<Runner>) returns (ticks: nat, complete: bool)
      requires Full() && Standings() && s0 == States() && finishOrder == []
      modifies this, Horses()`distance, Horses()`fallen
      ensures unchanged(track)
      ensures Standings()
      ensures complete ==> AllDone() && 1 <= ticks <= maxTicks
      ensures !complete ==> ticks == maxTicks && (maxTicks == 0 || !AllDone())
      ensures forall k :: 0 <= k < |s0| ==> s0[k].fallen ==> States()[k].fallen
      ensures Distinct() ==> RanFor(s0, draw, ticks) && FinishedInOrder(s0, draw, ticks, 0)
    {
      assert HasLanes(RunOf(s0, track.length, draw, 0), |s0|);
      complete := false;
      ticks := 0;
      var next := 0;
      while !complete && ticks < maxTicks
        invariant ticks <= maxTicks
        invariant StandingsAt(lanes[..], States(), finishOrder, track.length)
        invariant complete ==> ticks >= 1
        invariant ticks > 0 ==> complete == Done(States(), track.length)
        invariant forall k :: 0 <= k < |s0| ==> s0[k].fallen ==> States()[k].fallen
        invariant Distinct() ==> RunSoFarAt(s0, States(), lanes[..], finishOrder, 0, track.length, draw, ticks, next)
        decreases maxTicks - ticks
      {
        next, complete := TickAndCheck(draw, next, s0, ticks, 0);
        ticks := ticks + 1;
      }
      AllDoneMeans();
    }

    /** The reset and the loop of startRace on full lanes. */
    method ResetAndRun(draw: nat -> real, maxTicks: nat) returns (ticks: nat, complete: bool)
      requires Full()
      modifies this, Horses()`distance, Horses()`fallen
      ensures unchanged(track)
      ensures Standings()
      ensures complete ==> AllDone() && 1 <= ticks <= maxTicks
      ensures !complete ==> ticks == maxTicks && (maxTicks == 0 || !AllDone())
      ensures forall i :: 0 <= i < lanes.Length ==> old(lanes[i].fallen) ==> lanes[i].fallen
      ensures Distinct() ==>
        RanFor(ResetLanes(old(States())), draw, ticks) && FinishedInOrder(ResetLanes(old(States())), draw, ticks, 0)
    {
      ghost var before := States();
      Reset();
      ghost var s0 := States();
      assert s0 == ResetLanes(before);
      ticks, complete := RunTicks(draw, maxTicks, s0);
    }

    /** startRace. Only the finish order and the distances and falls of lane horses change.
        With an empty lane it returns before touching anything. Otherwise the finish order
        is cleared, every horse goes back to distance 0, a fall is kept, and ticks run until
        every horse has finished or fallen; the finish order then holds exactly the horses
        that reached a positive track length, each once. When no horse stands in two lanes,
        the lanes end where RunLanes puts them from the reset lanes, and the finish order is
        FinishOrder's lanes: by the tick in which each reached the length, and within a
        tick in lane order. */
    method StartRace(draw: nat -> real, maxTicks: nat) returns (outcome: Outcome)
      modifies this, Horses()`distance, Horses()`fallen
      ensures unchanged(track)
      ensures !Full() ==> outcome == NotStarted && finishOrder == old(finishOrder)
      ensures !Full() ==> forall i :: 0 <= i < lanes.Length && lanes[i] != null ==>
        && lanes[i].distance == old(lanes[i].distance) && lanes[i].fallen == old(lanes[i].fallen)
        && lanes[i].confidence == old(lanes[i].confidence)
      ensures Full() ==> outcome != NotStarted && Standings()
      ensures Full() ==> forall i :: 0 <= i < lanes.Length ==> old(lanes[i].fallen) ==> lanes[i].fallen
      ensures outcome.OutOfTicks? ==> Full() && (maxTicks == 0 || !AllDone())
      ensures outcome.Finished? ==> Full() && AllDone() && 1 <= outcome.ticks <= maxTicks
      ensures outcome.Finished? && Distinct() ==>
        && RanFor(ResetLanes(old(States())), draw, outcome.ticks)
        && FinishedInOrder(ResetLanes(old(States())), draw, outcome.ticks, 0)
      ensures outcome.OutOfTicks? && Distinct() ==>
        RanFor(ResetLanes(old(States())), draw, maxTicks) && FinishedInOrder(ResetLanes(old(States())), draw, maxTicks, 0)
    {
      var i := 0;
      while i < lanes.Length
        invariant 0 <= i <= lanes.Length
        invariant forall k :: 0 <= k < i ==> lanes[k] != null
      {
        if lanes[i] == null {
          return NotStarted;
        }
        i := i + 1;
      }
      var ticks, complete := ResetAndRun(draw, maxTicks);
      if !complete {
        return OutOfTicks;
      }
      return Finished(ticks);
    }

    /** After a race on a positive length, the results announce no winner exactly when no
        lane horse reached the length, and otherwise a lane horse that did. */
    lemma WinnerReachedLength()
      requires Full() && Standings() && track.length > 0
      ensures Winner().None? <==> forall i :: 0 <= i < lanes.Length ==> !RaceWonBy(lanes[i])
      ensures Winner().Some? ==> Winner().value in Horses() && RaceWonBy(Winner().value)
    {
      if finishOrder != [] {
        assert finishOrder[0] in finishOrder;
      } else {
        forall i | 0 <= i < lanes.Length ensures !RaceWonBy(lanes[i]) {
          assert lanes[i] in Horses();
        }
      }
    }
  }
}
