/** The terminal race (part1/Race.java): a fixed array of lanes, a tick loop that moves
    each horse still running, and the leaderboard printed at the end. Math.random() is a
    stream of draws `draw(0), draw(1), ...` taken in the order the source calls it, and
    the loop, which need not terminate in the source, runs at most `maxTicks` ticks. */
module Part1Race {
  import opened Common
  import opened Part1Horse
  import opened RaceTicks

  /** The source's `fallProbability`: the fall chance at full confidence. */
  const FallProbability: real := 0.1

  /** A horse advances when its first draw is below its confidence. */
  predicate Moves(confidence: real, draw: real) {
    draw < confidence
  }

  /** A horse falls when its second draw is below 0.1 times its confidence squared. */
  predicate Falls(confidence: real, draw: real) {
    draw < FallProbability * confidence * confidence
  }

  /** With draws from [0, 1) and every lane at confidence 0, a tick changes no lane. */
  lemma {:induction false} ZeroConfidenceTick(rs: seq<Runner>, length: int, draw: nat -> real, next: nat)
    requires forall k :: 0 <= k < |rs| ==> rs[k].confidence == 0.0
    requires forall i :: 0.0 <= draw(i)
    ensures TickLanes(rs, length, FallProbability, draw, next).runners == rs
  {
    if |rs| > 0 {
      var init := rs[..|rs| - 1];
      ZeroConfidenceTick(init, length, draw, next);
      assert init + [rs[|rs| - 1]] == rs;
    }
  }

  /** With draws from [0, 1) and every lane at confidence 0, no tick ever changes a lane, so
      the completion check gives the same answer after every tick: if a lane was running
      at the start, the source's loop never ends. */
  lemma {:induction false} ZeroConfidenceStalls(rs: seq<Runner>, length: int, draw: nat -> real, next: nat, t: nat)
    requires forall k :: 0 <= k < |rs| ==> rs[k].confidence == 0.0
    requires forall i :: 0.0 <= draw(i)
    ensures RunLanes(rs, length, FallProbability, draw, next, t).runners == rs
    ensures Done(RunLanes(rs, length, FallProbability, draw, next, t).runners, length) <==> Done(rs, length)
  {
    if t > 0 {
      ZeroConfidenceStalls(rs, length, draw, next, t - 1);
      var before := RunLanes(rs, length, FallProbability, draw, next, t - 1);
      ZeroConfidenceTick(before.runners, length, draw, before.next);
    }
  }

  // ---- the leaderboard: lanes sorted by distance, descending, ties in lane order ----

  /** Lane a is listed before lane b: it went further, or as far from a lower lane. This
      is the order a stable sort by descending distance leaves the lanes in. */
  predicate Before(dist: seq<int>, a: nat, b: nat)
    requires a < |dist| && b < |dist|
  {
    dist[a] > dist[b] || (dist[a] == dist[b] && a < b)
  }

  /** Every entry names a lane and the entries follow the leaderboard order. */
  predicate Ranked(dist: seq<int>, order: seq<nat>) {
    && (forall k :: 0 <= k < |order| ==> order[k] < |dist|)
    && (forall p, q :: 0 <= p < q < |order| ==> Before(dist, order[p], order[q]))
  }

  /** Every lane is listed, and the list is no longer than the lanes. */
  predicate ListsEveryLane(dist: seq<int>, order: seq<nat>) {
    |order| == |dist| && forall l :: 0 <= l < |dist| ==> l in order
  }

  /** Collections.sort with the comparator `compare(h2.distance, h1.distance)`: the
      lanes by descending distance, and, the sort being stable, equal distances in lane
      order. */
  method SortByDistance(dist: seq<int>) returns (order: seq<nat>)
    ensures Ranked(dist, order) && ListsEveryLane(dist, order)
  {
    order := [];
    var i := 0;
    while i < |dist|
      invariant 0 <= i <= |dist|
      invariant |order| == i
      invariant forall k :: 0 <= k < |order| ==> order[k] < i
      invariant forall l :: 0 <= l < i ==> l in order
      invariant Ranked(dist, order)
    {
      var j := |order|;
      while j > 0 && dist[order[j - 1]] < dist[i]
        invariant 0 <= j <= |order|
        invariant forall k :: j <= k < |order| ==> dist[order[k]] < dist[i]
      {
        j := j - 1;
      }
      InsertKeepsRanked(dist, order, i, j);
      InsertKeepsLanes(order, i, j);
      order := order[..j] + [i] + order[j..];
      i := i + 1;
    }
  }

  /** Inserting lane i after the lanes that went at least as far and before those that
      went less far keeps the leaderboard order, provided every lane already listed is
      lower than i. */
  lemma {:induction false} InsertKeepsRanked(dist: seq<int>, order: seq<nat>, i: nat, j: nat)
    requires i < |dist| && j <= |order| && Ranked(dist, order)
    requires forall k :: 0 <= k < |order| ==> order[k] < i
    requires j > 0 ==> dist[order[j - 1]] >= dist[i]
    requires forall k :: j <= k < |order| ==> dist[order[k]] < dist[i]
    ensures Ranked(dist, order[..j] + [i] + order[j..])
  {
    var next := order[..j] + [i] + order[j..];
    assert forall k :: 0 <= k < j ==> next[k] == order[k];
    assert next[j] == i;
    assert forall k :: j < k < |next| ==> next[k] == order[k - 1];
    forall p, q | 0 <= p < q < |next| ensures Before(dist, next[p], next[q]) {
      if q < j {
        assert Before(dist, order[p], order[q]);
      } else if q == j {
        if p < j - 1 {
          assert Before(dist, order[p], order[j - 1]);
        }
      } else if p > j {
        assert Before(dist, order[p - 1], order[q - 1]);
      } else if p < j {
        assert Before(dist, order[p], order[q - 1]);
      }
    }
  }

  /** Inserting i keeps every listed lane listed and adds i. */
  lemma InsertKeepsLanes(order: seq<nat>, i: nat, j: nat)
    requires j <= |order|
    ensures forall l :: l in order[..j] + [i] + order[j..] <==> l in order || l == i
  {
    assert order == order[..j] + order[j..];
  }

  /** The winner announcement: the first lane on the leaderboard whose horse reached the
      race length, or none ("No winners"). */
  method FirstFinisher(order: seq<nat>, dist: seq<int>, raceLength: int) returns (winner: Option<nat>)
    requires forall k :: 0 <= k < |order| ==> order[k] < |dist|
    ensures winner.None? <==> forall k :: 0 <= k < |order| ==> dist[order[k]] < raceLength
    ensures winner.Some? ==>
      exists k :: 0 <= k < |order| && order[k] == winner.value
        && dist[winner.value] >= raceLength
        && forall k' :: 0 <= k' < k ==> dist[order[k']] < raceLength
  {
    winner := None;
    var i := 0;
    while i < |order|
      invariant 0 <= i <= |order|
      invariant forall k :: 0 <= k < i ==> dist[order[k]] < raceLength
    {
      if dist[order[i]] >= raceLength {
        winner := Some(order[i]);
        return;
      }
      i := i + 1;
    }
  }

  /** Lane w went furthest, and of the lanes that went as far it is the lowest. */
  predicate Leads(dist: seq<int>, w: nat)
    requires w < |dist|
  {
    forall l :: 0 <= l < |dist| ==> dist[l] <= dist[w] && (dist[l] == dist[w] ==> w <= l)
  }

  /** What the end of the race announces: no winner exactly when no horse reached the
      race length, otherwise a lane whose horse reached it and leads the field. */
  predicate AnnouncedWinner(dist: seq<int>, raceLength: int, winner: Option<nat>) {
    && (winner.None? <==> forall l :: 0 <= l < |dist| ==> dist[l] < raceLength)
    && (winner.Some? ==> winner.value < |dist| && dist[winner.value] >= raceLength && Leads(dist, winner.value))
  }

  /** On a complete leaderboard the first finisher is its top entry, the leading lane. */
  lemma {:induction false} WinnerLeadsLeaderboard(dist: seq<int>, order: seq<nat>, w: nat, k: nat)
    requires Ranked(dist, order) && ListsEveryLane(dist, order)
    requires k < |order| && order[k] == w
    requires forall k' :: 0 <= k' < k ==> dist[order[k']] < dist[w]
    ensures k == 0 && Leads(dist, w)
  {
    var top := order[0];
    forall l | 0 <= l < |dist| ensures dist[l] <= dist[top] && (dist[l] == dist[top] ==> top <= l) {
      assert l in order;
      var q :| 0 <= q < |order| && order[q] == l;
      if q > 0 {
        assert Before(dist, top, order[q]);
      }
    }
  }

  /** The end of startRace on a snapshot of the distances: the leaderboard lists every
      lane in leaderboard order, and the announced winner is as AnnouncedWinner says. */
  method RankLanes(dist: seq<int>, raceLength: int) returns (leaderboard: seq<nat>, winner: Option<nat>)
    ensures Ranked(dist, leaderboard) && ListsEveryLane(dist, leaderboard)
    ensures AnnouncedWinner(dist, raceLength, winner)
  {
    leaderboard := SortByDistance(dist);
    winner := FirstFinisher(leaderboard, dist, raceLength);
    if winner.Some? {
      var k :| 0 <= k < |leaderboard| && leaderboard[k] == winner.value
        && dist[winner.value] >= raceLength
        && forall k' :: 0 <= k' < k ==> dist[leaderboard[k']] < raceLength;
      WinnerLeadsLeaderboard(dist, leaderboard, winner.value, k);
    } else {
      forall l | 0 <= l < |dist| ensures dist[l] < raceLength {
        assert l in leaderboard;
      }
    }
  }

  /** The result of startRace: refused (an empty lane), cut off after `maxTicks` ticks
      (where the source would keep looping), or finished after `ticks` ticks with the
      leaderboard (lane indices from 0) and the winning lane, if any. */
  datatype Outcome =
    | NotStarted
    | OutOfTicks
    | Finished(ticks: nat, leaderboard: seq<nat>, winner: Option<nat>)

  /** A horse as the tick loop sees it. */
  function StateOf(h: Horse): Runner
    reads h
  {
    Runner(h.distance, h.fallen, h.confidence)
  }

  class Race {
    const raceLength: int
    const lanes: array<Horse?>

    /** A race of the given length with that many empty lanes. */
    constructor (distance: int, numberOfLanes: nat)
      ensures raceLength == distance && lanes.Length == numberOfLanes && fresh(lanes)
      ensures forall i :: 0 <= i < lanes.Length ==> lanes[i] == null
    {
      raceLength := distance;
      lanes := new Horse?[numberOfLanes](_ => null);
    }

    /** The horses standing in the lanes. */
    ghost function Horses(): set<Horse>
      reads lanes
    {
      set i | 0 <= i < lanes.Length && lanes[i] != null :: lanes[i]
    }

    /** Every lane holds a horse. */
    predicate Full()
      reads lanes
    {
      forall i :: 0 <= i < lanes.Length ==> lanes[i] != null
    }

    /** raceWonBy: the finish test. A horse that has won is the lane's Reached state, and
        the tick loop leaves it as it is whatever the draws. */
    predicate RaceWonBy(horse: Horse): (won: bool)
      reads horse
      ensures won <==> Reached(StateOf(horse), raceLength)
      ensures won ==> forall draw: nat -> real, next: nat ::
        LaneAfter(StateOf(horse), raceLength, FallProbability, draw, next) == StateOf(horse)
    {
      horse.distance >= raceLength
    }

    /** Every lane's horse has reached the race length or fallen. */
    predicate AllDone()
      requires Full()
      reads lanes, Horses()
    {
      forall i :: 0 <= i < lanes.Length ==> RaceWonBy(lanes[i]) || lanes[i].fallen
    }

    /** The distances of the lanes' horses, lane by lane. */
    ghost function Distances(): (dist: seq<int>)
      requires Full()
      reads lanes, Horses()
      ensures |dist| == lanes.Length
      ensures forall i :: 0 <= i < lanes.Length ==> dist[i] == lanes[i].distance
    {
      seq(lanes.Length, i reads lanes, Horses() requires 0 <= i < lanes.Length && lanes[i] != null => lanes[i].distance)
    }

    /** The symbols of the lanes' horses, lane by lane. */
    ghost function Symbols(): (s: seq<char>)
      requires Full()
      reads lanes, Horses()
      ensures |s| == lanes.Length
      ensures forall i :: 0 <= i < lanes.Length ==> s[i] == lanes[i].symbol
    {
      seq(lanes.Length, i reads lanes, Horses() requires 0 <= i < lanes.Length && lanes[i] != null => lanes[i].symbol)
    }

    /** The lanes' horses as the tick loop sees them, lane by lane. */
    ghost function States(): (s: seq<Runner>)
      requires Full()
      reads lanes, Horses()
      ensures |s| == lanes.Length
      ensures forall i :: 0 <= i < lanes.Length ==> s[i] == StateOf(lanes[i])
    {
      seq(lanes.Length, i reads lanes, Horses() requires 0 <= i < lanes.Length && lanes[i] != null => StateOf(lanes[i]))
    }

    /** No horse stands in two lanes. */
    predicate Distinct()
      reads lanes
    {
      forall i, j :: 0 <= i < j < lanes.Length ==> lanes[i] != lanes[j]
    }

    /** The completion check on the horses is the completion check on their states. */
    lemma AllDoneMeans()
      requires Full()
      ensures AllDone() <==> Done(States(), raceLength)
    {
      if !AllDone() {
        var i :| 0 <= i < lanes.Length && !(RaceWonBy(lanes[i]) || lanes[i].fallen);
        assert Running(States()[i], raceLength);
      }
    }

    /** A lane outside 1..lanes.length is refused and nothing changes; otherwise the horse
        takes lane `laneNumber`, replacing any horse there. */
    method AddHorse(horse: Horse, laneNumber: int)
      modifies lanes
      ensures 1 <= laneNumber <= lanes.Length ==> lanes[..] == old(lanes[..])[laneNumber - 1 := horse]
      ensures !(1 <= laneNumber <= lanes.Length) ==> lanes[..] == old(lanes[..])
    {
      if laneNumber < 1 || laneNumber > lanes.Length {
        return;
      }
      lanes[laneNumber - 1] := horse;
    }

    /** The completion check after a tick: true exactly when every horse has finished or
        fallen. */
    method IsComplete() returns (complete: bool)
      requires Full()
      ensures complete == AllDone()
    {
      complete := true;
      var i := 0;
      while i < lanes.Length
        invariant 0 <= i <= lanes.Length
        invariant forall k :: 0 <= k < i ==> RaceWonBy(lanes[k]) || lanes[k].fallen
      {
        if !RaceWonBy(lanes[i]) && !lanes[i].fallen {
          complete := false;
          break;
        }
        i := i + 1;
      }
    }

    /** moveHorse: a horse that has not fallen takes two draws, advancing if the first is
        below its confidence and falling if the second is below 0.1 times its confidence
        squared; both draws are taken, so it may advance and fall in the same call. A
        fallen horse takes no draw and does not change. */
    method MoveHorse(horse: Horse, draw: nat -> real, next: nat) returns (next': nat)
      modifies horse
      ensures old(horse.fallen) ==> next' == next && horse.distance == old(horse.distance) && horse.fallen
      ensures !old(horse.fallen) ==>
        next' == next + 2
        && horse.distance == old(horse.distance) + (if Moves(horse.confidence, draw(next)) then 1 else 0)
        && horse.fallen == Falls(horse.confidence, draw(next + 1))
      ensures horse.confidence == old(horse.confidence) && horse.symbol == old(horse.symbol)
    {
      next' := next;
      if !horse.fallen {
        if draw(next') < horse.confidence {
          horse.MoveForward();
        }
        next' := next' + 1;
        if draw(next') < FallProbability * horse.confidence * horse.confidence {
          horse.Fall();
        }
        next' := next' + 1;
      }
    }

    /** What one tick does to a horse, seen from before and after: confidence and symbol
        stay; distance never decreases; a fallen or finished horse does not change; and a
        horse short of the length ends the tick at most at the length. */
    twostate predicate TickStep(horse: Horse)
      reads horse
    {
      && horse.confidence == old(horse.confidence) && horse.symbol == old(horse.symbol)
      && old(horse.distance) <= horse.distance
      && (old(horse.fallen) ==> horse.fallen)
      && (old(horse.fallen) || old(horse.distance) >= raceLength ==>
            horse.distance == old(horse.distance) && horse.fallen == old(horse.fallen))
      && (old(horse.distance) < raceLength ==> horse.distance <= raceLength)
    }

    /** Every lane's horse has changed from the lane states `s0` and symbols `symbols` only
        as TickStep allows. */
    ghost predicate SteppedFrom(s0: seq<Runner>, symbols: seq<char>)
      reads lanes, Horses()
    {
      && Full() && |s0| == lanes.Length && |symbols| == lanes.Length
      && forall k :: 0 <= k < lanes.Length ==>
        lanes[k].symbol == symbols[k] && Stepped(s0[k], StateOf(lanes[k]), raceLength)
    }

    /** Part way through a tick from the lane states `s0` and the draw `first`: the first
        i lanes are as TickLanes leaves them, the others as they were, and `next` is the
        draw TickLanes on the first i lanes stops at. */
    ghost predicate Ticked(s0: seq<Runner>, draw: nat -> real, first: nat, i: nat, next: nat)
      reads lanes, Horses()
    {
      && Full() && |s0| == lanes.Length && i <= lanes.Length
      && (forall k :: 0 <= k < i ==>
            StateOf(lanes[k]) == TickLanes(s0[..i], raceLength, FallProbability, draw, first).runners[k])
      && (forall k :: i <= k < lanes.Length ==> StateOf(lanes[k]) == s0[k])
      && next == TickLanes(s0[..i], raceLength, FallProbability, draw, first).next
    }

    /** One lane of a tick: the horse is moved when it has neither finished nor fallen,
        taking the next two draws, and is left alone otherwise. When no horse stands in
        two lanes this carries the tick from the first i lanes to the first i + 1. */
    method TickLane(i: nat, draw: nat -> real, next: nat, ghost s0: seq<Runner>, ghost symbols: seq<char>,
                    ghost first: nat)
      returns (next': nat)
      requires Full() && i < lanes.Length
      requires Distinct() ==> Ticked(s0, draw, first, i, next)
      requires SteppedFrom(s0, symbols)
      modifies lanes[i]
      ensures StateOf(lanes[i]) == LaneAfter(old(StateOf(lanes[i])), raceLength, FallProbability, draw, next)
      ensures next' == next + DrawsOf(old(StateOf(lanes[i])), raceLength)
      ensures forall k :: 0 <= k < lanes.Length ==> TickStep(lanes[k])
      ensures Distinct() ==> Ticked(s0, draw, first, i + 1, next')
      ensures SteppedFrom(s0, symbols)
    {
      next' := next;
      var horse := lanes[i];
      if !RaceWonBy(horse) && !horse.fallen {
        next' := MoveHorse(horse, draw, next');
      }
      LaneAfterBounds(old(StateOf(horse)), raceLength, FallProbability, draw, next);
      if Distinct() {
        assert s0[..i + 1][..i] == s0[..i];
        assert forall k :: 0 <= k < lanes.Length && k != i ==> StateOf(lanes[k]) == old(StateOf(lanes[k]));
      }
    }

    /** One pass over the lanes. When no horse stands in two lanes it is TickLanes on the
        lanes' states, lane after lane with the draws in order; in any case each horse
        changes only as TickStep allows. */
    method Tick(draw: nat -> real, next: nat) returns (next': nat)
      requires Full()
      modifies Horses()
      ensures Distinct() ==>
        States() == TickLanes(old(States()), raceLength, FallProbability, draw, next).runners
        && next' == TickLanes(old(States()), raceLength, FallProbability, draw, next).next
      ensures forall i :: 0 <= i < lanes.Length ==> TickStep(lanes[i])
    {
      ghost var s0 := States();
      ghost var symbols := Symbols();
      next' := TickPass(draw, next, s0, symbols);
      if Distinct() {
        TickedAll(s0, draw, next, next');
      }
    }

    /** The loop of a tick: every lane in turn, from the states `s0` with the symbols
        `symbols`, each horse stepped as Stepped allows and, with no horse in two lanes,
        the whole tick carried out as TickLanes does it. */
    method TickPass(draw: nat -> real, next: nat, ghost s0: seq<Runner>, ghost symbols: seq<char>)
      returns (next': nat)
      requires Full() && s0 == States() && symbols == Symbols()
      modifies Horses()
      ensures SteppedFrom(s0, symbols)
      ensures Distinct() ==> Ticked(s0, draw, next, lanes.Length, next')
    {
      next' := next;
      var i := 0;
      while i < lanes.Length
        invariant 0 <= i <= lanes.Length
        invariant SteppedFrom(s0, symbols)
        invariant Distinct() ==> Ticked(s0, draw, next, i, next')
      {
        next' := TickLane(i, draw, next', s0, symbols, next);
        i := i + 1;
      }
    }

    /** A tick carried over every lane is TickLanes on the lanes' states. */
    lemma TickedAll(s0: seq<Runner>, draw: nat -> real, first: nat, next: nat)
      requires Ticked(s0, draw, first, lanes.Length, next)
      ensures States() == TickLanes(s0, raceLength, FallProbability, draw, first).runners
      ensures next == TickLanes(s0, raceLength, FallProbability, draw, first).next
    {
      assert s0[..lanes.Length] == s0;
    }

    /** A horse that has not run past the race length (0 is the start, which may lie
        beyond a non-positive length). */
    predicate WithinCourse(horse: Horse)
      reads horse
    {
      horse.distance <= raceLength || horse.distance == 0
    }

    /** The reset before the first tick: every horse back to distance 0, fallen flags and
        everything else kept. */
    method ResetHorses()
      requires Full()
      modifies Horses()
      ensures forall i :: 0 <= i < lanes.Length ==>
        && lanes[i].distance == 0 && lanes[i].confidence == old(lanes[i].confidence)
        && lanes[i].symbol == old(lanes[i].symbol) && lanes[i].fallen == old(lanes[i].fallen)
      ensures States() == ResetLanes(old(States()))
    {
      var i := 0;
      while i < lanes.Length
        invariant 0 <= i <= lanes.Length
        invariant forall k :: 0 <= k < i ==> lanes[k].distance == 0
        invariant forall k :: 0 <= k < lanes.Length ==>
          lanes[k].confidence == old(lanes[k].confidence) && lanes[k].symbol == old(lanes[k].symbol)
          && lanes[k].fallen == old(lanes[k].fallen)
      {
        assert lanes[i] in Horses();
        lanes[i].GoBackToStart();
        i := i + 1;
      }
    }

    /** The loop `while (!raceComplete)`, cut off after maxTicks ticks. It ends complete
        only after at least one tick with every horse finished or fallen; cut off, it has
        run maxTicks ticks and the last check found a horse still running. Across the loop
        distances only grow, falls are kept, and no horse passes the race length. When no
        horse stands in two lanes, the lanes end as RunLanes says after `ticks` ticks from
        the first draw, and the completion check failed after every earlier tick. */
    method RunTicks(draw: nat -> real, maxTicks: nat, ghost s0: seq<Runner>) returns (ticks: nat, complete: bool)
      requires Full() && s0 == States()
      requires forall i :: 0 <= i < lanes.Length ==> WithinCourse(lanes[i])
      modifies Horses()
      ensures complete ==> AllDone() && 1 <= ticks <= maxTicks
      ensures !complete ==> ticks == maxTicks && (maxTicks == 0 || !AllDone())
      ensures forall i :: 0 <= i < lanes.Length ==>
        && lanes[i].confidence == old(lanes[i].confidence) && lanes[i].symbol == old(lanes[i].symbol)
        && old(lanes[i].distance) <= lanes[i].distance && (old(lanes[i].fallen) ==> lanes[i].fallen)
        && WithinCourse(lanes[i])
      ensures Distinct() ==> RanFor(s0, draw, ticks)
    {
      complete := false;
      ticks := 0;
      var next := 0;
      while !complete && ticks < maxTicks
        invariant ticks <= maxTicks
        invariant complete ==> AllDone() && ticks >= 1
        invariant !complete && ticks > 0 ==> !AllDone()
        invariant forall i :: 0 <= i < lanes.Length ==>
          && lanes[i].confidence == old(lanes[i].confidence) && lanes[i].symbol == old(lanes[i].symbol)
          && old(lanes[i].distance) <= lanes[i].distance && (old(lanes[i].fallen) ==> lanes[i].fallen)
          && WithinCourse(lanes[i])
        invariant Distinct() ==> RunSoFar(s0, draw, ticks, next)
        decreases maxTicks - ticks
      {
        next, complete := TickAndCheck(draw, next, s0, ticks);
        ticks := ticks + 1;
      }
    }

    /** The lanes are where `ticks` ticks from the states `s0` and the first draw put them,
        and the completion check failed after every earlier tick. */
    ghost predicate RanFor(s0: seq<Runner>, draw: nat -> real, ticks: nat)
      requires Full()
      reads lanes, Horses()
    {
      && States() == RunLanes(s0, raceLength, FallProbability, draw, 0, ticks).runners
      && UndoneBefore(s0, raceLength, FallProbability, draw, 0, ticks)
    }

    /** RanFor, with `next` the next draw. */
    ghost predicate RunSoFar(s0: seq<Runner>, draw: nat -> real, ticks: nat, next: nat)
      requires Full()
      reads lanes, Horses()
    {
      RanFor(s0, draw, ticks) && next == RunLanes(s0, raceLength, FallProbability, draw, 0, ticks).next
    }

    /** One round of the loop: a tick, then the completion check. */
    method TickAndCheck(draw: nat -> real, next: nat, ghost s0: seq<Runner>, ghost ticks: nat)
      returns (next': nat, complete: bool)
      requires Full()
      requires Distinct() ==> RunSoFar(s0, draw, ticks, next) && (ticks > 0 ==> !AllDone())
      modifies Horses()
      ensures complete == AllDone()
      ensures forall i :: 0 <= i < lanes.Length ==> TickStep(lanes[i])
      ensures Distinct() ==> RunSoFar(s0, draw, ticks + 1, next')
    {
      if Distinct() {
        AllDoneMeans();
        RunLanesNext(s0, raceLength, FallProbability, draw, 0, ticks);
      }
      next' := Tick(draw, next);
      complete := IsComplete();
    }

    /** The distances read off the lanes once the loop has ended. */
    method Snapshot() returns (dist: seq<int>)
      requires Full()
      ensures dist == Distances()
    {
      dist := [];
      var i := 0;
      while i < lanes.Length
        invariant 0 <= i <= lanes.Length
        invariant dist == Distances()[..i]
      {
        dist := dist + [lanes[i].distance];
        i := i + 1;
      }
    }

    /** The reset and the loop of startRace on full lanes: every horse back to distance 0,
        then ticks until every horse has finished or fallen or maxTicks ticks have run. */
    method ResetAndRun(draw: nat -> real, maxTicks: nat) returns (ticks: nat, complete: bool)
      requires Full()
      modifies Horses()
      ensures complete ==> AllDone() && 1 <= ticks <= maxTicks
      ensures !complete ==> ticks == maxTicks && (maxTicks == 0 || !AllDone())
      ensures forall i :: 0 <= i < lanes.Length ==>
        && lanes[i].confidence == old(lanes[i].confidence) && lanes[i].symbol == old(lanes[i].symbol)
        && (old(lanes[i].fallen) ==> lanes[i].fallen) && WithinCourse(lanes[i])
      ensures Distinct() ==> RanFor(ResetLanes(old(States())), draw, ticks)
    {
      ghost var before := States();
      ResetHorses();
      ghost var s0 := States();
      assert s0 == ResetLanes(before);
      ticks, complete := RunTicks(draw, maxTicks, s0);
    }

    /** The leaderboard and winner of the lanes as they stand, from the snapshot of their
        distances. */
    method Rank() returns (leaderboard: seq<nat>, winner: Option<nat>)
      requires Full()
      ensures Ranked(Distances(), leaderboard) && ListsEveryLane(Distances(), leaderboard)
      ensures AnnouncedWinner(Distances(), raceLength, winner)
    {
      var dist := Snapshot();
      leaderboard, winner := RankLanes(dist, raceLength);
    }

    /** startRace on full lanes: the reset, the loop, and the results read off the
        lanes. */
    method RunRace(draw: nat -> real, maxTicks: nat) returns (outcome: Outcome)
      requires Full()
      modifies Horses()
      ensures outcome != NotStarted
      ensures forall i :: 0 <= i < lanes.Length ==>
        && lanes[i].confidence == old(lanes[i].confidence) && lanes[i].symbol == old(lanes[i].symbol)
        && (old(lanes[i].fallen) ==> lanes[i].fallen) && WithinCourse(lanes[i])
      ensures outcome.OutOfTicks? ==> maxTicks == 0 || !AllDone()
      ensures outcome.Finished? ==> AllDone() && 1 <= outcome.ticks <= maxTicks
      ensures outcome.Finished? ==>
        && Ranked(Distances(), outcome.leaderboard) && ListsEveryLane(Distances(), outcome.leaderboard)
        && AnnouncedWinner(Distances(), raceLength, outcome.winner)
      ensures outcome.Finished? && Distinct() ==> RanFor(ResetLanes(old(States())), draw, outcome.ticks)
      ensures outcome.OutOfTicks? && Distinct() ==> RanFor(ResetLanes(old(States())), draw, maxTicks)
    {
      var ticks, complete := ResetAndRun(draw, maxTicks);
      if !complete {
        return OutOfTicks;
      }
      var leaderboard, winner := Rank();
      return Finished(ticks, leaderboard, winner);
    }

    /** startRace. With an empty lane it returns before touching any horse. Otherwise every
        horse goes back to distance 0 (fallen flags are kept), then ticks run until every
        horse has finished or fallen; no horse passes the race length, a fallen horse stays
        fallen, and the leaderboard lists every lane by descending distance, ties in lane
        order, with the announced winner the leading lane if its horse finished. When no
        horse stands in two lanes, the lanes end where RunLanes puts them from the reset
        lanes, and the loop stopped at the first tick after which all were done. */
    method StartRace(draw: nat -> real, maxTicks: nat) returns (outcome: Outcome)
      modifies Horses()
      ensures !Full() ==> outcome == NotStarted
      ensures !Full() ==> forall i :: 0 <= i < lanes.Length && lanes[i] != null ==>
        && lanes[i].distance == old(lanes[i].distance) && lanes[i].fallen == old(lanes[i].fallen)
        && lanes[i].confidence == old(lanes[i].confidence)
      ensures Full() ==> outcome != NotStarted
      ensures Full() ==> forall i :: 0 <= i < lanes.Length ==>
        && lanes[i].confidence == old(lanes[i].confidence) && lanes[i].symbol == old(lanes[i].symbol)
        && (old(lanes[i].fallen) ==> lanes[i].fallen) && WithinCourse(lanes[i])
      ensures outcome.OutOfTicks? ==> Full() && (maxTicks == 0 || !AllDone())
      ensures outcome.Finished? ==> Full() && AllDone() && 1 <= outcome.ticks <= maxTicks
      ensures outcome.Finished? ==>
        && Ranked(Distances(), outcome.leaderboard) && ListsEveryLane(Distances(), outcome.leaderboard)
        && AnnouncedWinner(Distances(), raceLength, outcome.winner)
      ensures outcome.Finished? && Distinct() ==> RanFor(ResetLanes(old(States())), draw, outcome.ticks)
      ensures outcome.OutOfTicks? && Distinct() ==> RanFor(ResetLanes(old(States())), draw, maxTicks)
    {
      var i := 0;
      while i < lanes.Length
        invariant 0 <= i <= lanes.Length
        invariant forall k :: 0 <= k < i ==> lanes[k] != null
      {
        if lanes[i] == null {
          return NotStarted;
        }
        i := i + 1;
      }
      outcome := RunRace(draw, maxTicks);
    }
  }
}
