/** A race track (part2 models/Track.java): its configuration, its best-time record,
    and the modifiers derived from its surface condition and shape. */
module TrackModel {
  import JavaNum

  datatype TrackShape = Oval | FigureEight

  datatype TrackCondition = Muddy | Dry | Icy

  /** How much the surface lets a horse keep its speed: 1.0 on a dry track, less otherwise. */
  function SpeedModifier(condition: TrackCondition): (m: real)
    ensures 0.0 < m <= 1.0
    ensures m == 1.0 <==> condition == Dry
  {
    match condition
    case Muddy => 0.8
    case Dry => 1.0
    case Icy => 0.6
  }

  /** The extra risk of falling on the surface: none on a dry track. */
  function FallRiskModifier(condition: TrackCondition): (f: real)
    ensures 0.0 <= f < 1.0
    ensures f == 0.0 <==> condition == Dry
  {
    match condition
    case Muddy => 0.1
    case Dry => 0.0
    case Icy => 0.3
  }

  /** The two condition modifiers rank the surfaces the same way: a slower surface is
      always a riskier one (DRY, then MUDDY, then ICY). */
  lemma SlowerIsRiskier(a: TrackCondition, b: TrackCondition)
    ensures SpeedModifier(a) < SpeedModifier(b) <==> FallRiskModifier(a) > FallRiskModifier(b)
    ensures SpeedModifier(a) == SpeedModifier(b) <==> a == b
  {
  }

  /** The shape adjustment is defined only where Java's `length / 2` is not zero
      (a figure-eight track of length -1, 0 or 1 divides by zero). */
  predicate ShapeDefined(shape: TrackShape, length: int) {
    shape == FigureEight ==> JavaNum.Div(length, 2) != 0
  }

  /** Speed adjustment at a distance: an oval never slows a horse; a figure-eight slows
      it to 0.7 at its crossing points, where `distance % (length / 2) == 0` in Java's
      integer arithmetic. */
  function ShapeSpeedAdjustment(shape: TrackShape, length: int, distance: int): (adj: real)
    requires ShapeDefined(shape, length)
    ensures adj == 0.7 || adj == 1.0
    ensures shape == Oval ==> adj == 1.0
  {
    match shape
    case Oval => 1.0
    case FigureEight =>
      if JavaNum.Rem(distance, JavaNum.Div(length, 2)) == 0 then 0.7 else 1.0
  }

  /** On a figure-eight track of length at least 2, the crossing points are exactly
      the non-negative multiples of half the length (rounded down). */
  lemma {:induction false} FigureEightCrossings(length: int, distance: nat)
    requires length >= 2
    ensures ShapeSpeedAdjustment(FigureEight, length, distance) == 0.7
        <==> exists k: nat :: distance == k * (length / 2)
  {
    var h := length / 2;
    assert JavaNum.Div(length, 2) == h;
    assert JavaNum.Rem(distance, h) == distance % h;
    if distance % h == 0 {
      var k: nat := distance / h;
      assert distance == k * h;
    } else {
      forall k: nat | distance == k * h ensures false {
        MultipleHasNoRemainder(k, h);
      }
    }
  }

  lemma MultipleHasNoRemainder(k: nat, h: int)
    requires h > 0
    ensures (k * h) % h == 0
  {
    var x := k * h;
    var q, r := x / h, x % h;
    assert (k - q) * h == r;
    MultipleInRange(k - q, h);
  }

  lemma MultipleInRange(m: int, h: int)
    requires h > 0 && 0 <= m * h < h
    ensures m == 0
  {
    if m > 0 {
      assert m * h == (m - 1) * h + h;
      MultipleNonNegative(m - 1, h);
    }
  }

  lemma MultipleNonNegative(m: nat, h: int)
    requires h > 0
    ensures m * h >= 0
  {
  }

  /** The figure-eight scenario of length 30: along the course 0..30 the horse is slowed
      exactly at 0, 15 and 30. */
  lemma FigureEightThirty(distance: nat)
    requires distance <= 30
    ensures ShapeSpeedAdjustment(FigureEight, 30, distance) == 0.7 <==> distance in {0, 15, 30}
  {
    assert JavaNum.Div(30, 2) == 15;
  }

  class Track {
    var name: string
    const laneCount: int
    var length: int
    const shape: TrackShape
    var condition: TrackCondition
    var bestTime: real
    var bestHorse: string

    /** A new track has no record yet: best time 0 and an empty holder name. */
    constructor (name: string, laneCount: int, length: int, shape: TrackShape, condition: TrackCondition)
      ensures this.name == name && this.laneCount == laneCount && this.length == length
      ensures this.shape == shape && this.condition == condition
      ensures bestTime == 0.0 && bestHorse == ""
    {
      this.name := name;
      this.laneCount := laneCount;
      this.length := length;
      this.shape := shape;
      this.condition := condition;
      this.bestTime := 0.0;
      this.bestHorse := "";
    }

    method SetName(name: string)
      modifies this
      ensures this.name == name
      ensures length == old(length) && condition == old(condition)
      ensures bestTime == old(bestTime) && bestHorse == old(bestHorse)
    {
      this.name := name;
    }

    method SetLength(length: int)
      modifies this
      ensures this.length == length
      ensures name == old(name) && condition == old(condition)
      ensures bestTime == old(bestTime) && bestHorse == old(bestHorse)
    {
      this.length := length;
    }

    method SetCondition(condition: TrackCondition)
      modifies this
      ensures this.condition == condition
      ensures name == old(name) && length == old(length)
      ensures bestTime == old(bestTime) && bestHorse == old(bestHorse)
    {
      this.condition := condition;
    }

    method SetBestTime(bestTime: real)
      modifies this
      ensures this.bestTime == bestTime
      ensures name == old(name) && length == old(length) && condition == old(condition)
      ensures bestHorse == old(bestHorse)
    {
      this.bestTime := bestTime;
    }

    method SetBestHorse(bestHorse: string)
      modifies this
      ensures this.bestHorse == bestHorse
      ensures name == old(name) && length == old(length) && condition == old(condition)
      ensures bestTime == old(bestTime)
    {
      this.bestHorse := bestHorse;
    }
  }
}
