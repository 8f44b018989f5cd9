/** A customisable horse (part2 models/Horse.java): race state (distance, fallen),
    a confidence value, base attributes of its breed, and the equipment and accessory
    lists with the multiplier folds over the equipment. */
module HorseModel {
  import opened HorseItems
  import opened TrackModel
  import JavaNum

  /** Which of an item's three multipliers a fold reads. */
  datatype Modifier = Speed | Endurance | Confidence

  function ModifierOf(item: HorseItem, m: Modifier): real {
    match m
    case Speed => item.speedModifier
    case Endurance => item.enduranceModifier
    case Confidence => item.confidenceModifier
  }

  /** The product of one multiplier over a list, folded from the front as the source's
      accumulator loops do. */
  function Product(items: seq<HorseItem>, m: Modifier): real
  {
    if |items| == 0 then 1.0
    else Product(items[..|items| - 1], m) * ModifierOf(items[|items| - 1], m)
  }

  /** A product over a concatenation is the product of the two parts, so the fold does
      not depend on how the list was built up. */
  lemma {:induction false} ProductAppend(a: seq<HorseItem>, b: seq<HorseItem>, m: Modifier)
    ensures Product(a + b, m) == Product(a, m) * Product(b, m)
  {
    if |b| > 0 {
      var b' := b[..|b| - 1];
      assert (a + b)[..|a + b| - 1] == a + b';
      ProductAppend(a, b', m);
    } else {
      assert a + b == a;
    }
  }

  /** Neutral items (every accessory among them) leave every product at 1.0. */
  lemma {:induction false} ProductOfNeutral(items: seq<HorseItem>, m: Modifier)
    requires forall i :: 0 <= i < |items| ==> IsNeutral(items[i])
    ensures Product(items, m) == 1.0
  {
    if |items| > 0 {
      ProductOfNeutral(items[..|items| - 1], m);
    }
  }

  /** List.removeIf(item -> item.getName().equals(name)): drop every item of that name,
      keep the others in order. */
  function WithoutName(items: seq<HorseItem>, name: string): (r: seq<HorseItem>)
    ensures |r| <= |items|
    ensures forall x :: x in r <==> x in items && x.name != name
  {
    if |items| == 0 then []
    else if items[|items| - 1].name == name then WithoutName(items[..|items| - 1], name)
    else WithoutName(items[..|items| - 1], name) + [items[|items| - 1]]
  }

  /** Removal works piecewise: it distributes over concatenation. With the one-item case
      this pins the result down to the surviving items in their original order. */
  lemma {:induction false} WithoutNameAppend(a: seq<HorseItem>, b: seq<HorseItem>, name: string)
    ensures WithoutName(a + b, name) == WithoutName(a, name) + WithoutName(b, name)
  {
    if |b| > 0 {
      var b' := b[..|b| - 1];
      assert (a + b)[..|a + b| - 1] == a + b';
      WithoutNameAppend(a, b', name);
    } else {
      assert a + b == a;
    }
  }

  lemma WithoutNameSingle(x: HorseItem, name: string)
    ensures WithoutName([x], name) == if x.name == name then [] else [x]
  {
    assert [x][..0] == [];
  }

  /** Removing a name a second time changes nothing. */
  lemma {:induction false} WithoutNameIdempotent(items: seq<HorseItem>, name: string)
    ensures WithoutName(WithoutName(items, name), name) == WithoutName(items, name)
  {
    if |items| > 0 {
      var init := items[..|items| - 1];
      WithoutNameIdempotent(init, name);
      if items[|items| - 1].name != name {
        WithoutNameAppend(WithoutName(init, name), [items[|items| - 1]], name);
        WithoutNameSingle(items[|items| - 1], name);
      }
    }
  }

  /** The confidence left by adjustPerformance: scaled by the equipment, reduced by the
      track's fall risk, and raised to 0 if negative; there is no upper clamp. */
  function AdjustedConfidence(confidence: real, confidenceModifier: real, fallRisk: real): (c: real)
    ensures c >= 0.0
    ensures c >= confidence * confidenceModifier - fallRisk
    ensures c == 0.0 || c == confidence * confidenceModifier - fallRisk
  {
    var c := confidence * confidenceModifier - fallRisk;
    if c < 0.0 then 0.0 else c
  }

  /** With equipment that does not boost confidence (product at most 1), a confidence
      in [0, 1] stays in [0, 1] after adjustPerformance. */
  lemma AdjustedConfidenceInUnitRange(confidence: real, confidenceModifier: real, fallRisk: real)
    requires 0.0 <= confidence <= 1.0 && 0.0 <= confidenceModifier <= 1.0 && 0.0 <= fallRisk
    ensures 0.0 <= AdjustedConfidence(confidence, confidenceModifier, fallRisk) <= 1.0
  {
    assert confidence - confidence * confidenceModifier == confidence * (1.0 - confidenceModifier);
    ProductNonNegative(confidence, 1.0 - confidenceModifier);
  }

  lemma ProductNonNegative(a: real, b: real)
    requires a >= 0.0 && b >= 0.0
    ensures a * b >= 0.0
  {
  }

  /** Without that condition the range is not kept: full confidence with a 1.5 confidence
      product on a dry track becomes 1.5. */
  lemma AdjustedConfidenceCanExceedOne()
    ensures AdjustedConfidence(1.0, 1.5, FallRiskModifier(Dry)) == 1.5
  {
  }

  /** The step of adjustPerformance: `(int) (1 * speedModifier * shapeAdjustment *
      enduranceModifier)`, truncated toward zero like Java's cast. */
  function MoveAmount(speedModifier: real, shapeAdjustment: real, enduranceModifier: real): int
  {
    JavaNum.Trunc(1.0 * speedModifier * shapeAdjustment * enduranceModifier)
  }

  class Horse {
    const name: string
    var symbol: char
    var distance: int
    var confidence: real
    var fallen: bool
    const breed: string
    const coatColor: string
    const baseSpeed: real
    const baseEndurance: real
    var equipment: seq<HorseItem>
    var accessories: seq<HorseItem>

    /** The multiplier a fold starts from: the base speed, the base endurance, or 1.0. */
    function Base(m: Modifier): real {
      match m
      case Speed => baseSpeed
      case Endurance => baseEndurance
      case Confidence => 1.0
    }

    /** The total modifier of one kind: the base value times the product over the
        equipment; accessories never enter it. */
    function TotalModifier(m: Modifier): real
      reads this
    {
      Base(m) * Product(equipment, m)
    }

    /** A new horse stands at the start, has not fallen and carries nothing; its
        confidence is the argument if that lies in [0, 1], else the field default 0.0. */
    constructor (symbol: char, name: string, confidence: real, breed: string,
                 coatColor: string, baseSpeed: real, baseEndurance: real)
      ensures this.symbol == symbol && this.name == name
      ensures this.breed == breed && this.coatColor == coatColor
      ensures this.baseSpeed == baseSpeed && this.baseEndurance == baseEndurance
      ensures distance == 0 && !fallen
      ensures this.confidence == if 0.0 <= confidence <= 1.0 then confidence else 0.0
      ensures equipment == [] && accessories == []
    {
      this.name := name;
      this.symbol := symbol;
      this.breed := breed;
      this.coatColor := coatColor;
      this.baseSpeed := baseSpeed;
      this.baseEndurance := baseEndurance;
      this.distance := 0;
      this.fallen := false;
      this.equipment := [];
      this.accessories := [];
      // the field initialiser, then setConfidence
      this.confidence := 0.0;
      if 0.0 <= confidence <= 1.0 {
        this.confidence := confidence;
      }
    }

    /** Stores the value only when it lies in [0, 1]; otherwise nothing changes. */
    method SetConfidence(newConfidence: real)
      modifies this
      ensures confidence == if 0.0 <= newConfidence <= 1.0 then newConfidence else old(confidence)
      ensures symbol == old(symbol) && distance == old(distance) && fallen == old(fallen)
      ensures equipment == old(equipment) && accessories == old(accessories)
    {
      if 0.0 <= newConfidence && newConfidence <= 1.0 {
        confidence := newConfidence;
      }
    }

    method SetSymbol(newSymbol: char)
      modifies this
      ensures symbol == newSymbol
      ensures confidence == old(confidence) && distance == old(distance) && fallen == old(fallen)
      ensures equipment == old(equipment) && accessories == old(accessories)
    {
      symbol := newSymbol;
    }

    /** One step forward, whether or not the horse has fallen (this version has no guard). */
    method MoveForward()
      modifies this`distance
      ensures distance == old(distance) + 1
      ensures symbol == old(symbol) && confidence == old(confidence) && fallen == old(fallen)
      ensures equipment == old(equipment) && accessories == old(accessories)
    {
      distance := distance + 1;
    }

    /** Latches the fall; no method of the class clears it. */
    method Fall()
      modifies this`fallen
      ensures fallen
      ensures symbol == old(symbol) && confidence == old(confidence) && distance == old(distance)
      ensures equipment == old(equipment) && accessories == old(accessories)
    {
      fallen := true;
    }

    /** Back to distance 0; the fallen flag stays as it is. */
    method GoBackToStart()
      modifies this`distance
      ensures distance == 0
      ensures symbol == old(symbol) && confidence == old(confidence) && fallen == old(fallen)
      ensures equipment == old(equipment) && accessories == old(accessories)
    {
      distance := 0;
    }

    /** Appends the item only if its type is exactly "Equipment". */
    method AddEquipment(item: HorseItem)
      modifies this
      ensures equipment == if item.itemType == EquipmentType then old(equipment) + [item] else old(equipment)
      ensures accessories == old(accessories)
      ensures symbol == old(symbol) && confidence == old(confidence)
      ensures distance == old(distance) && fallen == old(fallen)
    {
      if item.itemType == EquipmentType {
        equipment := equipment + [item];
      }
    }

    /** Appends the item only if its type is exactly "Accessory". */
    method AddAccessory(item: HorseItem)
      modifies this
      ensures accessories == if item.itemType == AccessoryType then old(accessories) + [item] else old(accessories)
      ensures equipment == old(equipment)
      ensures symbol == old(symbol) && confidence == old(confidence)
      ensures distance == old(distance) && fallen == old(fallen)
    {
      if item.itemType == AccessoryType {
        accessories := accessories + [item];
      }
    }

    method RemoveEquipment(itemName: string)
      modifies this
      ensures equipment == WithoutName(old(equipment), itemName)
      ensures accessories == old(accessories)
      ensures symbol == old(symbol) && confidence == old(confidence)
      ensures distance == old(distance) && fallen == old(fallen)
    {
      equipment := WithoutName(equipment, itemName);
    }

    method RemoveAccessory(itemName: string)
      modifies this
      ensures accessories == WithoutName(old(accessories), itemName)
      ensures equipment == old(equipment)
      ensures symbol == old(symbol) && confidence == old(confidence)
      ensures distance == old(distance) && fallen == old(fallen)
    {
      accessories := WithoutName(accessories, itemName);
    }

    /** The accumulator loop shared by the three calculateTotal*Modifier methods. */
    method FoldEquipment(m: Modifier) returns (total: real)
      ensures total == TotalModifier(m)
    {
      total := Base(m);
      var i := 0;
      while i < |equipment|
        invariant 0 <= i <= |equipment|
        invariant total == Base(m) * Product(equipment[..i], m)
      {
        assert equipment[..i + 1][..i] == equipment[..i];
        total := total * ModifierOf(equipment[i], m);
        i := i + 1;
      }
      assert equipment[..i] == equipment;
    }

    /** baseSpeed times the speed multipliers of the equipment. */
    method CalculateTotalSpeedModifier() returns (total: real)
      ensures total == baseSpeed * Product(equipment, Speed)
    {
      total := FoldEquipment(Speed);
    }

    /** baseEndurance times the endurance multipliers of the equipment. */
    method CalculateTotalEnduranceModifier() returns (total: real)
      ensures total == baseEndurance * Product(equipment, Endurance)
    {
      total := FoldEquipment(Endurance);
    }

    /** 1.0 times the confidence multipliers of the equipment. */
    method CalculateTotalConfidenceModifier() returns (total: real)
      ensures total == Product(equipment, Confidence)
    {
      total := FoldEquipment(Confidence);
    }

    /** One performance step on a track, with `fallDraw` standing for the Math.random()
        draw: confidence becomes AdjustedConfidence of the equipment's confidence product
        and the track's fall risk; the horse falls if the draw is below that risk; a horse
        that is not fallen afterwards advances by the truncated product of the track
        speed, the speed total, the shape adjustment at its current distance and the
        endurance total. */
    method AdjustPerformance(track: Track, fallDraw: real)
      requires ShapeDefined(track.shape, track.length)
      modifies this
      ensures confidence == AdjustedConfidence(old(confidence), Product(equipment, Confidence),
                                               FallRiskModifier(track.condition))
      ensures fallen == (old(fallen) || fallDraw < FallRiskModifier(track.condition))
      ensures distance == old(distance) + if fallen then 0 else
        MoveAmount(SpeedModifier(track.condition) * TotalModifier(Speed),
                   ShapeSpeedAdjustment(track.shape, track.length, old(distance)),
                   TotalModifier(Endurance))
      ensures symbol == old(symbol) && equipment == old(equipment) && accessories == old(accessories)
    {
      var speedTotal := CalculateTotalSpeedModifier();
      assert speedTotal == TotalModifier(Speed);
      var speedModifier := SpeedModifier(track.condition) * speedTotal;
      var fallRiskModifier := FallRiskModifier(track.condition);
      var shapeAdjustment := ShapeSpeedAdjustment(track.shape, track.length, distance);
      var confidenceModifier := CalculateTotalConfidenceModifier();
      var enduranceModifier := CalculateTotalEnduranceModifier();
      assert enduranceModifier == TotalModifier(Endurance);

      confidence := AdjustedConfidence(confidence, confidenceModifier, fallRiskModifier);

      if fallDraw < fallRiskModifier {
        fallen := true;
      }

      if !fallen {
        distance := distance + MoveAmount(speedModifier, shapeAdjustment, enduranceModifier);
      }
    }
  }
}
