/** Side-by-side comparison of two horses (part2 utils/HorseComparator.java): their
    identity, confidence, equipment and accessories, and the differences of their
    confidence and total speed and endurance modifiers; and the item-list text used when
    the comparison is shown. */
module HorseComparator {
  import opened Common
  import opened HorseItems
  import opened HorseModel

  /** The comparison map, one field per key the source puts. */
  datatype Comparison = Comparison(
    name1: string, name2: string,
    symbol1: char, symbol2: char,
    breed1: string, breed2: string,
    coatColor1: string, coatColor2: string,
    confidence1: real, confidence2: real, confidenceDifference: real,
    equipment1: seq<HorseItem>, equipment2: seq<HorseItem>,
    accessories1: seq<HorseItem>, accessories2: seq<HorseItem>,
    speedModifier1: real, speedModifier2: real, speedModifierDifference: real,
    enduranceModifier1: real, enduranceModifier2: real, enduranceModifierDifference: real)

  /** compareHorses: every per-horse field taken from its horse, each difference the
      first horse's value minus the second's, the modifiers being the horses' totals
      (base value times the product over the equipment). */
  method CompareHorses(horse1: Horse, horse2: Horse) returns (c: Comparison)
    ensures c.name1 == horse1.name && c.name2 == horse2.name
    ensures c.symbol1 == horse1.symbol && c.symbol2 == horse2.symbol
    ensures c.breed1 == horse1.breed && c.breed2 == horse2.breed
    ensures c.coatColor1 == horse1.coatColor && c.coatColor2 == horse2.coatColor
    ensures c.confidence1 == horse1.confidence && c.confidence2 == horse2.confidence
    ensures c.equipment1 == horse1.equipment && c.equipment2 == horse2.equipment
    ensures c.accessories1 == horse1.accessories && c.accessories2 == horse2.accessories
    ensures c.speedModifier1 == horse1.TotalModifier(Speed) && c.speedModifier2 == horse2.TotalModifier(Speed)
    ensures c.enduranceModifier1 == horse1.TotalModifier(Endurance)
    ensures c.enduranceModifier2 == horse2.TotalModifier(Endurance)
    ensures Consistent(c)
  {
    var speedMod1 := horse1.CalculateTotalSpeedModifier();
    var speedMod2 := horse2.CalculateTotalSpeedModifier();
    var enduranceMod1 := horse1.CalculateTotalEnduranceModifier();
    var enduranceMod2 := horse2.CalculateTotalEnduranceModifier();
    c := Comparison(
      horse1.name, horse2.name, horse1.symbol, horse2.symbol,
      horse1.breed, horse2.breed, horse1.coatColor, horse2.coatColor,
      horse1.confidence, horse2.confidence, horse1.confidence - horse2.confidence,
      horse1.equipment, horse2.equipment, horse1.accessories, horse2.accessories,
      speedMod1, speedMod2, speedMod1 - speedMod2,
      enduranceMod1, enduranceMod2, enduranceMod1 - enduranceMod2);
  }

  /** Each difference field is the first value minus the second. */
  predicate Consistent(c: Comparison) {
    && c.confidenceDifference == c.confidence1 - c.confidence2
    && c.speedModifierDifference == c.speedModifier1 - c.speedModifier2
    && c.enduranceModifierDifference == c.enduranceModifier1 - c.enduranceModifier2
  }

  /** The comparison seen from the other horse: every pair of fields exchanged. */
  function Swap(c: Comparison): (s: Comparison)
    ensures s.name1 == c.name2 && s.name2 == c.name1
    ensures s.speedModifier1 == c.speedModifier2 && s.speedModifier2 == c.speedModifier1
  {
    Comparison(
      c.name2, c.name1, c.symbol2, c.symbol1, c.breed2, c.breed1, c.coatColor2, c.coatColor1,
      c.confidence2, c.confidence1, c.confidence2 - c.confidence1,
      c.equipment2, c.equipment1, c.accessories2, c.accessories1,
      c.speedModifier2, c.speedModifier1, c.speedModifier2 - c.speedModifier1,
      c.enduranceModifier2, c.enduranceModifier1, c.enduranceModifier2 - c.enduranceModifier1)
  }

  /** Comparing the horses the other way round negates every difference, and comparing
      back again gives the original comparison. */
  lemma SwapNegatesDifferences(c: Comparison)
    requires Consistent(c)
    ensures Consistent(Swap(c))
    ensures Swap(c).confidenceDifference == -c.confidenceDifference
    ensures Swap(c).speedModifierDifference == -c.speedModifierDifference
    ensures Swap(c).enduranceModifierDifference == -c.enduranceModifierDifference
    ensures Swap(Swap(c)) == c
  {
  }

  /** The names of the items, in list order. */
  function Names(items: seq<HorseItem>): (names: seq<string>)
    ensures |names| == |items| && forall i :: 0 <= i < |items| ==> names[i] == items[i].name
  {
    seq(|items|, i requires 0 <= i < |items| => items[i].name)
  }

  /** The names from the first non-empty one on: the builder stays empty, and so gets no
      separator, until a non-empty name has been appended. */
  function DropLeadingEmpty(names: seq<string>): (r: seq<string>)
    ensures |r| <= |names| && r == names[|names| - |r|..]
    ensures r == [] || r[0] != ""
    ensures forall k :: 0 <= k < |names| - |r| ==> names[k] == ""
  {
    if names == [] then []
    else if names[0] == "" then DropLeadingEmpty(names[1..])
    else names
  }

  lemma {:induction false} DropLeadingEmptySnoc(names: seq<string>, x: string)
    ensures DropLeadingEmpty(names + [x])
         == if DropLeadingEmpty(names) == [] then (if x == "" then [] else [x]) else DropLeadingEmpty(names) + [x]
  {
    if names != [] {
      assert (names + [x])[1..] == names[1..] + [x];
      DropLeadingEmptySnoc(names[1..], x);
    }
  }

  /** With no empty name nothing is dropped. */
  lemma NoEmptyNameKeepsAll(names: seq<string>)
    requires forall k :: 0 <= k < |names| ==> names[k] != ""
    ensures DropLeadingEmpty(names) == names
  {
  }

  /** One pass of the builder loop: a separator only when the text is non-empty, then the
      name. */
  lemma AppendName(names: seq<string>, x: string, text: string)
    requires text == Join(DropLeadingEmpty(names), ", ")
    ensures (if text != "" then text + ", " else text) + x == Join(DropLeadingEmpty(names + [x]), ", ")
  {
    var d := DropLeadingEmpty(names);
    DropLeadingEmptySnoc(names, x);
    if d == [] {
      assert text == "";
      if x != "" {
        assert Join([x], ", ") == x;
      }
    } else {
      JoinStartsWithFirst(d, ", ");
      assert |text| > 0;
      JoinSnoc(d, x, ", ");
    }
  }

  /** formatItemList. `None` stands for an argument that is null, not a list, or a list
      whose first element is not an item; that and the empty list give "None". Otherwise
      the item names in list order, with ", " between neighbours once the text is
      non-empty. */
  method FormatItemList(items: Option<seq<HorseItem>>) returns (text: string)
    ensures items.None? || items.value == [] ==> text == "None"
    ensures items.Some? && items.value != [] ==> text == Join(DropLeadingEmpty(Names(items.value)), ", ")
  {
    if items.None? || items.value == [] {
      return "None";
    }
    var list := items.value;
    var names := Names(list);
    text := "";
    var i := 0;
    while i < |list|
      invariant 0 <= i <= |list|
      invariant text == Join(DropLeadingEmpty(names[..i]), ", ")
    {
      var name := list[i].name;
      SliceSnoc(names, 0, i);
      AppendName(names[..i], name, text);
      var separated := if text != "" then text + ", " else text;
      if text != "" {
        text := text + ", ";
      }
      assert text == separated;
      text := text + name;
      i := i + 1;
    }
    assert names[..i] == names;
  }

  /** When every item has a non-empty name, the text is exactly the names joined by ", ":
      no separator at either end, one between neighbours. */
  lemma FormatWithNamedItems(items: seq<HorseItem>)
    requires items != [] && forall k :: 0 <= k < |items| ==> items[k].name != ""
    ensures Join(DropLeadingEmpty(Names(items)), ", ") == Join(Names(items), ", ")
  {
    NoEmptyNameKeepsAll(Names(items));
  }
}
