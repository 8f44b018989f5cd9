/** The line logic of part2 utils/fileIO.java, the second copy of the file layer. It reads
    lines one by one and splits each with Csv.ParseCsvLine. The file contents are
    parameters (all lines, header first, or the lines after the header) and what would be
    written is a result. Double.parseDouble and Double.toString are parameters. */
module FileIOAlt {
  import opened Common
  import opened Csv
  import HorseModel

  // ---------------------------------------------------------------- horse confidence

  /** A horse line splits into a name field and a symbol field at least two characters
      long (charAt(1) throws otherwise). */
  predicate IsHorseLine(line: string) {
    |Fields(line)| >= 2 && |Fields(line)[1]| >= 2
  }

  /** The line is the horse's: its first field with every double quote removed is the name,
      and the character after the opening quote of its second field is the symbol. */
  predicate LineIsHorse(line: string, name: string, symbol: char) {
    IsHorseLine(line) && RemoveChar(Fields(line)[0], '"') == name && Fields(line)[1][1] == symbol
  }

  /** The line written for the horse: the name in double quotes, the symbol field as it
      was read, and the new confidence; any later field of the old line is dropped. */
  function HorseLine(name: string, symbolField: string, confText: string): string {
    "\"" + name + "\"," + symbolField + "," + confText
  }

  /** A line after the update: the horse's line rewritten, every other line verbatim. */
  function Rewritten(line: string, name: string, symbol: char, confText: string): string {
    if LineIsHorse(line, name, symbol) then HorseLine(name, Fields(line)[1], confText) else line
  }

  /** Every line is a horse line. */
  predicate HorseLines(lines: seq<string>) {
    forall k :: 0 <= k < |lines| ==> IsHorseLine(lines[k])
  }

  /** Some element satisfies p, scanning from the front as a found flag would. */
  function Any<T>(xs: seq<T>, p: T -> bool): bool {
    if |xs| == 0 then false else Any(xs[..|xs| - 1], p) || p(xs[|xs| - 1])
  }

  lemma {:induction false} AnyMeans<T>(xs: seq<T>, p: T -> bool)
    ensures Any(xs, p) <==> exists k :: 0 <= k < |xs| && p(xs[k])
  {
    if |xs| > 0 {
      var init := xs[..|xs| - 1];
      AnyMeans(init, p);
      assert forall k :: 0 <= k < |init| ==> init[k] == xs[k];
    }
  }

  /** Some line is the horse's. */
  function AnyHorse(lines: seq<string>, name: string, symbol: char): bool {
    Any(lines, line => LineIsHorse(line, name, symbol))
  }

  /** AnyHorse holds exactly when some line is the horse's. */
  lemma AnyHorseMeans(lines: seq<string>, name: string, symbol: char)
    ensures AnyHorse(lines, name, symbol) <==>
      exists k :: 0 <= k < |lines| && LineIsHorse(lines[k], name, symbol)
  {
    AnyMeans(lines, line => LineIsHorse(line, name, symbol));
  }

  /** The lines after the update, in order. */
  function RewriteAll(lines: seq<string>, name: string, symbol: char, confText: string): (r: seq<string>)
    ensures |r| == |lines|
    ensures forall k :: 0 <= k < |lines| ==> r[k] == Rewritten(lines[k], name, symbol, confText)
  {
    if |lines| == 0 then []
    else
      var init := lines[..|lines| - 1];
      assert forall k :: 0 <= k < |init| ==> init[k] == lines[k];
      RewriteAll(init, name, symbol, confText) + [Rewritten(lines[|lines| - 1], name, symbol, confText)]
  }

  lemma RewriteSnoc(lines: seq<string>, line: string, name: string, symbol: char, confText: string)
    ensures RewriteAll(lines + [line], name, symbol, confText)
      == RewriteAll(lines, name, symbol, confText) + [Rewritten(line, name, symbol, confText)]
    ensures AnyHorse(lines + [line], name, symbol)
      == (AnyHorse(lines, name, symbol) || LineIsHorse(line, name, symbol))
  {
    assert (lines + [line])[..|lines|] == lines;
  }

  datatype UpdateOutcome = Rejected | NotFound | Written(lines: seq<string>)

  /** The body of updateHorseConfidence's loop for one line. */
  method RewriteLine(line: string, name: string, symbol: char, confText: string)
    returns (updated: string, matched: bool)
    requires IsHorseLine(line)
    ensures matched == LineIsHorse(line, name, symbol)
    ensures updated == Rewritten(line, name, symbol, confText)
  {
    var horseData := ParseCsvLine(line);
    var horseName := RemoveChar(horseData[0], '"');
    var horseSymbol := horseData[1][1];
    if horseName == name && horseSymbol == symbol {
      updated, matched := HorseLine(name, horseData[1], confText), true;
    } else {
      updated, matched := line, false;
    }
  }

  /** updateHorseConfidence on the horse file's lines, header first: a value outside
      [0, 1] is rejected before the file is read; when no line after the header is the
      horse's nothing is written; otherwise the file is written back with the header
      unchanged and every later line rewritten: the horse's lines replaced, every other
      line exactly as read. confText is the value as Double.toString prints it. */
  method UpdateHorseConfidence(file: seq<string>, name: string, symbol: char,
                               newConfidence: real, confText: string)
    returns (outcome: UpdateOutcome)
    requires 0.0 <= newConfidence <= 1.0 && |file| > 0 ==> HorseLines(file[1..])
    ensures !(0.0 <= newConfidence <= 1.0) <==> outcome.Rejected?
    ensures 0.0 <= newConfidence <= 1.0 ==>
      (outcome.NotFound? <==> (|file| == 0 || !AnyHorse(file[1..], name, symbol)))
    ensures outcome.Written? ==>
      |file| > 0 && outcome.lines == [file[0]] + RewriteAll(file[1..], name, symbol, confText)
  {
    if newConfidence < 0.0 || newConfidence > 1.0 {
      return Rejected;
    }
    if |file| == 0 {
      // readLine gives null for the header and then for the first line: nothing matches
      return NotFound;
    }
    var rewritten: seq<string> := [];
    var horseFound := false;
    for i := 1 to |file|
      invariant rewritten == RewriteAll(file[1..i], name, symbol, confText)
      invariant horseFound == AnyHorse(file[1..i], name, symbol)
    {
      SliceSnoc(file, 1, i);
      RewriteSnoc(file[1..i], file[i], name, symbol, confText);
      assert file[i] == file[1..][i - 1];
      var updated, matched := RewriteLine(file[i], name, symbol, confText);
      rewritten := rewritten + [updated];
      horseFound := horseFound || matched;
    }
    assert file[1..|file|] == file[1..];
    if !horseFound {
      return NotFound;
    }
    var lines := [file[0]] + rewritten;
    return Written(lines);
  }

  /** Reading a rewritten horse line: the quoted name and the symbol field are completed
      fields and the confidence text is the field being read, outside quotes. */
  lemma ScanHorseLine(name: string, symbolField: string, confText: string)
    requires forall k :: 0 <= k < |name| ==> !IsQuote(name[k])
    requires ',' !in symbolField && QuoteCount(symbolField) % 2 == 0
    requires ',' !in confText && QuoteCount(confText) == 0
    ensures ScanLine(HorseLine(name, symbolField, confText))
      == Scan(["\"" + name + "\"", symbolField], confText, false)
  {
    var quoted := "\"" + name + "\"";
    var a1 := quoted + ",";
    var a2 := a1 + symbolField;
    var a3 := a2 + ",";
    assert "\"" + name + "\"," == a1;
    assert HorseLine(name, symbolField, confText) == a3 + confText;
    ScanLineQuoted(name);
    ScanLineComma(quoted, [], quoted);
    assert "" + symbolField == symbolField && "" + confText == confText;
    ScanLinePlain(a1, symbolField, [quoted], "");
    ScanLineComma(a2, [quoted], symbolField);
    ScanLinePlain(a3, confText, [quoted, symbolField], "");
  }

  /** Removing the double quotes around a name without any gives the name back. */
  lemma UnquoteQuoted(name: string)
    requires forall k :: 0 <= k < |name| ==> !IsQuote(name[k])
    ensures RemoveChar("\"" + name + "\"", '"') == name
  {
    var q := "\"";
    RemoveCharConcat(q, name, '"');
    RemoveCharConcat(q + name, q, '"');
    assert RemoveChar(q, '"') == "" by {
      assert q[..0] == "";
    }
  }

  /** A rewritten horse line reads back as the same horse with the new confidence: its
      fields are exactly the quoted name, the symbol field and the confidence text. This
      holds when the name has no quote character, the symbol field no comma and an even
      number of quote characters, and the confidence text no quote, comma or surrounding
      whitespace (Double.toString never prints those). */
  lemma HorseLineReadsBack(name: string, symbolField: string, symbol: char, confText: string)
    requires forall k :: 0 <= k < |name| ==> !IsQuote(name[k])
    requires ',' !in symbolField && QuoteCount(symbolField) % 2 == 0
    requires IsTrimmedForm(symbolField) && |symbolField| >= 2 && symbolField[1] == symbol
    requires ',' !in confText && QuoteCount(confText) == 0 && IsTrimmedForm(confText)
    ensures Fields(HorseLine(name, symbolField, confText)) == ["\"" + name + "\"", symbolField, confText]
    ensures IsHorseLine(HorseLine(name, symbolField, confText))
    ensures LineIsHorse(HorseLine(name, symbolField, confText), name, symbol)
  {
    HorseLineFields(name, symbolField, confText);
    UnquoteQuoted(name);
  }

  /** The fields of a rewritten horse line are the quoted name, the symbol field and the
      confidence text. */
  lemma HorseLineFields(name: string, symbolField: string, confText: string)
    requires forall k :: 0 <= k < |name| ==> !IsQuote(name[k])
    requires ',' !in symbolField && QuoteCount(symbolField) % 2 == 0 && IsTrimmedForm(symbolField)
    requires ',' !in confText && QuoteCount(confText) == 0 && IsTrimmedForm(confText)
    ensures Fields(HorseLine(name, symbolField, confText)) == ["\"" + name + "\"", symbolField, confText]
  {
    var quoted := "\"" + name + "\"";
    var line := HorseLine(name, symbolField, confText);
    ScanHorseLine(name, symbolField, confText);
    var raw := [quoted, symbolField, confText];
    assert RawFields(line) == raw;
    assert IsTrimmedForm(quoted);
    TrimAllKeeps(raw);
  }

  /** The line saveHorses writes for a horse: the name in double quotes, the symbol in
      single quotes, the confidence text, then the breed, coat colour and base stats as
      `rest`. */
  function SavedLine(name: string, symbol: char, confText: string, rest: string): string {
    HorseLine(name, "'" + [symbol] + "'", confText) + "," + rest
  }

  /** The symbol field saveHorses writes, `'c'`: two quotes, no comma, no blank end. */
  lemma QuotedSymbol(symbol: char)
    requires !IsQuote(symbol) && symbol != ','
    ensures var sf := "'" + [symbol] + "'";
      ',' !in sf && QuoteCount(sf) == 2 && IsTrimmedForm(sf)
  {
    var sf := "'" + [symbol] + "'";
    assert sf[..2] == ['\'', symbol] && sf[..2][..1] == ['\''] && ['\''][..0] == [];
    assert QuoteCount(['\'']) == 1;
    assert QuoteCount(sf[..2]) == 1;
  }

  /** Before trimming, a saved line splits into the quoted name, the quoted symbol and the
      confidence text first, whatever the rest holds. */
  lemma SavedLineRaw(name: string, symbol: char, confText: string, rest: string)
    requires forall k :: 0 <= k < |name| ==> !IsQuote(name[k])
    requires !IsQuote(symbol) && symbol != ','
    requires ',' !in confText && QuoteCount(confText) == 0
    ensures var raw := RawFields(SavedLine(name, symbol, confText, rest));
      |raw| >= 3 && raw[0] == "\"" + name + "\"" && raw[1] == "'" + [symbol] + "'" && raw[2] == confText
  {
    var sf := "'" + [symbol] + "'";
    var line0 := HorseLine(name, sf, confText);
    var done := ["\"" + name + "\"", sf, confText];
    QuotedSymbol(symbol);
    ScanHorseLine(name, sf, confText);
    ScanLineComma(line0, done[..2], confText);
    assert done[..2] + [confText] == done;
    ScanFromConcat(Scan([], "", false), line0 + ",", rest);
    ScanFromKeepsDone(ScanLine(line0 + ","), rest);
    assert SavedLine(name, symbol, confText, rest) == line0 + "," + rest;
    assert done <= ScanLine(SavedLine(name, symbol, confText, rest)).done;
  }

  /** A saved line's first three fields are the quoted name, the quoted symbol and the
      confidence text, whatever the rest holds. */
  lemma SavedLineFields(name: string, symbol: char, confText: string, rest: string)
    requires forall k :: 0 <= k < |name| ==> !IsQuote(name[k])
    requires !IsQuote(symbol) && symbol != ','
    requires ',' !in confText && QuoteCount(confText) == 0 && IsTrimmedForm(confText)
    ensures var f := Fields(SavedLine(name, symbol, confText, rest));
      |f| >= 3 && f[0] == "\"" + name + "\"" && f[1] == "'" + [symbol] + "'" && f[2] == confText
  {
    var quoted := "\"" + name + "\"";
    QuotedSymbol(symbol);
    SavedLineRaw(name, symbol, confText, rest);
    assert IsTrimmedForm(quoted);
  }

  /** saveHorses then ingestHorses: the name, the symbol and the confidence (as
      Double.parseDouble reads the saved text, and 0 outside [0, 1]) read back, but the
      breed and coat colour do not: every loaded horse is a Thoroughbred of Bay coat. */
  lemma SaveLoadRoundTrip(h: HorseModel.Horse, name: string, symbol: char, confText: string, rest: string,
                          breedLines: seq<string>, parseDouble: string -> real)
    requires forall k :: 0 <= k < |name| ==> !IsQuote(name[k])
    requires !IsQuote(symbol) && symbol != ','
    requires ',' !in confText && QuoteCount(confText) == 0 && IsTrimmedForm(confText)
    requires LoadedFrom(h, SavedLine(name, symbol, confText, rest), breedLines, parseDouble)
    ensures h.name == name && h.symbol == symbol
    ensures var c := parseDouble(confText); h.confidence == (if 0.0 <= c <= 1.0 then c else 0.0)
    ensures h.breed == DefaultBreed && h.coatColor == DefaultCoatColor
  {
    SavedLineHorse(name, symbol, confText, rest, parseDouble);
  }

  /** What ingestHorses reads from a saved line: the saved name, symbol and confidence. */
  lemma SavedLineHorse(name: string, symbol: char, confText: string, rest: string, parseDouble: string -> real)
    requires forall k :: 0 <= k < |name| ==> !IsQuote(name[k])
    requires !IsQuote(symbol) && symbol != ','
    requires ',' !in confText && QuoteCount(confText) == 0 && IsTrimmedForm(confText)
    ensures IsLoadableLine(SavedLine(name, symbol, confText, rest))
    ensures var c := parseDouble(confText);
      LineHorse(SavedLine(name, symbol, confText, rest), parseDouble) == (name, symbol, if 0.0 <= c <= 1.0 then c else 0.0)
  {
    var line := SavedLine(name, symbol, confText, rest);
    SavedLineFields(name, symbol, confText, rest);
    UnquoteQuoted(name);
    var f := Fields(line);
    assert RemoveChar(f[0], '"') == name && f[1][1] == symbol && f[2] == confText;
  }

  // ---------------------------------------------------------------- breed attributes

  /** A breed line has at least five fields and names the breed first. */
  predicate IsBreedLine(line: string, breedName: string) {
    |Fields(line)| >= 5 && Fields(line)[0] == breedName
  }

  /** Base speed, base endurance and base confidence as a breed line gives them. */
  function AttributesOf(line: string, parseDouble: string -> real): (real, real, real)
    requires |Fields(line)| >= 5
  {
    var f := Fields(line);
    (parseDouble(f[1]), parseDouble(f[2]), parseDouble(f[3]))
  }

  /** The attributes of the first line for the breed, or none. */
  function BreedAttributes(lines: seq<string>, breedName: string, parseDouble: string -> real)
    : Option<(real, real, real)>
  {
    if |lines| == 0 then None
    else if IsBreedLine(lines[0], breedName) then Some(AttributesOf(lines[0], parseDouble))
    else BreedAttributes(lines[1..], breedName, parseDouble)
  }

  /** The position of the first line for the breed, or the number of lines when there is
      none. */
  function FirstBreedLine(lines: seq<string>, breedName: string): (i: nat)
    ensures i <= |lines|
    ensures forall k :: 0 <= k < i ==> !IsBreedLine(lines[k], breedName)
    ensures i < |lines| ==> IsBreedLine(lines[i], breedName)
  {
    if |lines| == 0 || IsBreedLine(lines[0], breedName) then 0
    else
      var j := FirstBreedLine(lines[1..], breedName);
      assert forall k :: 1 <= k < |lines| ==> lines[k] == lines[1..][k - 1];
      j + 1
  }

  /** BreedAttributes is a first-match lookup: none exactly when no line is for the breed,
      and otherwise the attributes of the first line that is. */
  lemma {:induction false} BreedAttributesFirstMatch(lines: seq<string>, breedName: string, parseDouble: string -> real)
    ensures BreedAttributes(lines, breedName, parseDouble).None? <==>
      forall k :: 0 <= k < |lines| ==> !IsBreedLine(lines[k], breedName)
    ensures var i := FirstBreedLine(lines, breedName);
      BreedAttributes(lines, breedName, parseDouble)
        == if i < |lines| then Some(AttributesOf(lines[i], parseDouble)) else None
  {
    if |lines| > 0 && !IsBreedLine(lines[0], breedName) {
      BreedAttributesFirstMatch(lines[1..], breedName, parseDouble);
    }
  }

  /** getBreedAttributes on the breed file's lines after the header: the lookup loop. */
  method GetBreedAttributes(lines: seq<string>, breedName: string, parseDouble: string -> real)
    returns (attributes: Option<(real, real, real)>)
    ensures attributes == BreedAttributes(lines, breedName, parseDouble)
  {
    for i := 0 to |lines|
      invariant BreedAttributes(lines[i..], breedName, parseDouble) == BreedAttributes(lines, breedName, parseDouble)
    {
      assert lines[i..][1..] == lines[i + 1..];
      var parts := ParseCsvLine(lines[i]);
      if |parts| >= 5 && parts[0] == breedName {
        return Some((parseDouble(parts[1]), parseDouble(parts[2]), parseDouble(parts[3])));
      }
    }
    return None;
  }

  /** The base speed and base endurance a horse gets from its breed's attributes, 1.0 each
      when the breed is not found. */
  function BaseStats(attributes: Option<(real, real, real)>): (stats: (real, real))
    ensures attributes.None? ==> stats == (1.0, 1.0)
    ensures attributes.Some? ==> stats == (attributes.value.0, attributes.value.1)
  {
    match attributes
    case None => (1.0, 1.0)
    case Some(a) => (a.0, a.1)
  }

  // ---------------------------------------------------------------- loading horses

  /** The breed and coat colour every loaded horse gets. */
  const DefaultBreed: string := "Thoroughbred"
  const DefaultCoatColor: string := "Bay"

  /** A line ingestHorses can load: a horse line with a confidence field. */
  predicate IsLoadableLine(line: string) {
    IsHorseLine(line) && |Fields(line)| >= 3
  }

  /** What ingestHorses reads from a loadable line: the first field without its double
      quotes, the character after the second field's opening quote, and the third field
      parsed, 0 outside [0, 1] as the Horse constructor stores it. */
  function LineHorse(line: string, parseDouble: string -> real): (string, char, real)
    requires IsLoadableLine(line)
  {
    var f := Fields(line);
    var c := parseDouble(f[2]);
    (RemoveChar(f[0], '"'), f[1][1], if 0.0 <= c <= 1.0 then c else 0.0)
  }

  /** A horse as the seven-argument Horse constructor makes it from a name, symbol and
      confidence, the default breed and coat colour, and base speed and endurance. */
  ghost predicate Built(h: HorseModel.Horse, values: (string, char, real), base: (real, real))
    reads h
  {
    && (h.name, h.symbol, h.confidence) == values
    && h.breed == DefaultBreed && h.coatColor == DefaultCoatColor
    && (h.baseSpeed, h.baseEndurance) == base
    && h.distance == 0 && !h.fallen && h.equipment == [] && h.accessories == []
  }

  /** Each horse of `horses` is built from the values at its own index. */
  ghost predicate AllBuilt(horses: seq<HorseModel.Horse>, vals: seq<(string, char, real)>,
                           base: (real, real))
    reads horses
  {
    forall j :: 0 <= j < |horses| ==> j < |vals| && Built(horses[j], vals[j], base)
  }

  /** A horse built from the next values extends AllBuilt by one. */
  lemma AllBuiltSnoc(horses: seq<HorseModel.Horse>, h: HorseModel.Horse,
                     vals: seq<(string, char, real)>, base: (real, real))
    requires AllBuilt(horses, vals, base)
    requires |horses| < |vals| && Built(h, vals[|horses|], base)
    ensures AllBuilt(horses + [h], vals, base)
  {
    var hs := horses + [h];
    forall j | 0 <= j < |hs|
      ensures j < |vals| && Built(hs[j], vals[j], base)
    {
      if j < |horses| {
        assert hs[j] == horses[j];
      }
    }
  }

  /** The horse a line describes, as the seven-argument Horse constructor makes it. */
  ghost predicate LoadedFrom(h: HorseModel.Horse, line: string, breedLines: seq<string>,
                             parseDouble: string -> real)
    reads h
  {
    && IsLoadableLine(line)
    && Built(h, LineHorse(line, parseDouble), BaseStats(BreedAttributes(breedLines, DefaultBreed, parseDouble)))
  }

  /** The body of ingestHorses' loop for one line. */
  method IngestHorse(line: string, breedLines: seq<string>, parseDouble: string -> real)
    returns (horse: HorseModel.Horse)
    requires IsLoadableLine(line)
    ensures fresh(horse) && LoadedFrom(horse, line, breedLines, parseDouble)
  {
    var horseData := ParseCsvLine(line);
    var name := RemoveChar(horseData[0], '"');
    var symbol := horseData[1][1];
    var confidence := parseDouble(horseData[2]);
    var breedAttributes := GetBreedAttributes(breedLines, DefaultBreed, parseDouble);
    var baseSpeed := if breedAttributes.Some? then breedAttributes.value.0 else 1.0;
    var baseEndurance := if breedAttributes.Some? then breedAttributes.value.1 else 1.0;
    horse := new HorseModel.Horse(symbol, name, confidence, DefaultBreed, DefaultCoatColor,
                                  baseSpeed, baseEndurance);
  }

  /** Horses built from the values the lines describe are the horses those lines load. */
  lemma AllBuiltLoaded(horses: seq<HorseModel.Horse>, lines: seq<string>,
                       vals: seq<(string, char, real)>, breedLines: seq<string>,
                       parseDouble: string -> real)
    requires |horses| == |lines| == |vals|
    requires forall k :: 0 <= k < |lines| ==>
      IsLoadableLine(lines[k]) && vals[k] == LineHorse(lines[k], parseDouble)
    requires AllBuilt(horses, vals, BaseStats(BreedAttributes(breedLines, DefaultBreed, parseDouble)))
    ensures forall i :: 0 <= i < |lines| ==> LoadedFrom(horses[i], lines[i], breedLines, parseDouble)
  {
    var base := BaseStats(BreedAttributes(breedLines, DefaultBreed, parseDouble));
    forall i | 0 <= i < |lines|
      ensures LoadedFrom(horses[i], lines[i], breedLines, parseDouble)
    {
      assert Built(horses[i], vals[i], base);
    }
  }

  /** ingestHorses on the horse file's lines after the header: one new horse per line, in
      order, a Thoroughbred of Bay coat whose base speed and endurance come from the breed
      file, or are 1.0 when the breed is not there. */
  method IngestHorses(lines: seq<string>, breedLines: seq<string>, parseDouble: string -> real)
    returns (horses: seq<HorseModel.Horse>)
    requires forall k :: 0 <= k < |lines| ==> IsLoadableLine(lines[k])
    ensures |horses| == |lines|
    ensures forall i :: 0 <= i < |lines| ==>
      fresh(horses[i]) && LoadedFrom(horses[i], lines[i], breedLines, parseDouble)
  {
    horses := [];
    ghost var base := BaseStats(BreedAttributes(breedLines, DefaultBreed, parseDouble));
    ghost var vals := seq(|lines|, k requires 0 <= k < |lines| => LineHorse(lines[k], parseDouble));
    for i := 0 to |lines|
      invariant |horses| == i
      invariant forall j :: 0 <= j < i ==> fresh(horses[j])
      invariant AllBuilt(horses, vals, base)
    {
      var horse := IngestHorse(lines[i], breedLines, parseDouble);
      assert Built(horse, vals[i], base);
      AllBuiltSnoc(horses, horse, vals, base);
      horses := horses + [horse];
    }
    AllBuiltLoaded(horses, lines, vals, breedLines, parseDouble);
  }
}
