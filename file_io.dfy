/** The row logic of part2 utils/FileIO.java, over lines already split by Csv.ParseCsvLine
    (each row is the field list of one line, the header line skipped). Reading and writing
    the files is not part of this model: the rows are parameters and the lines to be written
    are results. Double.parseDouble, Integer.parseInt and Long.parseLong are parameters. */
module FileIO {
  import opened Common
  import opened JavaNum
  import opened Csv
  import opened TrackModel

  /** The header updateHorseConfidence writes above the horse rows. */
  const HorsesHeader: string := "name,symbol,confidence,breed,coatColor,equipment,accessories"

  // ---------------------------------------------------------------- horse confidence

  /** A horse row has a name field and a symbol field at least two characters long
      (charAt(1) throws otherwise). */
  predicate IsHorseRow(row: seq<string>) {
    |row| >= 2 && |row[1]| >= 2
  }

  /** The row is the horse's: its name field with every double quote removed is the name,
      and the character after the opening quote of its symbol field is the symbol. */
  predicate DescribesHorse(row: seq<string>, name: string, symbol: char)
    requires IsHorseRow(row)
  {
    RemoveChar(row[0], '"') == name && row[1][1] == symbol
  }

  /** The rows updateHorseConfidence can process: every row is a horse row, and the horse's
      own rows have a confidence field to overwrite. */
  predicate UpdatableRows(rows: seq<seq<string>>, name: string, symbol: char) {
    forall k :: 0 <= k < |rows| ==>
      IsHorseRow(rows[k]) && (DescribesHorse(rows[k], name, symbol) ==> |rows[k]| >= 3)
  }

  /** A row after the update: the horse's rows carry the new confidence text in field 2;
      every other field, and every other row, is as it was. */
  function WithConfidence(row: seq<string>, name: string, symbol: char, confText: string): (r: seq<string>)
    requires IsHorseRow(row) && (DescribesHorse(row, name, symbol) ==> |row| >= 3)
    ensures |r| == |row| && IsHorseRow(r)
    ensures forall k :: 0 <= k < |row| && k != 2 ==> r[k] == row[k]
    ensures DescribesHorse(r, name, symbol) == DescribesHorse(row, name, symbol)
    ensures DescribesHorse(row, name, symbol) ==> r[2] == confText
    ensures !DescribesHorse(row, name, symbol) ==> r == row
  {
    if DescribesHorse(row, name, symbol) then row[2 := confText] else row
  }

  /** Updating a row twice with the same value is the same as updating it once. */
  lemma WithConfidenceIdempotent(row: seq<string>, name: string, symbol: char, confText: string)
    requires IsHorseRow(row) && (DescribesHorse(row, name, symbol) ==> |row| >= 3)
    ensures var once := WithConfidence(row, name, symbol, confText);
      WithConfidence(once, name, symbol, confText) == once
  {
    var once := WithConfidence(row, name, symbol, confText);
    if DescribesHorse(row, name, symbol) {
      assert once[2 := confText] == once;
    }
  }

  /** A line of another horse whose fields carry no surrounding whitespace is written back
      exactly as it was read. */
  lemma OtherHorseLineKept(line: string, name: string, symbol: char, confText: string)
    requires forall k :: 0 <= k < |RawFields(line)| ==> IsTrimmedForm(RawFields(line)[k])
    requires IsHorseRow(Fields(line)) && !DescribesHorse(Fields(line), name, symbol)
    ensures Join(WithConfidence(Fields(line), name, symbol, confText), ",") == line
  {
    ParseJoinRoundTrip(line);
  }

  /** updateHorseConfidence: the lines written to the horse file are the fixed header and
      then, for every row in order, the row after the update joined with ",". The
      confidence arrives already formatted with "%.2f" as confText. */
  method UpdateHorseConfidence(rows: seq<seq<string>>, name: string, symbol: char, confText: string)
    returns (lines: seq<string>)
    requires UpdatableRows(rows, name, symbol)
    ensures |lines| == |rows| + 1 && lines[0] == HorsesHeader
    ensures forall k :: 0 <= k < |rows| ==>
      lines[k + 1] == Join(WithConfidence(rows[k], name, symbol, confText), ",")
  {
    lines := [HorsesHeader];
    for i := 0 to |rows|
      invariant |lines| == i + 1 && lines[0] == HorsesHeader
      invariant forall k :: 0 <= k < i ==>
        lines[k + 1] == Join(WithConfidence(rows[k], name, symbol, confText), ",")
    {
      var data := rows[i];
      var horseName := RemoveChar(data[0], '"');
      var horseSymbol := data[1][1];
      if horseName == name && horseSymbol == symbol {
        data := data[2 := confText];
      }
      lines := lines + [Join(data, ",")];
    }
  }

  // ---------------------------------------------------------------- horse statistics

  /** A race row has the seven fields getHorseStats reads: race id, name, symbol,
      confidence, distance, position and time. */
  predicate IsRaceRow(row: seq<string>) { |row| >= 7 }

  /** The rows getHorseStats can process: every row has a name field, and the horse's own
      rows are complete race rows. */
  predicate StatsRows(rows: seq<seq<string>>, horseName: string) {
    forall k :: 0 <= k < |rows| ==> |rows[k]| >= 2 && (rows[k][1] == horseName ==> IsRaceRow(rows[k]))
  }

  /** The horse's race rows, in file order. */
  function RacesOf(rows: seq<seq<string>>, horseName: string): (rs: seq<seq<string>>)
    requires StatsRows(rows, horseName)
    ensures |rs| <= |rows|
    ensures forall k :: 0 <= k < |rs| ==> IsRaceRow(rs[k]) && rs[k][1] == horseName
  {
    if |rows| == 0 then []
    else
      var init := RacesOf(rows[..|rows| - 1], horseName);
      assert forall k :: 0 <= k < |rows| - 1 ==> rows[..|rows| - 1][k] == rows[k];
      if rows[|rows| - 1][1] == horseName then init + [rows[|rows| - 1]] else init
  }

  /** The horse has no race rows exactly when no row carries its name. */
  lemma {:induction false} RacesOfNone(rows: seq<seq<string>>, horseName: string)
    requires StatsRows(rows, horseName)
    ensures |RacesOf(rows, horseName)| == 0 <==> forall k :: 0 <= k < |rows| ==> rows[k][1] != horseName
  {
    if |rows| > 0 {
      var init := rows[..|rows| - 1];
      assert StatsRows(init, horseName);
      RacesOfNone(init, horseName);
      assert forall k :: 0 <= k < |init| ==> init[k] == rows[k];
    }
  }

  /** A race the horse won: its position rounds (Math.round) to 1. */
  predicate IsWin(row: seq<string>, parseDouble: string -> real)
    requires IsRaceRow(row)
  {
    Round(parseDouble(row[5])) == 1
  }

  function CountWins(rs: seq<seq<string>>, parseDouble: string -> real): (n: nat)
    requires forall k :: 0 <= k < |rs| ==> IsRaceRow(rs[k])
    ensures n <= |rs|
  {
    if |rs| == 0 then 0
    else CountWins(rs[..|rs| - 1], parseDouble) + (if IsWin(rs[|rs| - 1], parseDouble) then 1 else 0)
  }

  /** The confidence a race row contributes: its field 3 when that parses, else 0.5. */
  function ConfidenceOf(row: seq<string>, parseConfidence: string -> Option<real>): real
    requires IsRaceRow(row)
  {
    match parseConfidence(row[3])
    case Some(c) => c
    case None => 0.5
  }

  function SumConfidence(rs: seq<seq<string>>, parseConfidence: string -> Option<real>): real
    requires forall k :: 0 <= k < |rs| ==> IsRaceRow(rs[k])
  {
    if |rs| == 0 then 0.0
    else SumConfidence(rs[..|rs| - 1], parseConfidence) + ConfidenceOf(rs[|rs| - 1], parseConfidence)
  }

  /** A confidence field that parses to a value in [0, 1], or does not parse. */
  predicate SaneConfidence(row: seq<string>, parseConfidence: string -> Option<real>)
    requires IsRaceRow(row)
  {
    parseConfidence(row[3]).None? || 0.0 <= parseConfidence(row[3]).value <= 1.0
  }

  lemma {:induction false} SumConfidenceBounds(rs: seq<seq<string>>, parseConfidence: string -> Option<real>)
    requires forall k :: 0 <= k < |rs| ==> IsRaceRow(rs[k]) && SaneConfidence(rs[k], parseConfidence)
    ensures 0.0 <= SumConfidence(rs, parseConfidence) <= |rs| as real
  {
    if |rs| > 0 {
      SumConfidenceBounds(rs[..|rs| - 1], parseConfidence);
    }
  }

  /** The (distance, time) pairs of the races with a recorded time, in file order: a time
      of -1 means none was recorded, and such a race adds no speed. */
  function TimedRaces(rs: seq<seq<string>>, parseInt: string -> int, parseLong: string -> int): (t: seq<(int, int)>)
    requires forall k :: 0 <= k < |rs| ==> IsRaceRow(rs[k])
    ensures |t| <= |rs|
    ensures forall k :: 0 <= k < |t| ==> t[k].1 != -1
  {
    if |rs| == 0 then []
    else
      var init := TimedRaces(rs[..|rs| - 1], parseInt, parseLong);
      var last := rs[|rs| - 1];
      assert IsRaceRow(last);
      if parseLong(last[6]) != -1 then init + [(parseInt(last[4]), parseLong(last[6]))] else init
  }

  lemma RacesOfSnoc(rows: seq<seq<string>>, horseName: string, i: nat)
    requires StatsRows(rows, horseName) && i < |rows|
    ensures StatsRows(rows[..i], horseName) && StatsRows(rows[..i + 1], horseName)
    ensures RacesOf(rows[..i + 1], horseName)
         == RacesOf(rows[..i], horseName) + (if rows[i][1] == horseName then [rows[i]] else [])
  {
    assert rows[..i + 1][..i] == rows[..i];
  }

  /** One more race row adds its win, its confidence and its timed race, if any. */
  lemma RaceSumsSnoc(rs: seq<seq<string>>, row: seq<string>, parseDouble: string -> real,
                     parseConfidence: string -> Option<real>, parseInt: string -> int,
                     parseLong: string -> int)
    requires forall k :: 0 <= k < |rs| ==> IsRaceRow(rs[k])
    requires IsRaceRow(row)
    ensures CountWins(rs + [row], parseDouble)
         == CountWins(rs, parseDouble) + (if IsWin(row, parseDouble) then 1 else 0)
    ensures SumConfidence(rs + [row], parseConfidence)
         == SumConfidence(rs, parseConfidence) + ConfidenceOf(row, parseConfidence)
    ensures TimedRaces(rs + [row], parseInt, parseLong)
         == TimedRaces(rs, parseInt, parseLong)
            + (if parseLong(row[6]) != -1 then [(parseInt(row[4]), parseLong(row[6]))] else [])
  {
    assert (rs + [row])[..|rs|] == rs;
  }

  /** The statistics map of getHorseStats, when it is not empty. The speeds list is given by
      the (distance, time) pairs it is computed from. */
  datatype HorseStats = HorseStats(totalRaces: nat, wins: nat, winRate: real, avgConfidence: real,
                                   timedRaces: seq<(int, int)>)

  /** The win rate in percent never exceeds 100. */
  lemma RateIsPercentage(count: nat, total: nat)
    requires count <= total && total > 0
    ensures 0.0 <= count as real / total as real * 100.0 <= 100.0
  {
    QuotientInUnitRange(count as real, total as real);
  }

  lemma QuotientInUnitRange(x: real, n: real)
    requires 0.0 <= x <= n && n > 0.0
    ensures 0.0 <= x / n <= 1.0
  {
    var q := x / n;
    assert q * n == x;
  }

  /** The body of getHorseStats' loop for one of the horse's race rows: one more race, a
      win when the position rounds to 1, its confidence (0.5 when the field does not parse)
      and, when a time was recorded, its distance and time. */
  method TallyRace(parts: seq<string>, totalRaces: nat, wins: nat, totalConfidence: real,
                   timed: seq<(int, int)>, parseDouble: string -> real,
                   parseConfidence: string -> Option<real>, parseInt: string -> int,
                   parseLong: string -> int)
    returns (totalRaces': nat, wins': nat, totalConfidence': real, timed': seq<(int, int)>)
    requires IsRaceRow(parts)
    ensures totalRaces' == totalRaces + 1
    ensures wins' == wins + (if IsWin(parts, parseDouble) then 1 else 0)
    ensures totalConfidence' == totalConfidence + ConfidenceOf(parts, parseConfidence)
    ensures timed' == timed + (if parseLong(parts[6]) != -1 then [(parseInt(parts[4]), parseLong(parts[6]))] else [])
  {
    totalRaces' := totalRaces + 1;
    wins' := wins;
    if Round(parseDouble(parts[5])) == 1 {
      wins' := wins + 1;
    }
    var confidence;
    match parseConfidence(parts[3]) {
      case Some(c) => confidence := c;
      case None => confidence := 0.5;
    }
    totalConfidence' := totalConfidence + confidence;
    var distance := parseInt(parts[4]);
    var duration := parseLong(parts[6]);
    timed' := timed;
    if duration != -1 {
      timed' := timed + [(distance, duration)];
    }
  }

  /** The loop of getHorseStats over the race rows: the number of the horse's races, its
      wins, its confidence total and its timed races. */
  method SumRaces(rows: seq<seq<string>>, horseName: string, parseDouble: string -> real,
                  parseConfidence: string -> Option<real>, parseInt: string -> int,
                  parseLong: string -> int)
    returns (totalRaces: nat, wins: nat, totalConfidence: real, timed: seq<(int, int)>)
    requires StatsRows(rows, horseName)
    ensures totalRaces == |RacesOf(rows, horseName)|
    ensures wins == CountWins(RacesOf(rows, horseName), parseDouble)
    ensures totalConfidence == SumConfidence(RacesOf(rows, horseName), parseConfidence)
    ensures timed == TimedRaces(RacesOf(rows, horseName), parseInt, parseLong)
  {
    totalRaces, wins, totalConfidence, timed := 0, 0, 0.0, [];
    ghost var rs: seq<seq<string>> := [];
    for i := 0 to |rows|
      invariant StatsRows(rows[..i], horseName) && rs == RacesOf(rows[..i], horseName)
      invariant forall k :: 0 <= k < |rs| ==> IsRaceRow(rs[k])
      invariant totalRaces == |rs|
      invariant wins == CountWins(rs, parseDouble)
      invariant totalConfidence == SumConfidence(rs, parseConfidence)
      invariant timed == TimedRaces(rs, parseInt, parseLong)
    {
      RacesOfSnoc(rows, horseName, i);
      var parts := rows[i];
      if parts[1] == horseName {
        RaceSumsSnoc(rs, parts, parseDouble, parseConfidence, parseInt, parseLong);
        rs := rs + [parts];
        totalRaces, wins, totalConfidence, timed :=
          TallyRace(parts, totalRaces, wins, totalConfidence, timed, parseDouble, parseConfidence,
                    parseInt, parseLong);
      }
    }
    assert rows[..|rows|] == rows;
  }

  /** getHorseStats: no statistics when the horse has no race row; otherwise the number of
      its races, its wins, the win rate in percent, the average confidence (a field that
      does not parse counts 0.5) and the timed races. */
  method GetHorseStats(rows: seq<seq<string>>, horseName: string, parseDouble: string -> real,
                       parseConfidence: string -> Option<real>, parseInt: string -> int,
                       parseLong: string -> int)
    returns (stats: Option<HorseStats>)
    requires StatsRows(rows, horseName)
    ensures stats.None? <==> forall k :: 0 <= k < |rows| ==> rows[k][1] != horseName
    ensures stats.Some? ==>
      var rs := RacesOf(rows, horseName);
      var s := stats.value;
      && s.totalRaces == |rs| > 0
      && s.wins == CountWins(rs, parseDouble) <= s.totalRaces
      && s.winRate == s.wins as real / s.totalRaces as real * 100.0
      && 0.0 <= s.winRate <= 100.0
      && s.avgConfidence == SumConfidence(rs, parseConfidence) / s.totalRaces as real
      && s.timedRaces == TimedRaces(rs, parseInt, parseLong)
  {
    var totalRaces, wins, totalConfidence, timed :=
      SumRaces(rows, horseName, parseDouble, parseConfidence, parseInt, parseLong);
    RacesOfNone(rows, horseName);
    if totalRaces > 0 {
      RateIsPercentage(wins, totalRaces);
      stats := Some(HorseStats(totalRaces, wins, wins as real / totalRaces as real * 100.0,
                               totalConfidence / totalRaces as real, timed));
    } else {
      stats := None;
    }
  }

  /** When every confidence the horse's rows give lies in [0, 1], so does the average. */
  lemma AverageConfidenceInUnitRange(rows: seq<seq<string>>, horseName: string,
                                     parseConfidence: string -> Option<real>)
    requires StatsRows(rows, horseName)
    requires forall k :: 0 <= k < |RacesOf(rows, horseName)| ==>
      SaneConfidence(RacesOf(rows, horseName)[k], parseConfidence)
    requires |RacesOf(rows, horseName)| > 0
    ensures var n := |RacesOf(rows, horseName)| as real;
      0.0 <= SumConfidence(RacesOf(rows, horseName), parseConfidence) / n <= 1.0
  {
    var rs := RacesOf(rows, horseName);
    SumConfidenceBounds(rs, parseConfidence);
    QuotientInUnitRange(SumConfidence(rs, parseConfidence), |rs| as real);
  }

  // ---------------------------------------------------------------- betting statistics

  /** Boolean.parseBoolean: "true", ignoring case; anything else is false. */
  predicate ParseBoolean(s: string) {
    |s| == 4 && s[0] in "tT" && s[1] in "rR" && s[2] in "uU" && s[3] in "eE"
  }

  /** The rows getBettingStats can process: every row has amount and won fields, and a won
      bet has a winnings field. */
  predicate BetRows(rows: seq<seq<string>>) {
    forall k :: 0 <= k < |rows| ==> |rows[k]| >= 7 && (ParseBoolean(rows[k][6]) ==> |rows[k]| >= 8)
  }

  function CountWon(rows: seq<seq<string>>): (n: nat)
    requires BetRows(rows)
    ensures n <= |rows|
  {
    if |rows| == 0 then 0
    else CountWon(rows[..|rows| - 1]) + (if ParseBoolean(rows[|rows| - 1][6]) then 1 else 0)
  }

  function SumStakes(rows: seq<seq<string>>, parseDouble: string -> real): real
    requires BetRows(rows)
  {
    if |rows| == 0 then 0.0
    else SumStakes(rows[..|rows| - 1], parseDouble) + parseDouble(rows[|rows| - 1][5])
  }

  function SumWinnings(rows: seq<seq<string>>, parseDouble: string -> real): real
    requires BetRows(rows)
  {
    if |rows| == 0 then 0.0
    else
      var last := rows[|rows| - 1];
      SumWinnings(rows[..|rows| - 1], parseDouble) + (if ParseBoolean(last[6]) then parseDouble(last[7]) else 0.0)
  }

  /** The statistics map of getBettingStats, when it is not empty. The return on investment
      is absent when the total stake is 0 (Java's division then gives NaN or an infinity). */
  datatype BettingStats = BettingStats(totalBets: nat, winningBets: nat, winRate: real,
                                       totalBetAmount: real, totalWinnings: real,
                                       profitLoss: real, roi: Option<real>)

  /** A book in which no bet won has lost exactly its stakes. */
  lemma {:induction false} NoWinNoWinnings(rows: seq<seq<string>>, parseDouble: string -> real)
    requires BetRows(rows) && CountWon(rows) == 0
    ensures SumWinnings(rows, parseDouble) == 0.0
  {
    if |rows| > 0 {
      NoWinNoWinnings(rows[..|rows| - 1], parseDouble);
    }
  }

  /** getBettingStats: no statistics without bets; otherwise the counts, the win rate in
      percent, the total stake, the total winnings of the won bets, the profit or loss as
      winnings minus stakes, and the return on investment in percent. */
  method GetBettingStats(rows: seq<seq<string>>, parseDouble: string -> real)
    returns (stats: Option<BettingStats>)
    requires BetRows(rows)
    ensures stats.None? <==> |rows| == 0
    ensures stats.Some? ==>
      var s := stats.value;
      && s.totalBets == |rows|
      && s.winningBets == CountWon(rows) <= s.totalBets
      && s.winRate == s.winningBets as real / s.totalBets as real * 100.0
      && 0.0 <= s.winRate <= 100.0
      && s.totalBetAmount == SumStakes(rows, parseDouble)
      && s.totalWinnings == SumWinnings(rows, parseDouble)
      && s.profitLoss == s.totalWinnings - s.totalBetAmount
      && (s.roi.None? <==> s.totalBetAmount == 0.0)
      && (s.roi.Some? ==> s.roi.value == s.profitLoss / s.totalBetAmount * 100.0)
  {
    var totalBets := 0;
    var winningBets := 0;
    var totalBetAmount := 0.0;
    var totalWinnings := 0.0;
    for i := 0 to |rows|
      invariant totalBets == i
      invariant winningBets == CountWon(rows[..i])
      invariant totalBetAmount == SumStakes(rows[..i], parseDouble)
      invariant totalWinnings == SumWinnings(rows[..i], parseDouble)
    {
      assert rows[..i + 1][..i] == rows[..i];
      var parts := rows[i];
      totalBets := totalBets + 1;
      totalBetAmount := totalBetAmount + parseDouble(parts[5]);
      if ParseBoolean(parts[6]) {
        winningBets := winningBets + 1;
        totalWinnings := totalWinnings + parseDouble(parts[7]);
      }
    }
    assert rows[..|rows|] == rows;
    if totalBets > 0 {
      RateIsPercentage(winningBets, totalBets);
      var profitLoss := totalWinnings - totalBetAmount;
      var roi := if totalBetAmount == 0.0 then None else Some(profitLoss / totalBetAmount * 100.0);
      stats := Some(BettingStats(totalBets, winningBets, winningBets as real / totalBets as real * 100.0,
                                 totalBetAmount, totalWinnings, profitLoss, roi));
    } else {
      stats := None;
    }
  }

  // ---------------------------------------------------------------- tracks

  /** TrackShape.valueOf: the constant with exactly that name, or none (valueOf throws). */
  function ShapeValueOf(s: string): (shape: Option<TrackShape>)
    ensures shape == Some(Oval) <==> s == "OVAL"
    ensures shape == Some(FigureEight) <==> s == "FIGURE_EIGHT"
  {
    if s == "OVAL" then Some(Oval)
    else if s == "FIGURE_EIGHT" then Some(FigureEight)
    else None
  }

  /** The rows loadTracks turns into tracks: those with at least three fields. */
  function TrackRows(rows: seq<seq<string>>): (rs: seq<seq<string>>)
    ensures |rs| <= |rows|
    ensures forall k :: 0 <= k < |rs| ==> |rs[k]| >= 3
    ensures (forall k :: 0 <= k < |rows| ==> |rows[k]| >= 3) ==> rs == rows
  {
    if |rows| == 0 then []
    else
      var init := TrackRows(rows[..|rows| - 1]);
      assert rows[..|rows| - 1] + [rows[|rows| - 1]] == rows;
      if |rows[|rows| - 1]| >= 3 then init + [rows[|rows| - 1]] else init
  }

  lemma TrackRowsSnoc(rows: seq<seq<string>>, i: nat)
    requires i < |rows|
    ensures TrackRows(rows[..i + 1]) == TrackRows(rows[..i]) + (if |rows[i]| >= 3 then [rows[i]] else [])
  {
    assert rows[..i + 1][..i] == rows[..i];
  }

  /** Every row that becomes a track names a shape. */
  predicate ShapesNamed(rows: seq<seq<string>>) {
    forall k :: 0 <= k < |rows| ==> |rows[k]| >= 3 ==> ShapeValueOf(rows[k][2]).Some?
  }

  /** The best time a track row records: field 3 when present and not empty, else none (0). */
  function BestTimeOf(row: seq<string>, parseDouble: string -> real): real {
    if |row| >= 4 && row[3] != "" then parseDouble(row[3]) else 0.0
  }

  /** The best horse a track row records: field 4 when present and not empty, else none. */
  function BestHorseOf(row: seq<string>): string {
    if |row| >= 5 && row[4] != "" then row[4] else ""
  }

  /** The track a row describes: its name, length and shape, three lanes, a dry surface,
      and the row's best time and best horse. */
  ghost predicate LoadedFrom(t: Track, row: seq<string>, parseInt: string -> int, parseDouble: string -> real)
    reads t
  {
    && |row| >= 3
    && t.name == row[0] && t.laneCount == 3 && t.length == parseInt(row[1])
    && Some(t.shape) == ShapeValueOf(row[2]) && t.condition == Dry
    && t.bestTime == BestTimeOf(row, parseDouble) && t.bestHorse == BestHorseOf(row)
  }

  /** The body of loadTracks' loop for one row: a new track, then its record fields. */
  method NewTrack(parts: seq<string>, parseInt: string -> int, parseDouble: string -> real)
    returns (track: Track)
    requires |parts| >= 3 && ShapeValueOf(parts[2]).Some?
    ensures fresh(track) && LoadedFrom(track, parts, parseInt, parseDouble)
  {
    var shape := ShapeValueOf(parts[2]).value;
    track := new Track(parts[0], 3, parseInt(parts[1]), shape, Dry);
    if |parts| >= 4 && parts[3] != "" {
      track.SetBestTime(parseDouble(parts[3]));
    }
    if |parts| >= 5 && parts[4] != "" {
      track.SetBestHorse(parts[4]);
    }
  }

  /** loadTracks: one new track per row with at least three fields, in file order, with
      three lanes and a dry surface whatever the file says, and the best time and best
      horse only where the row has them. */
  method LoadTracks(rows: seq<seq<string>>, parseInt: string -> int, parseDouble: string -> real)
    returns (tracks: seq<Track>)
    requires ShapesNamed(rows)
    ensures |tracks| == |TrackRows(rows)|
    ensures forall i :: 0 <= i < |tracks| ==>
      fresh(tracks[i]) && LoadedFrom(tracks[i], TrackRows(rows)[i], parseInt, parseDouble)
  {
    tracks := [];
    ghost var rs: seq<seq<string>> := [];
    for i := 0 to |rows|
      invariant rs == TrackRows(rows[..i]) && |tracks| == |rs|
      invariant forall j :: 0 <= j < |tracks| ==>
        fresh(tracks[j]) && LoadedFrom(tracks[j], rs[j], parseInt, parseDouble)
    {
      TrackRowsSnoc(rows, i);
      var parts := rows[i];
      if |parts| >= 3 {
        var track := NewTrack(parts, parseInt, parseDouble);
        tracks, rs := tracks + [track], rs + [parts];
      }
    }
    assert rows[..|rows|] == rows;
  }
}
