/** Splitting one CSV line into fields, as parseCSVLine does in both part2 utils/FileIO.java
    and utils/fileIO.java (the two copies are the same algorithm). A single in-quotes flag is
    toggled by both the double and the single quote character, quote characters stay in the
    field text, a comma splits only outside quotes, and every field is trimmed. */
module Csv {
  import opened Common

  /** Both quote characters toggle the same flag. */
  predicate IsQuote(c: char) { c == '"' || c == '\'' }

  /** How many quote characters (of either kind) occur in s. */
  function QuoteCount(s: string): nat {
    if |s| == 0 then 0
    else QuoteCount(s[..|s| - 1]) + (if IsQuote(s[|s| - 1]) then 1 else 0)
  }

  /** The reference reading of a separator: the comma at position i splits the line when an
      even number of quote characters precede it. */
  predicate SplitsAt(line: string, i: nat)
    requires i < |line|
  {
    line[i] == ',' && QuoteCount(line[..i]) % 2 == 0
  }

  /** The number of commas that split the line. */
  function OutsideCommas(line: string): nat {
    if |line| == 0 then 0
    else OutsideCommas(line[..|line| - 1]) + (if SplitsAt(line, |line| - 1) then 1 else 0)
  }

  /** The loop's state after a prefix of the line: the untrimmed fields completed so far, the
      text of the field being read, and the in-quotes flag. */
  datatype Scan = Scan(done: seq<string>, current: string, inQuotes: bool)

  /** One character of the loop. */
  function Step(s: Scan, c: char): Scan {
    if IsQuote(c) then Scan(s.done, s.current + [c], !s.inQuotes)
    else if c == ',' && !s.inQuotes then Scan(s.done + [s.current], "", s.inQuotes)
    else Scan(s.done, s.current + [c], s.inQuotes)
  }

  /** The loop's state after reading the characters of b from state s. */
  function ScanFrom(s: Scan, b: string): Scan {
    if |b| == 0 then s
    else Step(ScanFrom(s, b[..|b| - 1]), b[|b| - 1])
  }

  /** The loop's state after reading a prefix of the line from the start. */
  function ScanLine(line: string): Scan {
    ScanFrom(Scan([], "", false), line)
  }

  /** The fields before trimming: the completed ones and the last one. */
  function RawFields(line: string): seq<string> {
    var s := ScanLine(line);
    s.done + [s.current]
  }

  function TrimAll(fields: seq<string>): seq<string> {
    seq(|fields|, k requires 0 <= k < |fields| => Trim(fields[k]))
  }

  /** The fields parseCSVLine returns for a line. */
  function Fields(line: string): seq<string> {
    TrimAll(RawFields(line))
  }

  lemma JoinExtendLast(parts: seq<string>, x: string, c: char, sep: string)
    ensures Join(parts + [x + [c]], sep) == Join(parts + [x], sep) + [c]
  {
    if |parts| > 0 {
      JoinSnoc(parts, x + [c], sep);
      JoinSnoc(parts, x, sep);
    }
  }

  /** After any prefix the in-quotes flag is the parity of the quote characters read. */
  lemma {:induction false} ScanParity(line: string)
    ensures ScanLine(line).inQuotes <==> QuoteCount(line) % 2 == 1
  {
    if |line| > 0 {
      ScanParity(line[..|line| - 1]);
    }
  }

  /** After any prefix one field has been completed per splitting comma. */
  lemma {:induction false} ScanCount(line: string)
    ensures |ScanLine(line).done| == OutsideCommas(line)
  {
    if |line| > 0 {
      var init := line[..|line| - 1];
      ScanCount(init);
      ScanParity(init);
      assert line[..|line| - 1] == init;
    }
  }

  /** After any prefix no character is lost: the fields read so far joined with commas
      give the prefix back. */
  lemma {:induction false} ScanJoin(line: string)
    ensures Join(RawFields(line), ",") == line
  {
    if |line| > 0 {
      var init := line[..|line| - 1];
      var c := line[|line| - 1];
      ScanJoin(init);
      var s := ScanLine(init);
      assert line == init + [c];
      if IsQuote(c) || !(c == ',' && !s.inQuotes) {
        JoinExtendLast(s.done, s.current, c, ",");
      } else {
        JoinSnoc(s.done + [s.current], "", ",");
      }
    }
  }

  /** The loop reads one more character. */
  lemma ScanLineSnoc(line: string, i: nat)
    requires i < |line|
    ensures ScanLine(line[..i + 1]) == Step(ScanLine(line[..i]), line[i])
  {
    assert line[..i + 1][..i] == line[..i];
  }

  lemma TrimAllSnoc(fields: seq<string>, x: string)
    ensures TrimAll(fields + [x]) == TrimAll(fields) + [Trim(x)]
  {
  }

  /** parseCSVLine returns one field more than there are splitting commas, so never none. */
  lemma FieldCount(line: string)
    ensures |Fields(line)| == OutsideCommas(line) + 1
    ensures |Fields(line)| >= 1
  {
    ScanCount(line);
  }

  /** When no field has whitespace at either end, trimming changes nothing and joining the
      returned fields with "," gives back the original line. */
  lemma ParseJoinRoundTrip(line: string)
    requires forall k :: 0 <= k < |RawFields(line)| ==> IsTrimmedForm(RawFields(line)[k])
    ensures Fields(line) == RawFields(line)
    ensures Join(Fields(line), ",") == line
  {
    TrimAllKeeps(RawFields(line));
    ScanJoin(line);
  }

  /** Trimming fields that have no whitespace at either end changes none of them. */
  lemma TrimAllKeeps(fields: seq<string>)
    requires forall k :: 0 <= k < |fields| ==> IsTrimmedForm(fields[k])
    ensures TrimAll(fields) == fields
  {
  }

  lemma ScanFromChar(s: Scan, c: char)
    ensures ScanFrom(s, [c]) == Step(s, c)
  {
    assert [c][..0] == [];
  }

  /** Reading a + b is reading a, then b. */
  lemma {:induction false} ScanFromConcat(s: Scan, a: string, b: string)
    ensures ScanFrom(s, a + b) == ScanFrom(ScanFrom(s, a), b)
  {
    if |b| > 0 {
      assert (a + b)[..|a + b| - 1] == a + b[..|b| - 1];
      ScanFromConcat(s, a, b[..|b| - 1]);
    } else {
      assert a + b == a;
    }
  }

  /** Reading more text never takes back a completed field. */
  lemma {:induction false} ScanFromKeepsDone(s: Scan, b: string)
    ensures s.done <= ScanFrom(s, b).done
  {
    if |b| > 0 {
      ScanFromKeepsDone(s, b[..|b| - 1]);
    }
  }

  /** Text without a comma only extends the current field, flipping the flag once per
      quote character. */
  lemma {:induction false} ScanNoComma(s: Scan, b: string)
    requires ',' !in b
    ensures ScanFrom(s, b) == Scan(s.done, s.current + b, s.inQuotes != (QuoteCount(b) % 2 == 1))
  {
    if |b| > 0 {
      var init := b[..|b| - 1];
      assert b == init + [b[|b| - 1]];
      assert ',' !in init;
      ScanNoComma(s, init);
    }
  }

  /** Inside quotes, text without quote characters (commas included) only extends the
      current field. */
  lemma {:induction false} ScanQuotedText(s: Scan, b: string)
    requires s.inQuotes
    requires forall k :: 0 <= k < |b| ==> !IsQuote(b[k])
    ensures ScanFrom(s, b) == Scan(s.done, s.current + b, true)
  {
    if |b| > 0 {
      var init := b[..|b| - 1];
      assert b == init + [b[|b| - 1]];
      ScanQuotedText(s, init);
    }
  }

  /** A comma read outside quotes completes the current field. */
  lemma ScanLineComma(a: string, done: seq<string>, current: string)
    requires ScanLine(a) == Scan(done, current, false)
    ensures ScanLine(a + ",") == Scan(done + [current], "", false)
  {
    ScanFromConcat(Scan([], "", false), a, ",");
    ScanFromChar(ScanLine(a), ',');
    assert "," == [','];
  }

  /** Text without a comma and with an even number of quote characters, read outside
      quotes, extends the current field and leaves the flag clear. */
  lemma ScanLinePlain(a: string, b: string, done: seq<string>, current: string)
    requires ScanLine(a) == Scan(done, current, false)
    requires ',' !in b && QuoteCount(b) % 2 == 0
    ensures ScanLine(a + b) == Scan(done, current + b, false)
  {
    ScanFromConcat(Scan([], "", false), a, b);
    ScanNoComma(ScanLine(a), b);
  }

  /** A text without quote characters read between two double quotes is one quoted field
      in progress, outside quotes again at the end. */
  lemma ScanLineQuoted(text: string)
    requires forall k :: 0 <= k < |text| ==> !IsQuote(text[k])
    ensures ScanLine("\"" + text + "\"") == Scan([], "\"" + text + "\"", false)
  {
    var q := "\"";
    var s0 := Scan([], "", false);
    ScanFromChar(s0, '"');
    assert q == ['"'] && "" + q == q;
    var s1 := Scan([], q, true);
    assert ScanFrom(s0, q) == s1;
    ScanFromConcat(s0, q, text);
    ScanQuotedText(s1, text);
    var s2 := Scan([], q + text, true);
    ScanFromChar(s2, '"');
    ScanFromConcat(s0, q + text, q);
  }

  /** parseCSVLine: the character loop with the in-quotes flag and the field builder. */
  method ParseCsvLine(line: string) returns (fields: seq<string>)
    ensures fields == Fields(line)
    ensures |fields| == OutsideCommas(line) + 1
  {
    var values: seq<string> := [];
    var current: string := "";
    var inQuotes := false;
    for i := 0 to |line|
      invariant values == TrimAll(ScanLine(line[..i]).done)
      invariant current == ScanLine(line[..i]).current
      invariant inQuotes == ScanLine(line[..i]).inQuotes
    {
      var c := line[i];
      ScanLineSnoc(line, i);
      ghost var before := ScanLine(line[..i]);
      if c == '"' || c == '\'' {
        inQuotes := !inQuotes;
        current := current + [c];
      } else if c == ',' && !inQuotes {
        TrimAllSnoc(before.done, current);
        values := values + [Trim(current)];
        current := "";
      } else {
        current := current + [c];
      }
    }
    assert line[..|line|] == line;
    values := values + [Trim(current)];
    fields := values;
    FieldCount(line);
  }
}
