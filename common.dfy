/** Small value types and string helpers shared by the other modules: an Option for
    Java's nullable results, and the java.lang.String operations the source relies on
    (String.join, String.trim, String.replace of one character). */
module Common {

  datatype Option<+T> = None | Some(value: T)

  /** No element occurs twice. */
  ghost predicate NoDuplicates<T>(s: seq<T>) {
    forall i, j :: 0 <= i < j < |s| ==> s[i] != s[j]
  }

  /** String.join(sep, parts): the parts in order, one separator between neighbours. */
  function Join(parts: seq<string>, sep: string): string
  {
    if |parts| == 0 then ""
    else if |parts| == 1 then parts[0]
    else Join(parts[..|parts| - 1], sep) + sep + parts[|parts| - 1]
  }

  lemma JoinSnoc(parts: seq<string>, x: string, sep: string)
    requires |parts| > 0
    ensures Join(parts + [x], sep) == Join(parts, sep) + sep + x
  {
    assert (parts + [x])[..|parts|] == parts;
  }

  /** A slice grows by one element at a time. */
  lemma SliceSnoc<T>(s: seq<T>, i: int, j: int)
    requires 0 <= i <= j < |s|
    ensures s[i..j + 1] == s[i..j] + [s[j]]
  {
  }

  /** A join starts with its first part, so it is empty only if that part is. */
  lemma {:induction false} JoinStartsWithFirst(parts: seq<string>, sep: string)
    requires |parts| > 0
    ensures |Join(parts, sep)| >= |parts[0]| && Join(parts, sep)[..|parts[0]|] == parts[0]
  {
    if |parts| > 1 {
      var init := parts[..|parts| - 1];
      JoinStartsWithFirst(init, sep);
      assert init[0] == parts[0];
      var j := Join(init, sep);
      assert Join(parts, sep) == j + sep + parts[|parts| - 1];
      assert (j + sep + parts[|parts| - 1])[..|parts[0]|] == j[..|parts[0]|];
    }
  }

  /** The characters String.trim removes: every char whose code is at most U+0020. */
  predicate IsTrimmed(c: char) { c <= ' ' }

  /** Every character of t is one String.trim removes. */
  predicate Blank(t: string) {
    forall k :: 0 <= k < |t| ==> IsTrimmed(t[k])
  }

  /** The leading trimmable characters removed, and only those. */
  function TrimStart(s: string): (r: string)
    ensures |r| <= |s| && r == s[|s| - |r|..]
    ensures |r| > 0 ==> !IsTrimmed(r[0])
  {
    if |s| > 0 && IsTrimmed(s[0]) then TrimStart(s[1..]) else s
  }

  /** The trailing trimmable characters removed, and only those. */
  function TrimEnd(s: string): (r: string)
    ensures |r| <= |s| && r == s[..|r|]
    ensures |r| > 0 ==> !IsTrimmed(r[|r| - 1])
  {
    if |s| > 0 && IsTrimmed(s[|s| - 1]) then TrimEnd(s[..|s| - 1]) else s
  }

  /** Everything TrimStart removes is trimmable. */
  lemma {:induction false} TrimStartBlank(s: string)
    ensures Blank(s[..|s| - |TrimStart(s)|])
  {
    if |s| > 0 && IsTrimmed(s[0]) {
      TrimStartBlank(s[1..]);
      var n := |s| - |TrimStart(s)|;
      assert s[..n] == [s[0]] + s[1..][..n - 1];
    }
  }

  /** Everything TrimEnd removes is trimmable. */
  lemma {:induction false} TrimEndBlank(s: string)
    ensures Blank(s[|TrimEnd(s)|..])
  {
    if |s| > 0 && IsTrimmed(s[|s| - 1]) {
      var init := s[..|s| - 1];
      TrimEndBlank(init);
      assert s[|TrimEnd(s)|..] == init[|TrimEnd(init)|..] + [s[|s| - 1]];
    }
  }

  lemma PrefixOfSuffix(s: string, a: nat, n: nat)
    requires a + n <= |s|
    ensures s[a..][..n] == s[a..a + n]
  {
  }

  /** String.trim: the trimmable characters at both ends removed. The result has no
      trimmable character at either end, and a string without one there is left as it is. */
  function Trim(s: string): (r: string)
    ensures |r| > 0 ==> !IsTrimmed(r[0]) && !IsTrimmed(r[|r| - 1])
    ensures IsTrimmedForm(s) ==> r == s
  {
    TrimEnd(TrimStart(s))
  }

  /** Trim keeps the infix of s that starts at `a`, and everything it removes before or
      after that infix is trimmable. */
  lemma TrimInfix(s: string) returns (a: nat)
    ensures a + |Trim(s)| <= |s| && Trim(s) == s[a..a + |Trim(s)|]
    ensures Blank(s[..a]) && Blank(s[a + |Trim(s)|..])
  {
    var t := TrimStart(s);
    a := |s| - |t|;
    var r := TrimEnd(t);
    TrimStartBlank(s);
    TrimEndBlank(t);
    assert t == s[a..] && r == t[..|r|];
    PrefixOfSuffix(s, a, |r|);
    assert t[|r|..] == s[a + |r|..];
  }

  /** Trim is String.trim, whose result the description of the method fixes uniquely: for
      any split of s into trimmable characters, an infix with no trimmable character at
      either end, and trimmable characters again, the infix is what Trim returns. */
  lemma TrimUnique(s: string, a: nat, n: nat)
    requires a + n <= |s|
    requires Blank(s[..a]) && Blank(s[a + n..])
    requires n > 0 ==> !IsTrimmed(s[a]) && !IsTrimmed(s[a + n - 1])
    ensures Trim(s) == s[a..a + n]
  {
    var b := TrimInfix(s);
    var r := Trim(s);
    var m := |r|;
    assert m > 0 ==> r[0] == s[b] && r[m - 1] == s[b + m - 1];
    assert m > 0 ==> !IsTrimmed(s[b]) && !IsTrimmed(s[b + m - 1]);
    assert b + m <= |s| && Blank(s[..b]) && Blank(s[b + m..]);
    SplitUnique(s, a, n, b, m);
  }

  /** Two splits of s into trimmable characters, an infix with no trimmable character at
      either end, and trimmable characters again have the same infix. */
  lemma SplitUnique(s: string, a: nat, n: nat, b: nat, m: nat)
    requires a + n <= |s| && Blank(s[..a]) && Blank(s[a + n..])
    requires b + m <= |s| && Blank(s[..b]) && Blank(s[b + m..])
    requires n > 0 ==> !IsTrimmed(s[a]) && !IsTrimmed(s[a + n - 1])
    requires m > 0 ==> !IsTrimmed(s[b]) && !IsTrimmed(s[b + m - 1])
    ensures m == n && (n > 0 ==> a == b)
  {
    BlankOutside(s, a, n, b);
    BlankOutside(s, a, n, b + m - 1);
    BlankOutside(s, b, m, a);
    BlankOutside(s, b, m, a + n - 1);
  }

  /** A character of s that is not trimmable lies between a and a + n when every
      character before a and from a + n on is trimmable. */
  lemma BlankOutside(s: string, a: nat, n: nat, k: int)
    requires a + n <= |s| && Blank(s[..a]) && Blank(s[a + n..])
    ensures 0 <= k < |s| && !IsTrimmed(s[k]) ==> a <= k < a + n
  {
    if 0 <= k < a {
      assert s[..a][k] == s[k];
    } else if a + n <= k < |s| {
      assert s[a + n..][k - a - n] == s[k];
    }
  }

  /** A string that String.trim leaves as it is. */
  predicate IsTrimmedForm(s: string) {
    |s| == 0 || (!IsTrimmed(s[0]) && !IsTrimmed(s[|s| - 1]))
  }

  /** String.replace(c, ""), for a one-character target: every occurrence of c removed,
      the other characters kept in order. */
  function RemoveChar(s: string, c: char): (r: string)
    ensures c !in r
    ensures forall x :: x in r <==> x in s && x != c
    ensures c !in s ==> r == s
  {
    if |s| == 0 then ""
    else if s[|s| - 1] == c then RemoveChar(s[..|s| - 1], c)
    else RemoveChar(s[..|s| - 1], c) + [s[|s| - 1]]
  }

  /** On one character RemoveChar removes it exactly when it is c. */
  lemma RemoveCharSingle(x: char, c: char)
    ensures RemoveChar([x], c) == if x == c then "" else [x]
  {
    assert [x][..0] == "";
  }

  /** RemoveChar keeps a subsequence of s: the result reads s at strictly increasing
      positions, which take in every character other than c, so only c is removed and the
      kept characters stay in their order. */
  lemma {:induction false} RemoveCharPositions(s: string, c: char) returns (pos: seq<nat>)
    ensures |pos| == |RemoveChar(s, c)|
    ensures forall k :: 0 <= k < |pos| ==> pos[k] < |s| && RemoveChar(s, c)[k] == s[pos[k]]
    ensures forall k, l :: 0 <= k < l < |pos| ==> pos[k] < pos[l]
    ensures forall i :: 0 <= i < |s| && s[i] != c ==> i in pos
  {
    if |s| == 0 {
      pos := [];
    } else {
      var init := s[..|s| - 1];
      var p := RemoveCharPositions(init, c);
      assert forall i :: 0 <= i < |init| ==> init[i] == s[i];
      if s[|s| - 1] == c {
        pos := p;
      } else {
        pos := p + [|s| - 1];
        assert RemoveChar(s, c) == RemoveChar(init, c) + [s[|s| - 1]];
      }
    }
  }

  /** RemoveChar works character by character: on a concatenation it is the two results
      concatenated, so with the one-character case it keeps the other characters in order. */
  lemma {:induction false} RemoveCharConcat(a: string, b: string, c: char)
    ensures RemoveChar(a + b, c) == RemoveChar(a, c) + RemoveChar(b, c)
  {
    if |b| > 0 {
      var init := b[..|b| - 1];
      assert (a + b)[..|a + b| - 1] == a + init;
      RemoveCharConcat(a, init, c);
    } else {
      assert a + b == a;
    }
  }
}
