/**
 The string helpers of Go's standard library that the controllers rely on:
 `strconv.Atoi`, `strconv.ParseBool`, `strings.Split` on a comma and
 `strings.Replace` with a count of one.
 */
module Strconv {
  import opened Wrappers

  const MAX_INT64: int := 0x7fff_ffff_ffff_ffff
  const MIN_INT64: int := -0x8000_0000_0000_0000
  const MAX_UINT64: int := 0xffff_ffff_ffff_ffff
  /** Accumulators from here on overflow when another digit is appended. */
  const UINT64_CUTOFF: int := MAX_UINT64 / 10 + 1

  // ---------------------------------------------------------------------
  // Atoi
  // ---------------------------------------------------------------------

  predicate IsDigit(c: char) {
    '0' <= c <= '9'
  }

  function Digit(c: char): nat
    requires IsDigit(c)
  {
    (c - '0') as nat
  }

  datatype Scan = Number(n: nat) | Syntax | Overflow

  /** The digit loop of ParseUint: it stops at the first bad character or at the
      first digit that overflows 64 bits, whichever comes first. */
  function ScanDigits(s: string, n: nat): Scan {
    if s == "" then Number(n)
    else if !IsDigit(s[0]) then Syntax
    else if n >= UINT64_CUTOFF then Overflow
    else if n * 10 + Digit(s[0]) > MAX_UINT64 then Overflow
    else ScanDigits(s[1..], n * 10 + Digit(s[0]))
  }

  /** What `strconv.Atoi` returns on a 64-bit platform: the value, and whether
      the error is nil. A range error still carries the saturated value. */
  function Atoi(s: string): (r: (int, bool))
    ensures MIN_INT64 <= r.0 <= MAX_INT64
  {
    var negative := s != "" && s[0] == '-';
    var body := if s != "" && (s[0] == '-' || s[0] == '+') then s[1..] else s;
    if body == "" then (0, false)
    else match ScanDigits(body, 0)
      case Syntax => (0, false)
      case Overflow => (if negative then MIN_INT64 else MAX_INT64, false)
      case Number(n) =>
        if !negative && n > MAX_INT64 then (MAX_INT64, false)
        else if negative && n > -MIN_INT64 then (MIN_INT64, false)
        else (if negative then -(n as int) else n, true)
  }

  ghost predicate AllDigits(s: string) {
    forall i | 0 <= i < |s| :: IsDigit(s[i])
  }

  /** A decimal numeral as the API server prints resource versions. */
  ghost predicate Canonical(s: string) {
    s != "" && AllDigits(s) && (|s| > 1 ==> s[0] != '0')
  }

  /** The number a digit string denotes when it continues the accumulator `n`. */
  ghost function Horner(s: string, n: nat): nat
    requires AllDigits(s)
  {
    if s == "" then n else Horner(s[1..], n * 10 + Digit(s[0]))
  }

  lemma {:induction false} HornerGrows(s: string, n: nat)
    requires AllDigits(s)
    ensures Horner(s, n) >= n
  {
    if s != "" {
      HornerGrows(s[1..], n * 10 + Digit(s[0]));
    }
  }

  lemma {:induction false} HornerMonotone(a: string, b: string, n: nat, m: nat)
    requires AllDigits(a) && AllDigits(b) && |a| == |b|
    requires n < m
    ensures Horner(a, n) < Horner(b, m)
  {
    if a != "" {
      HornerMonotone(a[1..], b[1..], n * 10 + Digit(a[0]), m * 10 + Digit(b[0]));
    }
  }

  lemma {:induction false} HornerSplit(s: string, k: nat, n: nat)
    requires AllDigits(s) && k <= |s|
    ensures Horner(s, n) == Horner(s[k..], Horner(s[..k], n))
  {
    if k == 0 {
      assert s[0..] == s;
    } else {
      HornerSplit(s[1..], k - 1, n * 10 + Digit(s[0]));
      assert s[1..][..k - 1] == s[..k][1..];
      assert s[1..][k - 1..] == s[k..];
    }
  }

  lemma {:induction false} ScanIsHorner(s: string, n: nat)
    requires AllDigits(s)
    ensures n <= MAX_UINT64 && Horner(s, n) <= MAX_UINT64 ==> ScanDigits(s, n) == Number(Horner(s, n))
    ensures Horner(s, n) > MAX_UINT64 && n <= MAX_UINT64 ==> ScanDigits(s, n) == Overflow
  {
    if s != "" {
      var next := n * 10 + Digit(s[0]);
      HornerGrows(s[1..], next);
      ScanIsHorner(s[1..], next);
    }
  }

  /** The scan of a string that goes bad at `k`: the overflow, if any, is met first. */
  lemma {:induction false} ScanGoesBad(s: string, k: nat, n: nat)
    requires k < |s| && AllDigits(s[..k]) && !IsDigit(s[k]) && n <= MAX_UINT64
    ensures ScanDigits(s, n) == if Horner(s[..k], n) <= MAX_UINT64 then Syntax else Overflow
  {
    if k > 0 {
      assert IsDigit(s[..k][0]);
      var next := n * 10 + Digit(s[0]);
      assert s[..k][1..] == s[1..][..k - 1];
      HornerGrows(s[..k][1..], next);
      if next <= MAX_UINT64 {
        ScanGoesBad(s[1..], k - 1, next);
      }
    }
  }

  ghost predicate Negative(s: string) {
    s != "" && s[0] == '-'
  }

  /** What is left of a string without its sign. */
  ghost function Unsigned(s: string): string {
    if s != "" && (s[0] == '-' || s[0] == '+') then s[1..] else s
  }

  /** The digits a string begins with. */
  ghost function LeadingDigits(s: string): (r: string)
    ensures r <= s && AllDigits(r) && (|r| < |s| ==> !IsDigit(s[|r|]))
  {
    if s == "" || !IsDigit(s[0]) then "" else [s[0]] + LeadingDigits(s[1..])
  }

  ghost predicate SignedNumeral(s: string) {
    Unsigned(s) != "" && AllDigits(Unsigned(s))
  }

  ghost function Clamp(n: int): int {
    if n > MAX_INT64 then MAX_INT64 else if n < MIN_INT64 then MIN_INT64 else n
  }

  /** A numeral, with or without a sign, is read exactly within 63 bits and saturates beyond. */
  lemma AtoiSaturates(s: string)
    requires SignedNumeral(s)
    ensures var n := if Negative(s) then -(Horner(Unsigned(s), 0) as int) else Horner(Unsigned(s), 0);
            Atoi(s) == (Clamp(n), n == Clamp(n))
  {
    ScanIsHorner(Unsigned(s), 0);
  }

  /** Any other string, the empty one and a lone sign included, counts as zero, unless the digits
      it begins with are already beyond 64 bits: then it saturates. */
  lemma AtoiMalformed(s: string)
    requires !SignedNumeral(s)
    ensures var lead := Horner(LeadingDigits(Unsigned(s)), 0);
            Atoi(s) == (if lead <= MAX_UINT64 then 0 else if Negative(s) then MIN_INT64 else MAX_INT64, false)
  {
    var body := Unsigned(s);
    var lead := LeadingDigits(body);
    if body != "" {
      assert lead != body;
      assert body[..|lead|] == lead;
      ScanGoesBad(body, |lead|, 0);
    }
  }

  /** Length first, then digit by digit. */
  ghost predicate StringBefore(a: string, b: string) {
    |a| < |b| || (|a| == |b| && LexBefore(a, b))
  }

  ghost predicate LexBefore(a: string, b: string)
    requires |a| == |b|
  {
    a != "" && (a[0] < b[0] || (a[0] == b[0] && LexBefore(a[1..], b[1..])))
  }

  lemma {:induction false} LexIsNumeric(a: string, b: string, n: nat)
    requires AllDigits(a) && AllDigits(b) && |a| == |b|
    ensures LexBefore(a, b) <==> Horner(a, n) < Horner(b, n)
  {
    if a != "" {
      var x, y := n * 10 + Digit(a[0]), n * 10 + Digit(b[0]);
      if a[0] < b[0] {
        HornerMonotone(a[1..], b[1..], x, y);
      } else if b[0] < a[0] {
        HornerMonotone(b[1..], a[1..], y, x);
      } else {
        LexIsNumeric(a[1..], b[1..], x);
      }
    }
  }

  lemma ShorterIsSmaller(a: string, b: string)
    requires Canonical(a) && Canonical(b) && |a| < |b|
    ensures Horner(a, 0) < Horner(b, 0)
  {
    var k := |b| - |a|;
    HornerSplit(b, k, 0);
    assert Horner(b[..k], 0) >= 1 by {
      HornerGrows(b[..k][1..], Digit(b[0]));
    }
    HornerMonotone(a, b[k..], 0, Horner(b[..k], 0));
  }

  lemma StringOrderIsNumeric(a: string, b: string)
    requires Canonical(a) && Canonical(b)
    ensures StringBefore(a, b) <==> Horner(a, 0) < Horner(b, 0)
  {
    if |a| < |b| {
      ShorterIsSmaller(a, b);
    } else if |b| < |a| {
      ShorterIsSmaller(b, a);
    } else {
      LexIsNumeric(a, b, 0);
    }
  }

  // ---------------------------------------------------------------------
  // ParseBool, Split
  // ---------------------------------------------------------------------

  function ParseBool(s: string): Option<bool> {
    if s in {"1", "t", "T", "true", "TRUE", "True"} then Some(true)
    else if s in {"0", "f", "F", "false", "FALSE", "False"} then Some(false)
    else None
  }

  ghost function Upper(c: char): char {
    if 'a' <= c <= 'z' then c - 'a' + 'A' else c
  }

  ghost function UpperCase(s: string): (r: string)
    ensures |r| == |s| && forall i | 0 <= i < |s| :: r[i] == Upper(s[i])
  {
    seq(|s|, i requires 0 <= i < |s| => Upper(s[i]))
  }

  /** A word in lower case, in upper case and with an initial capital. */
  ghost function Spellings(word: string): set<string>
    requires word != ""
  {
    {word, UpperCase(word), [Upper(word[0])] + word[1..]}
  }

  /** A digit, a word, or the word's first letter. */
  ghost function Words(b: bool): set<string> {
    if b then {"1", "t", "true"} else {"0", "f", "false"}
  }

  lemma WordSpellings()
    ensures Spellings("1") == {"1"} && Spellings("t") == {"t", "T"}
    ensures Spellings("0") == {"0"} && Spellings("f") == {"f", "F"}
    ensures Spellings("true") == {"true", "TRUE", "True"}
    ensures Spellings("false") == {"false", "FALSE", "False"}
  {
    assert UpperCase("1") == "1" && UpperCase("t") == "T" && UpperCase("true") == "TRUE";
    assert UpperCase("0") == "0" && UpperCase("f") == "F" && UpperCase("false") == "FALSE";
    assert [Upper('1')] + "1"[1..] == "1" && [Upper('t')] + "t"[1..] == "T" && [Upper('t')] + "true"[1..] == "True";
    assert [Upper('0')] + "0"[1..] == "0" && [Upper('f')] + "f"[1..] == "F" && [Upper('f')] + "false"[1..] == "False";
  }

  /** Which strings are booleans, and which boolean each of them is. */
  lemma ParseBoolIff(s: string, b: bool)
    ensures ParseBool(s) == Some(b) <==> exists w | w in Words(b) :: w != "" && s in Spellings(w)
  {
    WordSpellings();
    assert "1" in Words(true) && "t" in Words(true) && "true" in Words(true);
    assert "0" in Words(false) && "f" in Words(false) && "false" in Words(false);
    if ParseBool(s) == Some(b) {
      var w := if s in Spellings(if b then "1" else "0") then if b then "1" else "0"
               else if s in Spellings(if b then "t" else "f") then if b then "t" else "f"
               else if b then "true" else "false";
      assert w in Words(b) && s in Spellings(w);
    }
    if exists w | w in Words(b) :: w != "" && s in Spellings(w) {
      if !b {
        assert s[0] in {'0', 'f', 'F'};
      }
    }
  }

  /** `strings.Split(s, ",")`: never empty, not even for the empty string. */
  function SplitComma(s: string): (r: seq<string>)
    ensures r != []
  {
    if s == "" then [""]
    else if s[0] == ',' then [""] + SplitComma(s[1..])
    else
      var rest := SplitComma(s[1..]);
      [[s[0]] + rest[0]] + rest[1..]
  }

  ghost function JoinComma(parts: seq<string>): string
    requires parts != []
  {
    if |parts| == 1 then parts[0] else parts[0] + "," + JoinComma(parts[1..])
  }

  ghost predicate CommaFree(s: string) {
    forall i | 0 <= i < |s| :: s[i] != ','
  }

  ghost predicate AllCommaFree(parts: seq<string>) {
    forall i | 0 <= i < |parts| :: CommaFree(parts[i])
  }

  /** One more character in front of the first component. */
  lemma JoinLonger(c: char, first: string, rest: seq<string>)
    ensures JoinComma([[c] + first] + rest) == [c] + JoinComma([first] + rest)
  {
    assert ([[c] + first] + rest)[1..] == rest == ([first] + rest)[1..];
    if rest != [] {
      var tail := "," + JoinComma(rest);
      assert JoinComma([first] + rest) == first + tail;
      assert JoinComma([[c] + first] + rest) == ([c] + first) + tail == [c] + (first + tail);
    }
  }

  lemma StillCommaFree(c: char, first: string, rest: seq<string>)
    requires c != ',' && AllCommaFree([first] + rest)
    ensures AllCommaFree([[c] + first] + rest)
  {
    var parts, longer := [first] + rest, [[c] + first] + rest;
    assert CommaFree(parts[0]);
    forall i | 0 < i < |longer| ensures CommaFree(longer[i]) {
      assert longer[i] == parts[i];
    }
  }

  /** A comma starts a new first component. */
  lemma JoinMore(parts: seq<string>)
    requires parts != [] && AllCommaFree(parts)
    ensures JoinComma([""] + parts) == "," + JoinComma(parts) && AllCommaFree([""] + parts)
  {
    assert ([""] + parts)[1..] == parts;
    assert "" + "," == ",";
  }

  lemma {:induction false} SplitJoins(s: string)
    ensures JoinComma(SplitComma(s)) == s && AllCommaFree(SplitComma(s))
  {
    if s != "" {
      SplitJoins(s[1..]);
      assert s == [s[0]] + s[1..];
      if s[0] == ',' {
        JoinMore(SplitComma(s[1..]));
      } else {
        var rest := SplitComma(s[1..]);
        assert rest == [rest[0]] + rest[1..];
        JoinLonger(s[0], rest[0], rest[1..]);
        StillCommaFree(s[0], rest[0], rest[1..]);
      }
    }
  }

  lemma {:induction false} JoinSplits(parts: seq<string>)
    requires parts != [] && AllCommaFree(parts)
    ensures SplitComma(JoinComma(parts)) == parts
    decreases |parts|, |parts[0]|
  {
    var s := JoinComma(parts);
    if parts[0] != "" {
      var shorter := [parts[0][1..]] + parts[1..];
      JoinSplits(shorter);
      assert shorter[1..] == parts[1..];
      assert s[0] == parts[0][0] && s[1..] == JoinComma(shorter);
      assert [s[0]] + shorter[0] == parts[0];
      assert [parts[0]] + parts[1..] == parts;
    } else if |parts| > 1 {
      JoinSplits(parts[1..]);
      assert s == "," + JoinComma(parts[1..]);
      assert s[1..] == JoinComma(parts[1..]);
      assert [""] + parts[1..] == parts;
    } else {
      assert parts == [""];
    }
  }

  /** A key is split into the one list of comma-free components that makes it when joined. */
  lemma SplitIff(s: string, parts: seq<string>)
    ensures parts == SplitComma(s) <==> parts != [] && AllCommaFree(parts) && JoinComma(parts) == s
  {
    SplitJoins(s);
    if parts != [] && AllCommaFree(parts) {
      JoinSplits(parts);
    }
  }

  // ---------------------------------------------------------------------
  // Replace
  // ---------------------------------------------------------------------

  ghost predicate OccursAt(s: string, sub: string, i: nat) {
    i + |sub| <= |s| && s[i..i + |sub|] == sub
  }

  ghost predicate Contains(s: string, sub: string) {
    exists i: nat :: OccursAt(s, sub, i)
  }

  lemma SliceLater(s: string, i: nat, n: nat)
    requires 0 < i && i + n <= |s|
    ensures s[1..][i - 1..i - 1 + n] == s[i..i + n]
  {
    var a, b := s[1..][i - 1..i - 1 + n], s[i..i + n];
    forall j | 0 <= j < n ensures a[j] == b[j] {
      assert a[j] == s[1..][i - 1 + j] == s[i + j];
    }
  }

  lemma OccursLater(s: string, sub: string)
    requires s != ""
    ensures forall i: nat | i > 0 :: OccursAt(s, sub, i) <==> OccursAt(s[1..], sub, i - 1)
  {
    forall i: nat | i > 0 ensures OccursAt(s, sub, i) <==> OccursAt(s[1..], sub, i - 1) {
      if i + |sub| <= |s| {
        SliceLater(s, i, |sub|);
      }
    }
  }

  /** Position of the first occurrence. */
  function IndexOf(s: string, sub: string): (r: Option<nat>)
    ensures r.Some? ==> OccursAt(s, sub, r.value)
    ensures r.Some? ==> forall i: nat | i < r.value :: !OccursAt(s, sub, i)
    ensures r.None? ==> !Contains(s, sub)
  {
    if sub <= s then
      assert OccursAt(s, sub, 0);
      Some(0)
    else if s == "" then None
    else
      OccursLater(s, sub);
      match IndexOf(s[1..], sub)
      case None => None
      case Some(i) => Some(i + 1)
  }

  /** `strings.Replace(s, from, to, 1)`. */
  function ReplaceFirst(s: string, from: string, to: string): string {
    if from == to then s
    else match IndexOf(s, from)
      case None => s
      case Some(i) => s[..i] + to + s[i + |from|..]
  }

  ghost predicate FirstAt(s: string, sub: string, i: nat) {
    OccursAt(s, sub, i) && forall j: nat | j < i :: !OccursAt(s, sub, j)
  }

  /** Only the first occurrence is replaced, and what does not occur changes nothing. */
  lemma ReplaceFirstExact(s: string, from: string, to: string)
    ensures forall i: nat | FirstAt(s, from, i) :: ReplaceFirst(s, from, to) == s[..i] + to + s[i + |from|..]
    ensures !Contains(s, from) ==> ReplaceFirst(s, from, to) == s
    ensures Contains(s, from) ==> exists i :: FirstAt(s, from, i)
  {
    if Contains(s, from) {
      assert FirstAt(s, from, IndexOf(s, from).value);
    }
    forall i: nat | FirstAt(s, from, i) ensures ReplaceFirst(s, from, to) == s[..i] + to + s[i + |from|..] {
      if from == to {
        assert s == s[..i] + s[i..i + |from|] + s[i + |from|..];
      } else {
        var k := IndexOf(s, from).value;
        assert !(k < i) && !(i < k);
      }
    }
  }

  /** Replacing once more changes nothing exactly when the substring is gone,
      or was replaced by itself. */
  lemma ReplaceStable(s: string, from: string, to: string)
    ensures ReplaceFirst(s, from, to) == s <==> (from == to || !Contains(s, from))
  {
    if from != to {
      match IndexOf(s, from) {
        case None =>
        case Some(i) =>
          assert Contains(s, from);
          var r := s[..i] + to + s[i + |from|..];
          if |to| == |from| {
            assert r[i..i + |to|] == to;
          }
      }
    }
  }
}
