/**
  The parts of Go's `strings`, `strconv`, `unicode` and `regexp` packages the
  pipeline relies on. A Go string is modelled as the sequence of its runes, so
  `utf8.RuneCountInString(s)` is `|s|`.
 */
module GoText {
  import opened Wrappers

  // ---------------------------------------------------------------------------
  // Character classes
  // ---------------------------------------------------------------------------

  /** `\d` in Go's regexp syntax: ASCII digits only. */
  predicate IsDigit(c: char) {
    '0' <= c <= '9'
  }

  /** `\w` in Go's regexp syntax: ASCII letters, digits and underscore. */
  predicate IsWordChar(c: char) {
    IsDigit(c) || 'a' <= c <= 'z' || 'A' <= c <= 'Z' || c == '_'
  }

  predicate WordAt(s: string, i: int) {
    0 <= i < |s| && IsWordChar(s[i])
  }

  /** `\b` at position i of s: the runes on the two sides differ in word-ness
      (outside the string counts as a non-word rune). */
  predicate WordBoundary(s: string, i: int) {
    WordAt(s, i - 1) != WordAt(s, i)
  }

  predicate AllDigits(s: string) {
    forall i :: 0 <= i < |s| ==> IsDigit(s[i])
  }

  /** n ASCII digits start at position i of s. */
  predicate DigitsAt(s: string, i: nat, n: nat) {
    i + n <= |s| && forall k :: i <= k < i + n ==> IsDigit(s[k])
  }

  /** `unicode.IsSpace`: the Latin-1 spaces plus the White_Space runes above U+00FF. */
  const Whitespace: set<char> := {
    ' ', '\t', '\n', '\U{000B}', '\U{000C}', '\r', '\U{0085}', '\U{00A0}',
    '\U{1680}', '\U{2000}', '\U{2001}', '\U{2002}', '\U{2003}', '\U{2004}',
    '\U{2005}', '\U{2006}', '\U{2007}', '\U{2008}', '\U{2009}', '\U{200A}',
    '\U{2028}', '\U{2029}', '\U{202F}', '\U{205F}', '\U{3000}'
  }

  // ---------------------------------------------------------------------------
  // strings.Split / strings.Join with a one-rune separator
  // ---------------------------------------------------------------------------

  /** `strings.Split(s, string(sep))`: the pieces between separators, empty
      pieces included; the empty string gives one empty piece. */
  function Split(s: string, sep: char): (parts: seq<string>)
    ensures |parts| >= 1
    ensures forall i :: 0 <= i < |parts| ==> sep !in parts[i]
    decreases |s|
  {
    if |s| == 0 then [""]
    else if s[0] == sep then [""] + Split(s[1..], sep)
    else
      var rest := Split(s[1..], sep);
      [[s[0]] + rest[0]] + rest[1..]
  }

  /** `strings.Join(parts, sep)`. */
  function Join(parts: seq<string>, sep: string): string
  {
    if |parts| == 0 then ""
    else if |parts| == 1 then parts[0]
    else parts[0] + sep + Join(parts[1..], sep)
  }

  /** Joining the pieces of a split with the separator gives the text back. */
  lemma {:induction false} JoinSplit(s: string, sep: char)
    ensures Join(Split(s, sep), [sep]) == s
    decreases |s|
  {
    if |s| == 0 {
    } else if s[0] == sep {
      JoinSplit(s[1..], sep);
      assert s == [sep] + s[1..];
    } else {
      var rest := Split(s[1..], sep);
      JoinSplit(s[1..], sep);
      if |rest| == 1 {
        assert s == [s[0]] + s[1..];
      } else {
        assert Join(rest, [sep]) == rest[0] + [sep] + Join(rest[1..], [sep]);
        var parts := [[s[0]] + rest[0]] + rest[1..];
        assert parts[1..] == rest[1..];
        assert s == [s[0]] + s[1..];
      }
    }
  }

  lemma {:induction false} SplitNoSeparator(p: string, sep: char)
    requires sep !in p
    ensures Split(p, sep) == [p]
    decreases |p|
  {
    if |p| > 0 {
      assert sep !in p[1..] by { assert forall k :: 0 <= k < |p| - 1 ==> p[1..][k] == p[k + 1]; }
      SplitNoSeparator(p[1..], sep);
      assert [p[0]] + p[1..] == p;
    }
  }

  lemma {:induction false} SplitAfterPiece(p: string, sep: char, t: string)
    requires sep !in p
    ensures Split(p + [sep] + t, sep) == [p] + Split(t, sep)
    decreases |p|
  {
    var s := p + [sep] + t;
    if |p| == 0 {
      assert s[1..] == t;
    } else {
      assert sep !in p[1..] by { assert forall k :: 0 <= k < |p| - 1 ==> p[1..][k] == p[k + 1]; }
      assert s[1..] == p[1..] + [sep] + t;
      SplitAfterPiece(p[1..], sep, t);
      assert [p[0]] + p[1..] == p;
    }
  }

  /** Three separator-free pieces joined by the separator split back apart. */
  lemma SplitThree(a: string, b: string, c: string, sep: char)
    requires sep !in a && sep !in b && sep !in c
    ensures Split(a + [sep] + b + [sep] + c, sep) == [a, b, c]
  {
    assert a + [sep] + b + [sep] + c == a + [sep] + (b + [sep] + c);
    SplitAfterPiece(a, sep, b + [sep] + c);
    SplitAfterPiece(b, sep, c);
    SplitNoSeparator(c, sep);
  }

  /** Splitting a join of separator-free pieces gives the pieces back, so
      Split is the one function that both round trips pin down. */
  lemma {:induction false} SplitJoin(parts: seq<string>, sep: char)
    requires |parts| >= 1
    requires forall i :: 0 <= i < |parts| ==> sep !in parts[i]
    ensures Split(Join(parts, [sep]), sep) == parts
    decreases |parts|
  {
    if |parts| == 1 {
      SplitNoSeparator(parts[0], sep);
    } else {
      SplitJoin(parts[1..], sep);
      SplitAfterPiece(parts[0], sep, Join(parts[1..], [sep]));
      assert parts == [parts[0]] + parts[1..];
    }
  }

  /** Join grows at the end by one separator and one piece. */
  lemma {:induction false} JoinSnoc(parts: seq<string>, p: string, sep: string)
    requires |parts| >= 1
    ensures Join(parts + [p], sep) == Join(parts, sep) + sep + p
    decreases |parts|
  {
    if |parts| > 1 {
      assert (parts + [p])[1..] == parts[1..] + [p];
      JoinSnoc(parts[1..], p, sep);
    }
  }

  /** Concatenation regroups. */
  lemma Concat3(a: string, b: string, c: string)
    ensures (a + b) + c == a + (b + c)
  {
  }

  /** The join of the first i + 1 pieces extends the join of the first i. */
  lemma JoinPrefixStep(parts: seq<string>, i: nat, sep: string)
    requires i < |parts|
    ensures Join(parts[..i + 1], sep) == (if i == 0 then "" else Join(parts[..i], sep) + sep) + parts[i]
  {
    if i == 0 {
      assert parts[..1] == [parts[0]];
    } else {
      assert parts[..i + 1] == parts[..i] + [parts[i]];
      JoinSnoc(parts[..i], parts[i], sep);
    }
  }

  /** A prefix of the first piece is a prefix of the join. */
  lemma JoinPrefixFirst(a: string, x: string, rest: seq<string>, sep: string)
    ensures Join([a + x] + rest, sep) == a + Join([x] + rest, sep)
  {
    if |rest| > 0 {
      assert ([a + x] + rest)[1..] == rest && ([x] + rest)[1..] == rest;
    }
  }

  /** A rune that is neither in the separator nor in any piece is not in the join. */
  lemma {:induction false} JoinAvoids(parts: seq<string>, sep: string, c: char)
    requires c !in sep
    requires forall i :: 0 <= i < |parts| ==> c !in parts[i]
    ensures c !in Join(parts, sep)
    decreases |parts|
  {
    if |parts| > 1 {
      JoinAvoids(parts[1..], sep, c);
    }
  }

  /** The number of occurrences of c in s. */
  function Count(s: string, c: char): (n: nat)
    ensures n <= |s|
    ensures n == 0 <==> c !in s
    decreases |s|
  {
    if |s| == 0 then 0
    else
      assert s == [s[0]] + s[1..];
      (if s[0] == c then 1 else 0) + Count(s[1..], c)
  }

  lemma {:induction false} CountAppend(a: string, b: string, c: char)
    ensures Count(a + b, c) == Count(a, c) + Count(b, c)
    decreases |a|
  {
    if |a| > 0 {
      assert (a + b)[1..] == a[1..] + b;
      CountAppend(a[1..], b, c);
    } else {
      assert a + b == b;
    }
  }

  // ---------------------------------------------------------------------------
  // Replacing, removing and trimming runes
  // ---------------------------------------------------------------------------

  /** `strings.ReplaceAll(s, string(from), string(to))`. */
  function ReplaceAll(s: string, from: char, to: char): string
  {
    seq(|s|, i requires 0 <= i < |s| => if s[i] == from then to else s[i])
  }

  /** `strings.IndexRune`: the first position of c in s, if any. */
  function IndexOf(s: string, c: char): (r: Option<nat>)
    ensures r.None? <==> c !in s
    ensures r.Some? ==> r.value < |s| && s[r.value] == c && c !in s[..r.value]
    decreases |s|
  {
    if |s| == 0 then None
    else if s[0] == c then Some(0)
    else
      match IndexOf(s[1..], c)
      case None => assert s == [s[0]] + s[1..]; None
      case Some(k) => assert s[..k + 1] == [s[0]] + s[1..][..k]; Some(k + 1)
  }

  /** `strings.Replace(s, string(from), string(to), 1)`: only the first occurrence. */
  function ReplaceFirst(s: string, from: char, to: char): string
  {
    match IndexOf(s, from)
    case None => s
    case Some(k) => s[..k] + [to] + s[k + 1..]
  }

  /** `strings.ReplaceAll(s, string(c), "")`. */
  function RemoveAll(s: string, c: char): (r: string)
    ensures c !in r
    ensures |r| <= |s|
    ensures forall x :: x in r ==> x in s
    decreases |s|
  {
    if |s| == 0 then ""
    else (if s[0] == c then "" else [s[0]]) + RemoveAll(s[1..], c)
  }

  /** RemoveAll keeps every rune other than c. */
  lemma {:induction false} RemoveAllKeeps(s: string, c: char)
    ensures forall x :: x in s && x != c ==> x in RemoveAll(s, c)
    decreases |s|
  {
    if |s| > 0 {
      RemoveAllKeeps(s[1..], c);
      assert forall x :: x in s ==> x == s[0] || x in s[1..] by {
        assert s == [s[0]] + s[1..];
      }
    }
  }

  /** RemoveAll works piece by piece. */
  lemma {:induction false} RemoveAllAppend(a: string, b: string, c: char)
    ensures RemoveAll(a + b, c) == RemoveAll(a, c) + RemoveAll(b, c)
    decreases |a|
  {
    if |a| > 0 {
      assert (a + b)[1..] == a[1..] + b;
      RemoveAllAppend(a[1..], b, c);
    } else {
      assert a + b == b;
    }
  }

  /** An extra c anywhere in the text makes no difference to RemoveAll. */
  lemma RemoveAllDrops(a: string, b: string, c: char)
    ensures RemoveAll(a + [c] + b, c) == RemoveAll(a + b, c)
  {
    calc {
      RemoveAll(a + [c] + b, c);
    == { RemoveAllAppend(a + [c], b, c); }
      RemoveAll(a + [c], c) + RemoveAll(b, c);
    == { RemoveAllAppend(a, [c], c); assert [c][1..] == ""; }
      RemoveAll(a, c) + RemoveAll(b, c);
    == { RemoveAllAppend(a, b, c); }
      RemoveAll(a + b, c);
    }
  }

  /** A string with no c in it is left as it is by RemoveAll. */
  lemma {:induction false} RemoveAllAbsent(s: string, c: char)
    requires c !in s
    ensures RemoveAll(s, c) == s
    decreases |s|
  {
    if |s| > 0 {
      assert c !in s[1..] by { assert forall k :: 0 <= k < |s| - 1 ==> s[1..][k] == s[k + 1]; }
      RemoveAllAbsent(s[1..], c);
      assert [s[0]] + s[1..] == s;
    }
  }

  /** `strings.TrimRight(s, cutset)`: the longest prefix that does not end in a rune of cut. */
  function TrimRight(s: string, cut: set<char>): (r: string)
    ensures |r| <= |s| && r == s[..|r|]
    ensures |r| == 0 || r[|r| - 1] !in cut
    ensures forall i :: |r| <= i < |s| ==> s[i] in cut
    decreases |s|
  {
    if |s| > 0 && s[|s| - 1] in cut then TrimRight(s[..|s| - 1], cut) else s
  }

  /** `strings.TrimLeft(s, cutset)`: the longest suffix that does not start with a rune of cut. */
  function TrimLeft(s: string, cut: set<char>): (r: string)
    ensures |r| <= |s| && r == s[|s| - |r|..]
    ensures |r| == 0 || r[0] !in cut
    ensures forall i :: 0 <= i < |s| - |r| ==> s[i] in cut
    decreases |s|
  {
    if |s| > 0 && s[0] in cut then TrimLeft(s[1..], cut) else s
  }

  /** `strings.TrimSpace`. */
  function TrimSpace(s: string): string
  {
    TrimLeft(TrimRight(s, Whitespace), Whitespace)
  }

  /** TrimSpace keeps runes of s only, and what it keeps neither starts nor
      ends with white space. */
  lemma TrimSpaceEnds(s: string)
    ensures var r := TrimSpace(s);
      && |r| <= |s|
      && (|r| > 0 ==> r[0] !in Whitespace && r[|r| - 1] !in Whitespace)
      && forall i :: 0 <= i < |r| ==> r[i] in s
  {
    var t := TrimRight(s, Whitespace);
    var r := TrimLeft(t, Whitespace);
    if |r| > 0 {
      assert r[|r| - 1] == t[|t| - 1];
    }
    forall i | 0 <= i < |r| ensures r[i] in s {
      assert r[i] == t[|t| - |r| + i] == s[|t| - |r| + i];
    }
  }

  /** `fmt.Sprintf("%0<width>s", s)`: left-pad with '0' up to width runes. */
  function PadZero(s: string, width: nat): (r: string)
    ensures |r| == if |s| < width then width else |s|
    ensures r[|r| - |s|..] == s
    ensures forall i :: 0 <= i < |r| - |s| ==> r[i] == '0'
  {
    if |s| >= width then s else seq(width - |s|, _ => '0') + s
  }

  // ---------------------------------------------------------------------------
  // strings.ToUpper
  // ---------------------------------------------------------------------------

  /** Upper case of one rune for the ASCII letters and the basic Cyrillic block
      (U+0430..U+044F to U+0410..U+042F, U+0450..U+045F to U+0400..U+040F);
      every other rune is its own upper case here. */
  function UpperRune(c: char): char
  {
    if 'a' <= c <= 'z' then (c as int - 32) as char
    else if '\U{0430}' <= c <= '\U{044F}' then (c as int - 0x20) as char
    else if '\U{0450}' <= c <= '\U{045F}' then (c as int - 0x50) as char
    else c
  }

  /** `strings.ToUpper`: rune by rune. */
  function ToUpper(s: string): string
  {
    seq(|s|, i requires 0 <= i < |s| => UpperRune(s[i]))
  }

  /** An upper-cased rune is its own upper case. */
  lemma UpperRuneIdempotent(c: char)
    ensures UpperRune(UpperRune(c)) == UpperRune(c)
  {
    if 'a' <= c <= 'z' {
    } else if '\U{0430}' <= c <= '\U{044F}' {
      assert '\U{0410}' <= UpperRune(c) <= '\U{042F}';
    } else if '\U{0450}' <= c <= '\U{045F}' {
      assert '\U{0400}' <= UpperRune(c) <= '\U{040F}';
    }
  }

  /** Every rune of s is its own upper case. */
  predicate IsUpper(s: string) {
    forall i :: 0 <= i < |s| ==> UpperRune(s[i]) == s[i]
  }

  /** Cutting a tail off an upper-case string keeps it upper case. */
  lemma TrimRightUpper(s: string, cut: set<char>)
    requires IsUpper(s)
    ensures IsUpper(TrimRight(s, cut))
  {
    var r := TrimRight(s, cut);
    forall i | 0 <= i < |r| ensures UpperRune(r[i]) == r[i] {
      assert r[i] == s[i];
    }
  }

  /** Cutting a head off an upper-case string keeps it upper case. */
  lemma TrimLeftUpper(s: string, cut: set<char>)
    requires IsUpper(s)
    ensures IsUpper(TrimLeft(s, cut))
  {
    var r := TrimLeft(s, cut);
    forall i | 0 <= i < |r| ensures UpperRune(r[i]) == r[i] {
      assert r[i] == s[|s| - |r| + i];
    }
  }

  /** Trimming white space keeps an upper-case string upper case. */
  lemma TrimSpaceUpper(s: string)
    requires IsUpper(s)
    ensures IsUpper(TrimSpace(s))
  {
    TrimRightUpper(s, Whitespace);
    TrimLeftUpper(TrimRight(s, Whitespace), Whitespace);
  }

  /** An upper-case string trimmed of white space is upper case and neither
      starts nor ends with white space. */
  lemma TrimmedUpper(s: string)
    requires IsUpper(s)
    ensures var r := TrimSpace(s);
      IsUpper(r) && (|r| > 0 ==> r[0] !in Whitespace && r[|r| - 1] !in Whitespace)
  {
    TrimSpaceEnds(s);
    TrimSpaceUpper(s);
  }

  /** Upper-casing twice is upper-casing once. */
  lemma ToUpperIdempotent(s: string)
    ensures ToUpper(ToUpper(s)) == ToUpper(s)
  {
    forall i | 0 <= i < |s| ensures UpperRune(UpperRune(s[i])) == UpperRune(s[i]) {
      UpperRuneIdempotent(s[i]);
    }
  }

  // ---------------------------------------------------------------------------
  // strconv.Atoi / strconv.Itoa
  // ---------------------------------------------------------------------------

  /** The range of Go's `int` on a 64-bit platform. */
  const MinInt64: int := -0x8000_0000_0000_0000
  const MaxInt64: int := 0x7FFF_FFFF_FFFF_FFFF

  predicate IsInt64(n: int) {
    MinInt64 <= n <= MaxInt64
  }

  function DigitValue(c: char): nat
    requires IsDigit(c)
  {
    c as int - '0' as int
  }

  function DigitChar(d: nat): (c: char)
    requires d < 10
    ensures IsDigit(c) && DigitValue(c) == d
  {
    ('0' as int + d) as char
  }

  /** The value of a run of decimal digits. */
  function DecimalValue(ds: string): nat
    requires AllDigits(ds)
    decreases |ds|
  {
    if |ds| == 0 then 0 else DecimalValue(ds[..|ds| - 1]) * 10 + DigitValue(ds[|ds| - 1])
  }

  /** An optional leading '+' or '-': whether it was '-', and the text after it. */
  function SplitSign(s: string): (bool, string)
  {
    if |s| > 0 && (s[0] == '+' || s[0] == '-') then (s[0] == '-', s[1..]) else (false, s)
  }

  lemma Regroup(x: int, p: int, y: int, d: int)
    ensures (x * p + y) * 10 + d == x * (10 * p) + (y * 10 + d)
  {
  }

  /** The value of digits written after others. */
  lemma {:induction false} DecimalValueAppend(a: string, b: string)
    requires AllDigits(a) && AllDigits(b)
    ensures AllDigits(a + b)
    ensures DecimalValue(a + b) == DecimalValue(a) * Pow10(|b|) + DecimalValue(b)
    decreases |b|
  {
    if |b| > 0 {
      var b' := b[..|b| - 1];
      var d := DigitValue(b[|b| - 1]);
      var x, y, p := DecimalValue(a), DecimalValue(b'), Pow10(|b'|);
      assert (a + b)[..|a + b| - 1] == a + b';
      assert (a + b)[|a + b| - 1] == b[|b| - 1];
      DecimalValueAppend(a, b');
      assert DecimalValue(a + b) == DecimalValue(a + b') * 10 + d;
      assert DecimalValue(b) == y * 10 + d;
      Regroup(x, p, y, d);
    } else {
      assert a + b == a;
    }
  }

  /** Leading zeros add nothing. */
  lemma {:induction false} ZerosValue(k: nat)
    ensures AllDigits(seq(k, _ => '0')) && DecimalValue(seq(k, _ => '0')) == 0
    decreases k
  {
    if k > 0 {
      assert seq(k, _ => '0')[..k - 1] == seq(k - 1, _ => '0');
      ZerosValue(k - 1);
    }
  }

  /** Zero-padding digits keeps them digits of the same value. */
  lemma PadZeroValue(s: string, width: nat)
    requires AllDigits(s)
    ensures AllDigits(PadZero(s, width)) && DecimalValue(PadZero(s, width)) == DecimalValue(s)
  {
    if |s| < width {
      ZerosValue(width - |s|);
      DecimalValueAppend(seq(width - |s|, _ => '0'), s);
    }
  }

  /** Two two-digit numerals of the same value are the same numeral. */
  lemma TwoDigitsUnique(a: string, b: string)
    requires |a| == |b| == 2 && AllDigits(a) && AllDigits(b)
    requires DecimalValue(a) == DecimalValue(b)
    ensures a == b
  {
    assert a[..1][..0] == [] && b[..1][..0] == [];
    assert a[..1][0] == a[0] && b[..1][0] == b[0];
    assert DecimalValue(a[..1]) == DigitValue(a[0]);
    assert DecimalValue(b[..1]) == DigitValue(b[0]);
    assert DecimalValue(a) == DigitValue(a[0]) * 10 + DigitValue(a[1]);
    assert DecimalValue(b) == DigitValue(b[0]) * 10 + DigitValue(b[1]);
  }

  /** `strconv.Atoi` (base 10, no underscores): an optional sign and at least
      one ASCII digit, and a value that fits Go's 64-bit `int`. */
  function Atoi(s: string): (r: Option<int>)
    ensures r.Some? ==> IsInt64(r.value)
    ensures r.Some? ==> |s| > 0 && (IsDigit(s[0]) || s[0] == '+' || s[0] == '-')
    ensures r.Some? ==> AllDigits(SplitSign(s).1) && |SplitSign(s).1| > 0
  {
    var (negative, body) := SplitSign(s);
    if |body| == 0 || !AllDigits(body) then None
    else
      var v: int := if negative then -(DecimalValue(body) as int) else DecimalValue(body);
      if IsInt64(v) then Some(v) else None
  }

  /** Decimal digits of a natural number, without leading zeros. */
  function NatToString(n: nat): (s: string)
    ensures |s| > 0 && AllDigits(s)
    ensures |s| > 1 ==> s[0] != '0'
    decreases n
  {
    if n < 10 then [DigitChar(n)] else NatToString(n / 10) + [DigitChar(n % 10)]
  }

  /** `strconv.Itoa`. */
  function Itoa(n: int): (s: string)
    ensures |s| > 0
  {
    if n < 0 then "-" + NatToString(-n) else NatToString(n)
  }

  lemma {:induction false} NatToStringValue(n: nat)
    ensures DecimalValue(NatToString(n)) == n
    decreases n
  {
    if n >= 10 {
      NatToStringValue(n / 10);
      var s := NatToString(n / 10) + [DigitChar(n % 10)];
      assert s[..|s| - 1] == NatToString(n / 10);
    }
  }

  /** Atoi reads back every 64-bit integer that Itoa prints. */
  lemma AtoiItoa(n: int)
    requires IsInt64(n)
    ensures Atoi(Itoa(n)) == Some(n)
  {
    if n < 0 {
      NatToStringValue(-n);
      assert SplitSign(Itoa(n)) == (true, NatToString(-n));
    } else {
      NatToStringValue(n);
      assert SplitSign(Itoa(n)) == (false, NatToString(n));
    }
  }

  // ---------------------------------------------------------------------------
  // Plain decimal numbers (the part of strconv.ParseFloat used here) and math.Round
  // ---------------------------------------------------------------------------

  /** The exact value (-1 if negative) * mantissa / 10^scale. */
  datatype Decimal = Decimal(negative: bool, mantissa: nat, scale: nat)

  function Pow10(k: nat): (p: nat)
    ensures p >= 1
  {
    if k == 0 then 1 else 10 * Pow10(k - 1)
  }

  /** A plain decimal number: an optional sign, digits, at most one '.', and
      at least one digit in all ("5.", ".5" and "+.5" are numbers, "." is not). */
  function ParseDecimal(s: string): (r: Option<Decimal>)
    ensures r.Some? ==> r.value.negative == (|s| > 0 && s[0] == '-')
    ensures r.Some? ==> forall i :: 0 <= i < |s| ==> IsDigit(s[i]) || s[i] == '.' || (i == 0 && (s[i] == '+' || s[i] == '-'))
  {
    var (negative, body) := SplitSign(s);
    var parts := Split(body, '.');
    if |parts| > 2 then None
    else
      var whole := parts[0];
      var fraction := if |parts| == 2 then parts[1] else "";
      if |whole| + |fraction| == 0 || !AllDigits(whole) || !AllDigits(fraction) then None
      else
        assert forall i :: 0 <= i < |body| ==> IsDigit(body[i]) || body[i] == '.' by {
          JoinSplit(body, '.');
          if |parts| == 2 {
            assert body == whole + "." + fraction;
          } else {
            assert body == whole;
          }
        }
        assert forall i :: 0 <= i < |s| ==> IsDigit(s[i]) || s[i] == '.' || (i == 0 && (s[i] == '+' || s[i] == '-')) by {
          if |s| > 0 && (s[0] == '+' || s[0] == '-') {
            assert forall i :: 1 <= i < |s| ==> s[i] == body[i - 1];
          }
        }
        Some(Decimal(negative, DecimalValue(whole + fraction), |fraction|))
  }

  /** `math.Round` on the exact value: to the nearest integer, halves away from zero. */
  function RoundHalfAwayFromZero(d: Decimal): (r: int)
    ensures r != 0 ==> (r < 0 <==> d.negative)
    ensures var m := if r < 0 then -r else r;
            var p := Pow10(d.scale);
            2 * m * p - p <= 2 * d.mantissa < 2 * m * p + p
  {
    var p := Pow10(d.scale);
    var m := (2 * d.mantissa + p) / (2 * p);
    RoundBounds(d.mantissa, p);
    if d.negative then -m else m
  }

  lemma RoundBounds(n: nat, p: nat)
    requires p >= 1
    ensures var m := (2 * n + p) / (2 * p); m >= 0 && 2 * m * p - p <= 2 * n < 2 * m * p + p
  {
    var m := (2 * n + p) / (2 * p);
    var rem := (2 * n + p) % (2 * p);
    assert 2 * n + p == (2 * p) * m + rem;
    assert 0 <= rem < 2 * p;
    assert (2 * p) * m == 2 * m * p;
  }
}
