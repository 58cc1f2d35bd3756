/**
 Decimal amounts: the 7-decimal strings that get24hVolume of indexer/src/db.js prints and that
 parseStake of frontend/src/bets/submit.ts reads back into integer units.
 */
module Stakes {
  import opened Results
  import opened Decimals
  import opened Arithmetic

  function Zeros(k: nat): (s: string)
    ensures |s| == k && AllDigits(s)
  {
    if k == 0 then [] else Zeros(k - 1) + ['0']
  }

  /** `s.padStart(k, "0")` */
  function PadStart(s: string, k: nat): string { if |s| >= k then s else Zeros(k - |s|) + s }

  function Pow10(k: nat): (r: nat)
    ensures r > 0
  {
    if k == 0 then 1 else 10 * Pow10(k - 1)
  }

  // get24hVolume: a BigInt scaled by a number of decimals. Division truncates toward zero.

  function SignedToDecimal(n: int): string { if n >= 0 then ToDecimal(n) else "-" + ToDecimal(-n) }

  function VolumeScaled(raw: int, decimals: nat): string
  {
    var divisor := Pow10(decimals);
    var whole := TruncDiv(raw, divisor);
    var fraction := raw - whole * divisor;
    SignedToDecimal(whole) + "." + PadStart(SignedToDecimal(fraction), decimals)
  }

  // parseStake.

  /** The characters `trim` removes: white space and line terminators. */
  predicate IsSpace(c: char)
  {
    '\U{0009}' <= c <= '\U{000D}' || c == ' ' || c == '\U{00A0}' || c == '\U{1680}' ||
    '\U{2000}' <= c <= '\U{200A}' || c == '\U{2028}' || c == '\U{2029}' || c == '\U{202F}' ||
    c == '\U{205F}' || c == '\U{3000}' || c == '\U{FEFF}'
  }

  function TrimStart(s: string): string { if s != [] && IsSpace(s[0]) then TrimStart(s[1..]) else s }

  function TrimEnd(s: string): string
  {
    if s != [] && IsSpace(s[|s| - 1]) then TrimEnd(s[..|s| - 1]) else s
  }

  function Trim(s: string): string { TrimEnd(TrimStart(s)) }

  /** The place of the first dot, or the length if there is none. */
  function DotAt(s: string): (i: nat)
    ensures i <= |s| && (forall j :: 0 <= j < i ==> s[j] != '.') && (i < |s| ==> s[i] == '.')
  {
    if s == [] || s[0] == '.' then 0 else 1 + DotAt(s[1..])
  }

  function Whole(s: string): string { s[..DotAt(s)] }

  function Fraction(s: string): string { if DotAt(s) < |s| then s[DotAt(s) + 1..] else [] }

  /** The regular expression: digits, then at most one dot followed by one to seven digits. */
  predicate Accepts(s: string)
  {
    && Whole(s) != [] && AllDigits(Whole(s)) && AllDigits(Fraction(s))
    && (DotAt(s) < |s| ==> 1 <= |Fraction(s)| <= 7)
  }

  datatype StakeError = BadFormat | NotPositive

  /** The amount in units of 0.0000001: the fraction is filled up with zeros to seven digits. */
  function Units(s: string): nat
    requires Accepts(s)
  {
    var frac := (Fraction(s) + Zeros(7))[..7];
    assert AllDigits(frac);
    FromDecimal(Whole(s)) * 10_000_000 + FromDecimal(frac)
  }

  function ParseStake(stake: string): Result<int, StakeError>
  {
    var trimmed := Trim(stake);
    if !Accepts(trimmed) then Err(BadFormat)
    else if Units(trimmed) <= 0 then Err(NotPositive)
    else Ok(Units(trimmed))
  }

  // Printing and reading digits.

  lemma {:induction false} ZerosAreZero(k: nat)
    ensures FromDecimal(Zeros(k)) == 0
  {
    if k > 0 {
      ZerosAreZero(k - 1);
      FromDecimalOfAppended(Zeros(k - 1), '0');
    }
  }

  lemma {:induction false} ZerosBefore(k: nat, s: string)
    requires AllDigits(s)
    ensures FromDecimal(Zeros(k) + s) == FromDecimal(s)
  {
    if s == [] {
      assert Zeros(k) + s == Zeros(k);
      ZerosAreZero(k);
    } else {
      var n := |s| - 1;
      ZerosBefore(k, s[..n]);
      assert Zeros(k) + s == (Zeros(k) + s[..n]) + [s[n]];
      FromDecimalOfAppended(Zeros(k) + s[..n], s[n]);
    }
  }

  lemma TimesTen(x: int, p: int)
    ensures x * p * 10 == x * (10 * p)
  {
  }

  lemma {:induction false} ZerosAfter(s: string, k: nat)
    requires AllDigits(s)
    ensures FromDecimal(s + Zeros(k)) == FromDecimal(s) * Pow10(k)
  {
    if k > 0 {
      ZerosAfter(s, k - 1);
      assert s + Zeros(k) == (s + Zeros(k - 1)) + ['0'];
      FromDecimalOfAppended(s + Zeros(k - 1), '0');
      TimesTen(FromDecimal(s), Pow10(k - 1));
    } else {
      assert s + Zeros(0) == s;
    }
  }

  lemma {:induction false} PrintedLength(n: nat, k: nat)
    requires n < Pow10(k) && k > 0
    ensures |ToDecimal(n)| <= k
  {
    if n >= 10 { PrintedLength(n / 10, k - 1); }
  }

  lemma {:induction false} ReadBound(s: string)
    requires AllDigits(s)
    ensures FromDecimal(s) < Pow10(|s|)
  {
    if s != [] { ReadBound(s[..|s| - 1]); }
  }

  lemma PadAppended(s: string, c: char, k: nat)
    ensures PadStart(s + [c], k + 1) == PadStart(s, k) + [c]
  {
  }

  lemma {:induction false} ZerosInFront(k: nat)
    ensures Zeros(k) + ['0'] == Zeros(k + 1)
  {
  }

  lemma PrintedDigit(x: nat, c: char)
    requires IsDigit(c)
    ensures ToDecimal(10 * x + DigitValue(c)) == if x == 0 then [c] else ToDecimal(x) + [c]
  {
  }

  /** Reading a padded field and printing it to the same width gives the field back. */
  lemma {:induction false} PrintedField(f: string)
    requires AllDigits(f) && f != []
    ensures PadStart(ToDecimal(FromDecimal(f)), |f|) == f
  {
    var n := |f| - 1;
    var g := f[..n];
    assert f == g + [f[n]];
    PrintedDigit(FromDecimal(g), f[n]);
    if g != [] {
      PrintedField(g);
      AppendedField(FromDecimal(g), g, f[n]);
    }
  }

  lemma AppendedField(x: nat, g: string, c: char)
    requires g != [] && IsDigit(c) && PadStart(ToDecimal(x), |g|) == g
    ensures PadStart(ToDecimal(10 * x + DigitValue(c)), |g| + 1) == g + [c]
  {
    PrintedDigit(x, c);
    if x == 0 {
      ZerosInFront(|g| - 1);
      assert ToDecimal(0) == ['0'];
    } else {
      PadAppended(ToDecimal(x), c, |g|);
    }
  }

  lemma ZeroPrintsAsZero(g: string)
    requires AllDigits(g) && g != [] && g[0] != '0' && ToDecimal(FromDecimal(g)) == g
    ensures FromDecimal(g) != 0
  {
  }

  /** Without leading zeros, printing gives back what was read. */
  lemma {:induction false} PrintedCanonical(s: string)
    requires AllDigits(s) && s != [] && (|s| > 1 ==> s[0] != '0')
    ensures ToDecimal(FromDecimal(s)) == s
  {
    var n := |s| - 1;
    var g := s[..n];
    assert s == g + [s[n]];
    PrintedDigit(FromDecimal(g), s[n]);
    if n > 0 {
      PrintedCanonical(g);
      ZeroPrintsAsZero(g);
    }
  }

  // Printing undone by parsing.

  lemma {:induction false} NothingToTrim(s: string)
    requires s != [] && !IsSpace(s[0]) && !IsSpace(s[|s| - 1])
    ensures Trim(s) == s
  {
  }

  lemma {:induction false} DotAfterDigits(w: string, f: string)
    requires AllDigits(w)
    ensures DotAt(w + "." + f) == |w|
    ensures Whole(w + "." + f) == w && Fraction(w + "." + f) == f
  {
    var s := w + "." + f;
    if w != [] {
      DotAfterDigits(w[1..], f);
      assert s[1..] == w[1..] + "." + f;
    }
    assert s[..|w|] == w && s[|w| + 1..] == f;
  }

  lemma UnitsAre(s: string)
    requires Accepts(s)
    ensures Units(s) == FromDecimal(Whole(s)) * 10_000_000 + FromDecimal(Fraction(s)) * Pow10(7 - |Fraction(s)|)
  {
    var f := Fraction(s);
    PrefixOfZeros(7, 7 - |f|);
    assert (f + Zeros(7))[..7] == f + Zeros(7 - |f|);
    ZerosAfter(f, 7 - |f|);
  }

  lemma TrimsToItself(w: string, f: string)
    requires AllDigits(w) && w != [] && f != [] && IsDigit(f[|f| - 1])
    ensures Trim(w + "." + f) == w + "." + f
  {
  }

  lemma ParseParts(s: string, w: string, f: string)
    requires Trim(s) == s && DotAt(s) < |s| && Whole(s) == w && Fraction(s) == f
    requires AllDigits(w) && w != [] && AllDigits(f) && f != []
    ensures |f| > 7 ==> ParseStake(s) == Err(BadFormat)
    ensures |f| <= 7 ==> Accepts(s) && ParseStake(s) == if Units(s) > 0 then Ok(Units(s)) else Err(NotPositive)
  {
  }

  lemma ParseWholeAndFraction(s: string, w: string, f: string)
    requires s == w + "." + f && AllDigits(w) && w != [] && AllDigits(f) && 1 <= |f| <= 7
    ensures Accepts(s) && ParseStake(s) == if Units(s) > 0 then Ok(Units(s)) else Err(NotPositive)
    ensures Units(s) == FromDecimal(w) * 10_000_000 + FromDecimal(f) * Pow10(7 - |f|)
  {
    TrimsToItself(w, f);
    DotAfterDigits(w, f);
    ParseParts(s, w, f);
    UnitsAre(s);
  }

  lemma TooManyDecimals(s: string, w: string, f: string)
    requires s == w + "." + f && AllDigits(w) && w != [] && AllDigits(f) && |f| > 7
    ensures ParseStake(s) == Err(BadFormat)
  {
    TrimsToItself(w, f);
    DotAfterDigits(w, f);
    ParseParts(s, w, f);
  }

  lemma {:induction false} PrefixOfZeros(k: nat, j: nat)
    requires j <= k
    ensures Zeros(k)[..j] == Zeros(j)
  {
    if j < k {
      PrefixOfZeros(k - 1, j);
      assert Zeros(k)[..j] == Zeros(k - 1)[..j];
    }
  }

  /**
   Parsing undoes printing: a volume printed with 7 decimals reads back as itself if and only if it is
   positive; with fewer decimals it reads back scaled up, with more it is refused.
   */
  lemma ParsePrinted(n: int, decimals: nat)
    ensures decimals <= 7 && n > 0 ==> ParseStake(VolumeScaled(n, decimals)) == Ok(n * Pow10(7 - decimals))
    ensures decimals > 7 || n <= 0 ==> ParseStake(VolumeScaled(n, decimals)).Err?
    ensures decimals == 7 ==> (ParseStake(VolumeScaled(n, decimals)) == Ok(n) <==> n > 0)
  {
    PrintedParses(n, decimals);
    TimesOne(n);
  }

  lemma TimesOne(n: int)
    ensures n * Pow10(0) == n
  {
  }

  lemma TruncDivParts(n: int, d: int)
    requires d > 0
    ensures var whole := TruncDiv(n, d);
            && (n >= 0 ==> whole == n / d && n - whole * d == n % d)
            && (n < 0 ==> whole <= 0 && -d < n - whole * d <= 0 && (whole < 0 || n - whole * d < 0))
  {
  }

  lemma PaddedFraction(x: nat, decimals: nat)
    requires x < Pow10(decimals)
    ensures var f := PadStart(ToDecimal(x), decimals);
            AllDigits(f) && f != [] && FromDecimal(f) == x && |f| == FractionWidth(decimals)
  {
    ReadPrinted(x);
    if decimals > 0 {
      PrintedLength(x, decimals);
      ZerosBefore(decimals - |ToDecimal(x)|, ToDecimal(x));
    }
  }

  lemma QuotientNonNegative(n: nat, d: int)
    requires d > 0
    ensures n / d >= 0
  {
  }

  function WholePart(n: nat, decimals: nat): nat
  {
    QuotientNonNegative(n, Pow10(decimals));
    n / Pow10(decimals)
  }

  function FractionPart(n: nat, decimals: nat): (r: nat)
    ensures r < Pow10(decimals)
  {
    n % Pow10(decimals)
  }

  lemma VolumeOfNat(n: nat, decimals: nat)
    ensures VolumeScaled(n, decimals) ==
            ToDecimal(WholePart(n, decimals)) + "." + PadStart(ToDecimal(FractionPart(n, decimals)), decimals)
  {
    TruncDivParts(n, Pow10(decimals));
  }

  lemma PrintedParses(n: int, decimals: nat)
    ensures decimals <= 7 && n > 0 ==> ParseStake(VolumeScaled(n, decimals)) == Ok(n * Pow10(7 - decimals))
    ensures decimals > 7 || n <= 0 ==> ParseStake(VolumeScaled(n, decimals)).Err?
  {
    if n < 0 {
      NegativeRefused(n, decimals);
    } else {
      NaturalParses(n, decimals);
    }
  }

  /** What is printed for a natural number: digits, a dot, and a fraction of the given width. */
  lemma PrintedShape(n: nat, decimals: nat) returns (w: string, f: string)
    ensures VolumeScaled(n, decimals) == w + "." + f
    ensures AllDigits(w) && w != [] && FromDecimal(w) == WholePart(n, decimals)
    ensures AllDigits(f) && FromDecimal(f) == FractionPart(n, decimals)
    ensures |f| == FractionWidth(decimals)
  {
    var whole, fraction := WholePart(n, decimals), FractionPart(n, decimals);
    w, f := ToDecimal(whole), PadStart(ToDecimal(fraction), decimals);
    VolumeOfNat(n, decimals);
    ReadPrinted(whole);
    PaddedFraction(fraction, decimals);
  }

  lemma NaturalParses(n: nat, decimals: nat)
    ensures decimals <= 7 ==> ParseStake(VolumeScaled(n, decimals)) ==
                              if n > 0 then Ok(n * Pow10(7 - decimals)) else Err(NotPositive)
    ensures decimals > 7 ==> ParseStake(VolumeScaled(n, decimals)) == Err(BadFormat)
  {
    var s := VolumeScaled(n, decimals);
    var w, f := PrintedShape(n, decimals);
    if decimals > 7 {
      TooManyDecimals(s, w, f);
    } else {
      UnitsOfPrinted(n, decimals, s, w, f);
    }
  }

  lemma UnitsOfPrinted(n: nat, decimals: nat, s: string, w: string, f: string)
    requires decimals <= 7 && s == w + "." + f && w != [] && |f| == FractionWidth(decimals)
    requires AllDigits(w) && FromDecimal(w) == WholePart(n, decimals)
    requires AllDigits(f) && FromDecimal(f) == FractionPart(n, decimals)
    ensures ParseStake(s) == if n > 0 then Ok(n * Pow10(7 - decimals)) else Err(NotPositive)
  {
    ParseWholeAndFraction(s, w, f);
    PrintedUnits(n, decimals);
  }

  /** An empty field is printed as "0". */
  function FractionWidth(decimals: nat): nat { if decimals == 0 then 1 else decimals }

  lemma PrintedUnits(n: nat, decimals: nat)
    requires decimals <= 7
    ensures WholePart(n, decimals) * 10_000_000 +
            FractionPart(n, decimals) * Pow10(7 - FractionWidth(decimals)) == n * Pow10(7 - decimals)
    ensures n > 0 <==> n * Pow10(7 - decimals) > 0
  {
    Rescale(n, decimals);
    if decimals == 0 { assert n % 1 == 0; }
    if n > 0 { PositiveProduct(n, Pow10(7 - decimals)); }
  }

  lemma PositiveProduct(a: int, b: int)
    requires a > 0 && b > 0
    ensures a * b > 0
  {
  }

  lemma Rescale(n: nat, decimals: nat)
    requires decimals <= 7
    ensures var d := Pow10(decimals);
            n / d * 10_000_000 + n % d * Pow10(7 - decimals) == n * Pow10(7 - decimals)
  {
    var d, up := Pow10(decimals), Pow10(7 - decimals);
    SevenSplit(decimals);
    assert n == n / d * d + n % d;
    assert n / d * 10_000_000 == n / d * d * up;
    assert (n / d * d + n % d) * up == n / d * d * up + n % d * up;
  }

  lemma SevenSplit(k: nat)
    requires k <= 7
    ensures Pow10(k) * Pow10(7 - k) == 10_000_000
  {
    Pow10Adds(k, 7 - k);
    SevenDecimals();
  }

  lemma SevenDecimals()
    ensures Pow10(7) == 10_000_000
  {
    assert Pow10(3) == 1000;
    assert Pow10(5) == 100_000;
  }

  lemma {:induction false} Pow10Adds(a: nat, b: nat)
    ensures Pow10(a) * Pow10(b) == Pow10(a + b)
  {
    if a > 0 {
      Pow10Adds(a - 1, b);
      assert 10 * Pow10(a - 1) * Pow10(b) == 10 * (Pow10(a - 1) * Pow10(b));
    }
  }

  lemma NegativeRefused(n: int, decimals: nat)
    requires n < 0
    ensures ParseStake(VolumeScaled(n, decimals)) == Err(BadFormat)
  {
    var divisor := Pow10(decimals);
    TruncDivParts(n, divisor);
    var whole := TruncDiv(n, divisor);
    var fraction := n - whole * divisor;
    var w, f := SignedToDecimal(whole), PadStart(SignedToDecimal(fraction), decimals);
    assert VolumeScaled(n, decimals) == w + "." + f;
    LastOfPadded(SignedToDecimal(fraction), decimals);
    if whole < 0 {
      SignRefused(w, f);
    } else {
      assert w == ['0'] && '-' in SignedToDecimal(fraction);
      PaddedKeeps(SignedToDecimal(fraction), decimals);
      MinusInFractionRefused(w, f);
    }
  }

  lemma SignRefused(w: string, f: string)
    requires w != [] && w[0] == '-' && f != [] && IsDigit(f[|f| - 1])
    ensures ParseStake(w + "." + f) == Err(BadFormat)
  {
    var s := w + "." + f;
    assert s[0] == '-' && s[|s| - 1] == f[|f| - 1];
    NothingToTrim(s);
    assert DotAt(s) > 0 && Whole(s)[0] == '-';
  }

  lemma MinusInFractionRefused(w: string, f: string)
    requires AllDigits(w) && w != [] && f != [] && IsDigit(f[|f| - 1]) && '-' in f
    ensures ParseStake(w + "." + f) == Err(BadFormat)
  {
    TrimsToItself(w, f);
    DotAfterDigits(w, f);
  }

  lemma LastOfPadded(s: string, k: nat)
    requires s != []
    ensures PadStart(s, k) != [] && PadStart(s, k)[|PadStart(s, k)| - 1] == s[|s| - 1]
  {
  }

  lemma PaddedKeeps(s: string, k: nat)
    ensures forall c :: c in s ==> c in PadStart(s, k)
  {
  }

  // What accepted strings denote.

  /** The rational number an accepted string stands for. */
  ghost function Denotes(s: string): real
    requires Accepts(s)
  {
    FromDecimal(Whole(s)) as real + FromDecimal(Fraction(s)) as real / Pow10(|Fraction(s)|) as real
  }

  /** Parsing is exact: the units are the denoted amount times ten million, and zero is refused. */
  lemma ParseIsExact(stake: string)
    requires Accepts(Trim(stake))
    ensures var amount := Denotes(Trim(stake)) * 10_000_000.0;
            match ParseStake(stake)
            case Ok(units) => units > 0 && units as real == amount
            case Err(e) => e == NotPositive && amount == 0.0
  {
    UnitsDenoted(Trim(stake));
  }

  lemma UnitsDenoted(s: string)
    requires Accepts(s)
    ensures Units(s) as real == Denotes(s) * 10_000_000.0
  {
    var f := Fraction(s);
    UnitsAre(s);
    SevenSplit(|f|);
    ScaledSum(FromDecimal(Whole(s)), FromDecimal(f), Pow10(|f|), Pow10(7 - |f|));
  }

  lemma ScaledSum(w: nat, x: nat, d: nat, up: nat)
    requires d > 0 && d * up == 10_000_000
    ensures (w as real + x as real / d as real) * 10_000_000.0 == (w * 10_000_000 + x * up) as real
  {
    ScaledFraction(x, d, up);
  }

  lemma ScaledFraction(x: nat, d: nat, up: nat)
    requires d > 0 && d * up == 10_000_000
    ensures (x as real / d as real) * 10_000_000.0 == (x * up) as real
  {
    var q := x as real / d as real;
    assert q * d as real == x as real;
    assert (d * up) as real == d as real * up as real;
    assert q * (d as real * up as real) == q * d as real * up as real;
    assert (x * up) as real == x as real * up as real;
  }

  /** No leading zero in front, and exactly seven decimals. */
  predicate Canonical(s: string)
  {
    Accepts(s) && |Fraction(s)| == 7 && (|Whole(s)| > 1 ==> s[0] != '0')
  }

  lemma {:induction false} NoLeadingZero(n: nat)
    ensures |ToDecimal(n)| > 1 ==> ToDecimal(n)[0] != '0'
    ensures n > 0 ==> ToDecimal(n)[0] != '0'
  {
    if n >= 10 { NoLeadingZero(n / 10); }
  }

  /**
   Reprinting an accepted stake keeps its value and puts it in canonical form; a canonical string is left
   as it is; and two accepted strings reprint alike if and only if they denote the same amount.
   */
  lemma ReprintIsCanonical(stake: string)
    requires ParseStake(stake).Ok?
    ensures var printed := VolumeScaled(ParseStake(stake).value, 7);
            && Canonical(printed)
            && ParseStake(printed) == ParseStake(stake)
            && Denotes(printed) == Denotes(Trim(stake))
            && (Canonical(stake) && Trim(stake) == stake ==> printed == stake)
  {
    var n := ParseStake(stake).value;
    var printed := VolumeScaled(n, 7);
    SevenDecimals();
    var w, f := ToDecimal(WholePart(n, 7)), PadStart(ToDecimal(FractionPart(n, 7)), 7);
    VolumeOfNat(n, 7);
    PaddedFraction(FractionPart(n, 7), 7);
    DotAfterDigits(w, f);
    NoLeadingZero(WholePart(n, 7));
    TrimsToItself(w, f);
    ParsePrinted(n, 7);
    ParseIsExact(stake);
    ParseIsExact(printed);
    if Canonical(stake) && Trim(stake) == stake { CanonicalReprints(stake); }
  }

  lemma CanonicalReprints(s: string)
    requires Canonical(s) && Trim(s) == s && ParseStake(s).Ok?
    ensures VolumeScaled(ParseStake(s).value, 7) == s
  {
    UnitsAre(s);
    TimesOne(FromDecimal(Fraction(s)));
    PartsOfSplit(s);
    CanonicalParts(s, Whole(s), Fraction(s), ParseStake(s).value);
  }

  lemma PartsOfSplit(s: string)
    requires Fraction(s) != []
    ensures s == Whole(s) + "." + Fraction(s) && (Whole(s) != [] ==> Whole(s)[0] == s[0])
  {
  }

  lemma CanonicalParts(s: string, w: string, f: string, n: nat)
    requires s == w + "." + f && AllDigits(w) && AllDigits(f) && w != [] && |f| == 7 && (|w| > 1 ==> w[0] != '0')
    requires n == FromDecimal(w) * 10_000_000 + FromDecimal(f)
    ensures VolumeScaled(n, 7) == s
  {
    assert ToDecimal(FromDecimal(w)) == w by { PrintedCanonical(w); }
    assert PadStart(ToDecimal(FromDecimal(f)), 7) == f by { PrintedField(f); }
    assert WholePart(n, 7) == FromDecimal(w) && FractionPart(n, 7) == FromDecimal(f) by {
      ReadBound(f);
      SevenDecimals();
      PartsOf(FromDecimal(w), FromDecimal(f));
    }
    VolumeOfNat(n, 7);
  }

  lemma PartsOf(w: nat, f: nat)
    requires f < 10_000_000
    ensures WholePart(w * 10_000_000 + f, 7) == w && FractionPart(w * 10_000_000 + f, 7) == f
  {
  }

  lemma PrintIsInjective(u: int, v: int)
    requires u > 0 && v > 0
    ensures VolumeScaled(u, 7) == VolumeScaled(v, 7) ==> u == v
  {
    ParsePrinted(u, 7);
    ParsePrinted(v, 7);
  }

  lemma EqualAmounts(a: real, b: real, u: int, v: int)
    requires u as real == a * 10_000_000.0 && v as real == b * 10_000_000.0
    ensures u == v <==> a == b
  {
  }

  lemma SameReprintIffSameAmount(s: string, t: string)
    requires ParseStake(s).Ok? && ParseStake(t).Ok?
    ensures VolumeScaled(ParseStake(s).value, 7) == VolumeScaled(ParseStake(t).value, 7)
            <==> Denotes(Trim(s)) == Denotes(Trim(t))
  {
    var u, v := ParseStake(s).value, ParseStake(t).value;
    ParseIsExact(s);
    ParseIsExact(t);
    EqualAmounts(Denotes(Trim(s)), Denotes(Trim(t)), u, v);
    PrintIsInjective(u, v);
  }

  // What trimming and the regular expression mean.

  predicate AllSpace(s: string) { forall i :: 0 <= i < |s| ==> IsSpace(s[i]) }

  lemma {:induction false} TrimStartIs(s: string) returns (a: string)
    ensures s == a + TrimStart(s) && AllSpace(a)
    ensures TrimStart(s) != [] ==> !IsSpace(TrimStart(s)[0])
  {
    a := [];
    if s != [] && IsSpace(s[0]) {
      a := TrimStartIs(s[1..]);
      a := [s[0]] + a;
    }
  }

  lemma {:induction false} TrimEndIs(s: string) returns (b: string)
    ensures s == TrimEnd(s) + b && AllSpace(b)
    ensures TrimEnd(s) != [] ==> !IsSpace(TrimEnd(s)[|TrimEnd(s)| - 1])
  {
    b := [];
    if s != [] && IsSpace(s[|s| - 1]) {
      b := TrimEndIs(s[..|s| - 1]);
      b := b + [s[|s| - 1]];
    }
  }

  /** Only white space is cut off, on both sides, and none is left there. */
  lemma TrimIs(s: string) returns (a: string, b: string)
    ensures s == a + Trim(s) + b && AllSpace(a) && AllSpace(b)
    ensures Trim(s) != [] ==> !IsSpace(Trim(s)[0]) && !IsSpace(Trim(s)[|Trim(s)| - 1])
  {
    a := TrimStartIs(s);
    b := TrimEndIs(TrimStart(s));
    assert a + TrimStart(s) == a + Trim(s) + b;
    if Trim(s) != [] { assert Trim(s)[0] == TrimStart(s)[0]; }
  }

  /** The string is made of these two parts as the regular expression has it; no dot means no fraction. */
  predicate MadeOf(s: string, w: string, f: string)
  {
    w != [] && AllDigits(w) && AllDigits(f) && |f| <= 7 && s == if f == [] then w else w + "." + f
  }

  lemma {:induction false} DotAfterOnlyDigits(w: string)
    requires AllDigits(w)
    ensures DotAt(w) == |w|
  {
    if w != [] { DotAfterOnlyDigits(w[1..]); }
  }

  lemma AcceptedIsMade(s: string)
    requires Accepts(s)
    ensures MadeOf(s, Whole(s), Fraction(s))
  {
    if DotAt(s) < |s| {
      assert s == s[..DotAt(s)] + "." + s[DotAt(s) + 1..];
    } else {
      assert s[..|s|] == s;
    }
  }

  lemma MadeIsAccepted(s: string, w: string, f: string)
    requires MadeOf(s, w, f)
    ensures Accepts(s) && Whole(s) == w && Fraction(s) == f
  {
    if f == [] { DotAfterOnlyDigits(w); } else { DotAfterDigits(w, f); }
  }

  /** The strings that are accepted are those that match, and the parts are the ones that are read. */
  lemma AcceptsIff(s: string)
    ensures Accepts(s) ==> MadeOf(s, Whole(s), Fraction(s))
    ensures forall w, f :: MadeOf(s, w, f) ==> Accepts(s) && Whole(s) == w && Fraction(s) == f
  {
    if Accepts(s) { AcceptedIsMade(s); }
    forall w, f | MadeOf(s, w, f) ensures Accepts(s) && Whole(s) == w && Fraction(s) == f { MadeIsAccepted(s, w, f); }
  }

  /**
   parseStake in terms of the string alone: what is left after trimming is read if it is digits, or digits, a dot
   and one to seven digits; the units are those digits with the fraction filled up to seven. Zero is refused.
   */
  lemma ParsesIff(stake: string, w: string, f: string)
    ensures ParseStake(stake) == Err(BadFormat) <==> !exists w, f :: MadeOf(Trim(stake), w, f)
    ensures MadeOf(Trim(stake), w, f) ==>
              ParseStake(stake) == var units := UnitsOf(w, f); if units > 0 then Ok(units) else Err(NotPositive)
  {
    MalformedIff(stake);
    if MadeOf(Trim(stake), w, f) { UnitsOfParts(stake, w, f); }
  }

  /** What digits and a fraction of at most seven digits come to in units of 0.0000001. */
  function UnitsOf(w: string, f: string): nat
    requires AllDigits(w) && AllDigits(f) && |f| <= 7
  {
    FromDecimal(w) * 10_000_000 + FromDecimal(f) * Pow10(7 - |f|)
  }

  lemma UnitsOfParts(stake: string, w: string, f: string)
    requires MadeOf(Trim(stake), w, f)
    ensures ParseStake(stake) == var units := UnitsOf(w, f); if units > 0 then Ok(units) else Err(NotPositive)
  {
    MadeIsAccepted(Trim(stake), w, f);
    ParsesUnits(stake);
    UnitsAre(Trim(stake));
  }

  lemma ParsesUnits(stake: string)
    requires Accepts(Trim(stake))
    ensures ParseStake(stake) ==
            if Units(Trim(stake)) > 0 then Ok(Units(Trim(stake))) else Err(NotPositive)
  {
  }

  lemma MalformedIff(stake: string)
    ensures ParseStake(stake) == Err(BadFormat) <==> !exists w, f :: MadeOf(Trim(stake), w, f)
  {
    AcceptsIff(Trim(stake));
  }
}
