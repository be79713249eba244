/** Identifier normalisation (`parse_identifier`) and the digit-run helpers
    it shares with the series lookup and the barcode cleaning. */
module Identifiers {
  import opened Options

  predicate IsDigit(c: char) { '0' <= c <= '9' }

  predicate AllDigits(s: string) { forall i | 0 <= i < |s| :: IsDigit(s[i]) }

  predicate NoDigits(s: string) { forall i | 0 <= i < |s| :: !IsDigit(s[i]) }

  /** The longest prefix of `s` made only of digits. */
  function DigitPrefix(s: string): (r: string)
    ensures |r| <= |s| && r == s[..|r|] && AllDigits(r)
    ensures |r| < |s| ==> !IsDigit(s[|r|])
  {
    if s != [] && IsDigit(s[0]) then [s[0]] + DigitPrefix(s[1..]) else []
  }

  /** The text of the first match of `/\d+/` in `s` (leftmost, greedy),
      or None where Ruby's `match` yields nil. */
  function FirstDigitRun(s: string): (r: Option<string>)
    ensures r.None? <==> NoDigits(s)
    ensures r.Some? ==> r.value != [] && AllDigits(r.value)
  {
    if s == [] then None
    else if IsDigit(s[0]) then Some(DigitPrefix(s))
    else FirstDigitRun(s[1..])
  }

  /** Ruby's `^` holds at the start of the string and after every newline. */
  predicate LineStart(s: string, p: nat)
    requires p <= |s|
  {
    p == 0 || s[p - 1] == '\n'
  }

  /** `(A|M)C` matches at position `p`. */
  predicate PrefixAt(s: string, p: nat)
  {
    p + 2 <= |s| && (s[p] == 'A' || s[p] == 'M') && s[p + 1] == 'C'
  }

  function LinePrefixFrom(s: string, p: nat): (r: Option<string>)
    requires p <= |s|
    ensures r.Some? ==> r.value == "AC" || r.value == "MC"
    decreases |s| - p
  {
    if p + 2 > |s| then None
    else if LineStart(s, p) && PrefixAt(s, p) then Some(s[p..p + 2])
    else LinePrefixFrom(s, p + 1)
  }

  /** The text of the first match of `/^(A|M)C/` in `s`. */
  function LinePrefix(s: string): Option<string>
  {
    LinePrefixFrom(s, 0)
  }

  function DigitValue(c: char): nat
    requires IsDigit(c)
  {
    c as int - '0' as int
  }

  function DigitChar(n: nat): char
    requires n < 10
  {
    ('0' as int + n) as char
  }

  /** Ruby's `String#to_i` on a string of digits. */
  function Value(d: string): nat
    requires AllDigits(d)
    decreases |d|
  {
    if d == [] then 0 else 10 * Value(d[..|d| - 1]) + DigitValue(d[|d| - 1])
  }

  /** Ruby's `Integer#to_s` on a non-negative integer. */
  function ToDecimal(n: nat): (r: string)
    ensures r != [] && AllDigits(r)
  {
    if n < 10 then [DigitChar(n)] else ToDecimal(n / 10) + [DigitChar(n % 10)]
  }

  /** A digit string with its redundant leading zeros removed ("0" stays). */
  function StripLeadingZeros(d: string): string
  {
    if |d| > 1 && d[0] == '0' then StripLeadingZeros(d[1..]) else d
  }

  /** `parse_identifier`: the `AC`/`MC` prefix followed by the integer value
      of the first digit run; the identifier itself when either is missing. */
  function ParseIdentifier(identifier: string): (r: string)
    ensures LinePrefix(identifier).Some? && FirstDigitRun(identifier).Some? ==>
      r == LinePrefix(identifier).value + StripLeadingZeros(FirstDigitRun(identifier).value)
    ensures LinePrefix(identifier).None? || NoDigits(identifier) ==> r == identifier
  {
    match (LinePrefix(identifier), FirstDigitRun(identifier))
    case (Some(prefix), Some(run)) =>
      DecimalOfValue(run);
      prefix + ToDecimal(Value(run))
    case _ => identifier
  }

  // ---------------------------------------------------------------------
  // Digit runs

  lemma {:induction false} DigitPrefixOfDigits(d: string)
    requires AllDigits(d)
    ensures DigitPrefix(d) == d
  {
    if d != [] {
      DigitPrefixOfDigits(d[1..]);
    }
  }

  /** The run found is the one starting at the first digit of `s`. */
  lemma {:induction false} FirstDigitRunIsLeftmost(s: string, i: nat)
    requires i < |s| && NoDigits(s[..i]) && IsDigit(s[i])
    ensures FirstDigitRun(s) == Some(DigitPrefix(s[i..]))
  {
    if i > 0 {
      assert !IsDigit(s[..i][0]);
      assert s[1..][..i - 1] == s[1..i];
      assert forall k | 0 <= k < i - 1 :: s[1..i][k] == s[..i][k + 1];
      assert s[1..][i - 1..] == s[i..];
      FirstDigitRunIsLeftmost(s[1..], i - 1);
    }
  }

  // ---------------------------------------------------------------------
  // The `^(A|M)C` match

  /** An identifier that begins with `AC` or `MC` yields that prefix. */
  lemma LinePrefixAtStart(s: string)
    requires PrefixAt(s, 0)
    ensures LinePrefix(s) == Some(s[..2])
  {
  }

  /** Without newlines the only line start is position 0. */
  lemma {:induction false} LinePrefixWithoutNewlines(s: string, p: nat)
    requires 0 < p <= |s|
    requires forall i | 0 <= i < |s| :: s[i] != '\n'
    ensures LinePrefixFrom(s, p) == None
    decreases |s| - p
  {
    if p + 2 <= |s| {
      assert !LineStart(s, p);
      LinePrefixWithoutNewlines(s, p + 1);
    }
  }

  // ---------------------------------------------------------------------
  // `to_i.to_s` strips leading zeros

  lemma {:induction false} ValueOfDecimal(n: nat)
    ensures Value(ToDecimal(n)) == n
  {
    var d := ToDecimal(n);
    if n >= 10 {
      assert d[..|d| - 1] == ToDecimal(n / 10);
      ValueOfDecimal(n / 10);
    }
  }

  lemma {:induction false} LeadingZeroValue(d: string)
    requires AllDigits(d) && d != [] && d[0] == '0'
    ensures Value(d) == Value(d[1..])
    decreases |d|
  {
    if |d| > 1 {
      var init := d[..|d| - 1];
      LeadingZeroValue(init);
      assert init[1..] == d[1..][..|d[1..]| - 1];
    }
  }

  lemma {:induction false} PositiveValue(d: string)
    requires AllDigits(d) && d != [] && d[0] != '0'
    ensures Value(d) > 0
    decreases |d|
  {
    if |d| > 1 {
      PositiveValue(d[..|d| - 1]);
    }
  }

  lemma {:induction false} CanonicalRoundTrip(d: string)
    requires AllDigits(d) && d != [] && (d[0] != '0' || |d| == 1)
    ensures ToDecimal(Value(d)) == d
    decreases |d|
  {
    if |d| == 1 {
      assert d[..0] == [];
    } else {
      var init := d[..|d| - 1];
      PositiveValue(init);
      CanonicalRoundTrip(init);
      var v := Value(d);
      assert v / 10 == Value(init) && v % 10 == DigitValue(d[|d| - 1]);
      assert d == init + [d[|d| - 1]];
    }
  }

  /** `to_i.to_s` of a digit run is the run without its leading zeros. */
  lemma {:induction false} DecimalOfValue(d: string)
    requires AllDigits(d) && d != []
    ensures ToDecimal(Value(d)) == StripLeadingZeros(d)
    decreases |d|
  {
    if |d| > 1 && d[0] == '0' {
      LeadingZeroValue(d);
      DecimalOfValue(d[1..]);
    } else {
      CanonicalRoundTrip(d);
    }
  }

  // ---------------------------------------------------------------------
  // parse_identifier

  /** A normalised key normalises to itself. */
  lemma ParseIdentifierIdempotent(identifier: string)
    ensures ParseIdentifier(ParseIdentifier(identifier)) == ParseIdentifier(identifier)
  {
    match (LinePrefix(identifier), FirstDigitRun(identifier))
    case (Some(prefix), Some(run)) =>
      var digits := ToDecimal(Value(run));
      var key := prefix + digits;
      LinePrefixAtStart(key);
      assert key[..2] == prefix;
      assert key[2..] == digits;
      assert NoDigits(key[..2]);
      FirstDigitRunIsLeftmost(key, 2);
      DigitPrefixOfDigits(digits);
      ValueOfDecimal(Value(run));
    case _ =>
  }

  /** An `AC`/`MC` identifier whose digits start at `i` and run to its end. */
  lemma PrefixedKey(s: string, i: nat)
    requires PrefixAt(s, 0) && 2 <= i < |s| && NoDigits(s[..i]) && AllDigits(s[i..])
    ensures ParseIdentifier(s) == s[..2] + StripLeadingZeros(s[i..])
  {
    LinePrefixAtStart(s);
    FirstDigitRunIsLeftmost(s, i);
    DigitPrefixOfDigits(s[i..]);
  }

  /** One leading zero of "0123" is dropped. */
  lemma StrippedZeroExample()
    ensures StripLeadingZeros("0123") == "123"
  {
    assert "0123"[1..] == "123";
  }

  /** "AC 0123" (a blank and a leading zero) normalises to "AC123". */
  lemma ParseIdentifierSpacedExample(s: string)
    requires s == "AC 0123"
    ensures ParseIdentifier(s) == "AC123"
  {
    assert PrefixAt(s, 0) && NoDigits(s[..3]) && AllDigits(s[3..]) && s[3..] == "0123" && s[..2] == "AC" by {
      assert s[3..] == "0123";
    }
    StrippedZeroExample();
    PrefixedKey(s, 3);
  }

  /** "AC0123" (a leading zero) normalises to "AC123". */
  lemma ParseIdentifierPaddedExample(s: string)
    requires s == "AC0123"
    ensures ParseIdentifier(s) == "AC123"
  {
    assert PrefixAt(s, 0) && NoDigits(s[..2]) && AllDigits(s[2..]) && s[2..] == "0123" && s[..2] == "AC" by {
      assert s[2..] == "0123";
    }
    StrippedZeroExample();
    PrefixedKey(s, 2);
  }

  /** "AC123" is already a key. */
  lemma ParseIdentifierPlainExample(s: string)
    requires s == "AC123"
    ensures ParseIdentifier(s) == "AC123"
  {
    assert PrefixAt(s, 0) && NoDigits(s[..2]) && AllDigits(s[2..]) && s[2..] == "123" && s[..2] == "AC" by {
      assert s[2..] == "123";
    }
    PrefixedKey(s, 2);
  }
}
