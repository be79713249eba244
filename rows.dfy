/** Barcode cleaning and the two reasons a CSV row is skipped (lines
    102-121), and the complaint stream those skips are written to. */
module Rows {
  import opened Options
  import opened Sequences
  import opened Identifiers
  import opened Records
  import opened Store

  /** Why a row was skipped. */
  datatype SkipReason = ResourceNotFound | BoxAndBarcodeRequired

  /** A line of the error stream (`reporter.complain`): the row number and
      the reason of a skip, or a barcode update the store refused. */
  datatype Complaint =
    | Skipped(row: nat, reason: SkipReason)
    | UpdateFailed(childId: nat, box: Option<string>, barcode: Option<string>)

  /** `gsub(/\D/, '')`: every character that is not a digit removed. */
  function StripNonDigits(s: string): (r: string)
    ensures |r| <= |s| && AllDigits(r)
    ensures forall c | IsDigit(c) :: multiset(r)[c] == multiset(s)[c]
    ensures forall k | 0 <= k < |r| :: r[k] in s
    ensures |s| == 1 ==> r == if IsDigit(s[0]) then s else []
  {
    if s == [] then []
    else
      var rest := StripNonDigits(s[1..]);
      assert s == [s[0]] + s[1..];
      if IsDigit(s[0]) then [s[0]] + rest else rest
  }

  /** Cleaning works character by character: the cleaned concatenation is
      the concatenation of the cleaned halves. With the one-character case
      of `StripNonDigits` this fixes every digit's position. */
  lemma {:induction false} StripNonDigitsAppend(a: string, b: string)
    ensures StripNonDigits(a + b) == StripNonDigits(a) + StripNonDigits(b)
  {
    if a == [] {
      assert a + b == b;
    } else {
      assert (a + b)[1..] == a[1..] + b;
      StripNonDigitsAppend(a[1..], b);
    }
  }

  /** Any two kept digits occur, as values, in that order in the string. */
  lemma {:induction false} StripNonDigitsInOrder(s: string)
    ensures KeepsOrder(StripNonDigits(s), s)
  {
    if s != [] {
      StripNonDigitsInOrder(s[1..]);
      KeepsOrderCons(s, StripNonDigits(s[1..]), IsDigit(s[0]));
    }
  }

  /** Line 103: a present barcode loses its non-digits, nil stays nil. */
  function CleanBarcode(barcode: Option<string>): (r: Option<string>)
    ensures r.None? <==> barcode.None?
    ensures r.Some? ==> AllDigits(r.value) && |r.value| <= |barcode.value|
    ensures r.Some? ==> forall c | IsDigit(c) :: multiset(r.value)[c] == multiset(barcode.value)[c]
    ensures r.Some? ==> KeepsOrder(r.value, barcode.value)
    ensures r.Some? ==> r.value == StripNonDigits(barcode.value)
  {
    match barcode
    case None => None
    case Some(b) =>
      StripNonDigitsInOrder(b);
      Some(StripNonDigits(b))
  }

  /** `parse_identifier` applied to the resource cell: a nil cell makes
      `match` raise, the rescue leaves every part nil, and nil comes back. */
  function ParsedKey(resource: Option<string>): (r: Option<string>)
    ensures r.None? <==> resource.None?
    ensures r.Some? ==> r.value == ParseIdentifier(resource.value)
  {
    match resource
    case None => None
    case Some(r) => Some(ParseIdentifier(r))
  }

  /** The outcome of lines 102-126 for one row. */
  datatype Verdict = Skip(reason: SkipReason) | Accept(data: Row, target: ResourceRef)

  /** Clean the barcode, then skip the row when its resource key is not in
      the index (tested first) or when its box or barcode is nil; otherwise
      keep the cleaned row with the indexed resource. Only nil counts as
      missing: an empty cell or a barcode without digits passes. */
  function Classify(row: Row, index: map<string, ResourceRef>): (v: Verdict)
    ensures v == Skip(ResourceNotFound)
        <==> ParsedKey(row.resource).None? || ParsedKey(row.resource).value !in index
    ensures v == Skip(BoxAndBarcodeRequired)
        <==> && ParsedKey(row.resource).Some? && ParsedKey(row.resource).value in index
             && (row.box.None? || row.barcode.None?)
    ensures v.Accept? ==>
      && v.target == index[ParsedKey(row.resource).value]
      && v.data == row.(barcode := CleanBarcode(row.barcode))
      && v.data.box.Some? && v.data.barcode.Some? && AllDigits(v.data.barcode.value)
  {
    var data := row.(barcode := CleanBarcode(row.barcode));
    var parsed := ParsedKey(data.resource);
    if parsed.None? || parsed.value !in index then Skip(ResourceNotFound)
    else if data.box.None? || data.barcode.None? then Skip(BoxAndBarcodeRequired)
    else Accept(data, index[parsed.value])
  }

  // ---------------------------------------------------------------------

  /** A barcode made of digits is kept as is, so cleaning is idempotent. */
  lemma {:induction false} StripNonDigitsKeepsDigits(s: string)
    requires AllDigits(s)
    ensures StripNonDigits(s) == s
  {
    if s != [] {
      StripNonDigitsKeepsDigits(s[1..]);
    }
  }

  lemma CleanBarcodeIdempotent(barcode: Option<string>)
    ensures CleanBarcode(CleanBarcode(barcode)) == CleanBarcode(barcode)
  {
    if barcode.Some? {
      StripNonDigitsKeepsDigits(StripNonDigits(barcode.value));
    }
  }

  /** The digits of a barcode survive cleaning in their order: "B-007"
      becomes "007". */
  lemma CleanBarcodeExample()
    ensures CleanBarcode(Some("B-007")) == Some("007")
  {
    assert "B-007"[1..] == "-007";
    assert "-007"[1..] == "007";
    StripNonDigitsKeepsDigits("007");
  }

  /** A barcode without digits cleans to "". */
  lemma {:induction false} StripNoDigits(s: string)
    requires NoDigits(s)
    ensures StripNonDigits(s) == ""
  {
    if s != [] {
      StripNoDigits(s[1..]);
    }
  }

  /** A barcode without digits becomes "" and the row is still accepted,
      since only nil is missing. */
  lemma NoDigitBarcodePasses(row: Row, index: map<string, ResourceRef>)
    requires ParsedKey(row.resource).Some? && ParsedKey(row.resource).value in index
    requires row.box.Some? && row.barcode == Some("N/A")
    ensures Classify(row, index).Accept?
    ensures Classify(row, index).data.barcode == Some("")
  {
    assert NoDigits("N/A");
    StripNoDigits("N/A");
  }

  /** A row without a resource cell is never found. */
  lemma NilResourceNotFound(row: Row, index: map<string, ResourceRef>)
    requires row.resource.None?
    ensures Classify(row, index) == Skip(ResourceNotFound)
  {
  }
}
