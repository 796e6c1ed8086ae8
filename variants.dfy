/**
 * PDF values: indirect references, the tagged variant that holds every PDF
 * primitive, object dictionaries, and the textual renderings the writer
 * passes to dictionaries as raw PDF source (a decimal count, an indirect
 * reference "n g R").
 */
module Variants {

  import opened Wrappers

  /** An indirect reference: object number and generation number. */
  datatype Reference = Reference(num: nat, gen: nat)

  /**
   * The tagged variant. A payload always comes with its own tag, so a
   * stale tag beside a new payload cannot be written down. RawData is a
   * value the caller hands over as PDF source text (AddKey with a C string).
   */
  datatype Variant =
    | Null
    | Bool(b: bool)
    | Number(n: int)
    | Str(s: string)
    | Name(name: string)
    | Arr(items: seq<Variant>)
    | Ref(target: Reference)
    | RawData(text: string)

  /**
   * The dictionary keys (PDF names) this writer reads or writes: /Type,
   * the page-tree keys, the catalog's /Pages and the Info entries.
   */
  datatype Key =
    | Type | Kids | Count | Parent | Pages
    | Producer | CreationDate | Author | Creator | Keywords | Subject | Title

  /** The key-to-value payload of an indirect object. */
  type Dict = map<Key, Variant>

  predicate IsDigit(c: char) {
    '0' <= c <= '9'
  }

  predicate AllDigits(s: string) {
    forall i :: 0 <= i < |s| ==> IsDigit(s[i])
  }

  function DigitChar(d: nat): (c: char)
    requires d < 10
    ensures IsDigit(c)
  {
    (('0' as int) + d) as char
  }

  function DigitValue(c: char): (d: nat)
    requires IsDigit(c)
    ensures d < 10 && DigitChar(d) == c
  {
    (c as int) - ('0' as int)
  }

  /** The decimal rendering of n, as `ostream << n` writes it. */
  function Decimal(n: nat): (s: string)
    ensures |s| > 0 && AllDigits(s)
    ensures |s| > 1 ==> s[0] != '0'
  {
    if n < 10 then [DigitChar(n)] else Decimal(n / 10) + [DigitChar(n % 10)]
  }

  /** Reads a string of decimal digits back as a number. */
  function ParseDecimal(s: string): nat
    requires AllDigits(s)
  {
    if s == [] then 0 else 10 * ParseDecimal(s[..|s| - 1]) + DigitValue(s[|s| - 1])
  }

  /** Reading a rendered decimal back gives the number that was rendered. */
  lemma {:induction false} DecimalRoundTrip(n: nat)
    ensures ParseDecimal(Decimal(n)) == n
  {
    var s := Decimal(n);
    if n < 10 {
      assert s[..|s| - 1] == [];
    } else {
      assert s[..|s| - 1] == Decimal(n / 10);
      DecimalRoundTrip(n / 10);
    }
  }

  /** Two numbers with the same decimal rendering are equal. */
  lemma DecimalInjective(a: nat, b: nat)
    requires Decimal(a) == Decimal(b)
    ensures a == b
  {
    DecimalRoundTrip(a);
    DecimalRoundTrip(b);
  }

  /** The textual form of an indirect reference, "num gen R". */
  function RefText(r: Reference): string {
    Decimal(r.num) + " " + Decimal(r.gen) + " R"
  }

  /** The length of the run of digits that starts s. */
  function LeadingDigits(s: string): (k: nat)
    ensures k <= |s| && AllDigits(s[..k])
    ensures k < |s| ==> !IsDigit(s[k])
  {
    if s == [] || !IsDigit(s[0]) then 0 else 1 + LeadingDigits(s[1..])
  }

  /** Parses the textual form "num gen R" of an indirect reference. */
  function ParseRef(s: string): Option<Reference> {
    var k := LeadingDigits(s);
    if k == 0 || k == |s| || s[k] != ' ' then None
    else
      var rest := s[k + 1..];
      var m := LeadingDigits(rest);
      if m == 0 || rest[m..] != " R" then None
      else Some(Reference(ParseDecimal(s[..k]), ParseDecimal(rest[..m])))
  }

  lemma {:induction false} LeadingDigitsOfDigits(a: string, b: string)
    requires AllDigits(a)
    requires b == [] || !IsDigit(b[0])
    ensures LeadingDigits(a + b) == |a|
    decreases |a|
  {
    if a != [] {
      assert (a + b)[1..] == a[1..] + b;
      LeadingDigitsOfDigits(a[1..], b);
    }
  }

  /** Two non-empty digit strings joined as "a b R" parse as the reference they spell. */
  lemma ParseRefParts(a: string, b: string)
    requires |a| > 0 && AllDigits(a) && |b| > 0 && AllDigits(b)
    ensures ParseRef(a + " " + b + " R") == Some(Reference(ParseDecimal(a), ParseDecimal(b)))
  {
    var s := a + " " + b + " R";
    assert s == a + (" " + b + " R");
    LeadingDigitsOfDigits(a, " " + b + " R");
    var k := |a|;
    assert s[k] == ' ' && s[..k] == a;
    var rest := s[k + 1..];
    assert rest == b + " R";
    LeadingDigitsOfDigits(b, " R");
    assert rest[|b|..] == " R" && rest[..|b|] == b;
  }

  /** The text stored for a reference reads back as that same reference. */
  lemma RefTextRoundTrip(r: Reference)
    ensures ParseRef(RefText(r)) == Some(r)
  {
    ParseRefParts(Decimal(r.num), Decimal(r.gen));
    DecimalRoundTrip(r.num);
    DecimalRoundTrip(r.gen);
  }
}
