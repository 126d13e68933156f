/**
  Spreadsheet cell values as the workbook reader yields them (one value per
  cell, formulas already evaluated), and the handful of Python built-ins the
  generator applies to them: truthiness, `str(...)`, `.lower()`, substring
  search, and dictionary-key equality.
 */
module Cells {

  /** One cell value. `Absent` is Python's `None` (an empty cell). */
  datatype Cell =
    | Absent
    | Text(s: string)
    | Int(i: int)
      /** A float and the text Python's `str()` prints for it. */
    | Float(r: real, repr: string)
    | Bool(b: bool)
    | DateTime(year: nat, month: nat, day: nat, hour: nat, minute: nat, second: nat)

  type Row = seq<Cell>

  /** Python truthiness: None, "", 0, 0.0 and False are falsy; every date is truthy. */
  predicate Truthy(c: Cell) {
    match c
    case Absent => false
    case Text(s) => s != ""
    case Int(i) => i != 0
    case Float(r, _) => r != 0.0
    case Bool(b) => b
    case DateTime(_, _, _, _, _, _) => true
  }

  /** `isinstance(c, (int, float))`; `bool` is a subclass of `int` in Python. */
  predicate IsNumber(c: Cell) {
    c.Int? || c.Float? || c.Bool?
  }

  /** The numeric value of an int, float or bool cell (True is 1). */
  function NumericValue(c: Cell): real
    requires IsNumber(c)
  {
    match c
    case Int(i) => i as real
    case Float(r, _) => r
    case Bool(b) => if b then 1.0 else 0.0
  }

  /**
    What a cell is as a dictionary key. Python's dict identifies keys that
    compare equal, so 1, 1.0 and True are one key.
   */
  datatype Key =
    | NoneKey
    | StrKey(s: string)
    | NumKey(n: real)
    | DateKey(year: nat, month: nat, day: nat, hour: nat, minute: nat, second: nat)

  function KeyOf(c: Cell): (k: Key)
    ensures c.Text? <==> k.StrKey?
    ensures IsNumber(c) <==> k.NumKey?
    ensures IsNumber(c) ==> k.n == NumericValue(c)
  {
    match c
    case Absent => NoneKey
    case Text(s) => StrKey(s)
    case Int(i) => NumKey(i as real)
    case Float(r, _) => NumKey(r)
    case Bool(b) => NumKey(if b then 1.0 else 0.0)
    case DateTime(y, mo, d, h, mi, s) => DateKey(y, mo, d, h, mi, s)
  }

  // ---------------------------------------------------------------------
  // Decimal rendering of naturals (`str(n)` / f-string `{n}`)
  // ---------------------------------------------------------------------

  predicate IsDigit(c: char) {
    '0' as int <= c as int <= '9' as int
  }

  function DigitChar(d: nat): (c: char)
    requires d < 10
    ensures IsDigit(c)
  {
    ('0' as int + d) as char
  }

  function NatToString(n: nat): (s: string)
    ensures |s| > 0
    ensures forall i :: 0 <= i < |s| ==> IsDigit(s[i])
  {
    if n < 10 then [DigitChar(n)] else NatToString(n / 10) + [DigitChar(n % 10)]
  }

  /** The value of a string of decimal digits: the inverse of NatToString. */
  function DigitsValue(s: string): nat
    requires forall i :: 0 <= i < |s| ==> IsDigit(s[i])
  {
    if s == [] then 0
    else DigitsValue(s[..|s| - 1]) * 10 + DigitValue(s[|s| - 1])
  }

  function DigitValue(c: char): (d: nat)
    requires IsDigit(c)
    ensures d < 10
  {
    c as int - '0' as int
  }

  lemma {:induction false} NatToStringRoundTrip(n: nat)
    ensures DigitsValue(NatToString(n)) == n
  {
    var s := NatToString(n);
    if n >= 10 {
      assert s[..|s| - 1] == NatToString(n / 10);
      NatToStringRoundTrip(n / 10);
    }
  }

  /** Distinct numbers print differently. */
  lemma NatToStringInjective(a: nat, b: nat)
    ensures NatToString(a) == NatToString(b) ==> a == b
  {
    NatToStringRoundTrip(a);
    NatToStringRoundTrip(b);
  }

  /** `str(i)` of a Python int. */
  function IntToString(i: int): string {
    if i < 0 then "-" + NatToString(-i) else NatToString(i)
  }

  /** `"%0{width}d" % n`: left-pads with zeros up to `width` digits. */
  function ZeroPad(n: nat, width: nat): (s: string)
    ensures |s| == if |NatToString(n)| >= width then |NatToString(n)| else width
    ensures forall i :: 0 <= i < |s| ==> IsDigit(s[i])
  {
    var digits := NatToString(n);
    if |digits| >= width then digits else seq(width - |digits|, _ => '0') + digits
  }

  /** Leading zeros do not change the value of a digit string. */
  lemma {:induction false} ZeroPadValue(n: nat, width: nat)
    ensures DigitsValue(ZeroPad(n, width)) == n
  {
    var digits := NatToString(n);
    NatToStringRoundTrip(n);
    if |digits| < width {
      LeadingZerosValue(width - |digits|, digits);
    }
  }

  lemma {:induction false} LeadingZerosValue(k: nat, digits: string)
    requires forall i :: 0 <= i < |digits| ==> IsDigit(digits[i])
    ensures DigitsValue(seq(k, _ => '0') + digits) == DigitsValue(digits)
  {
    var s := seq(k, _ => '0') + digits;
    if digits == [] {
      assert s == seq(k, _ => '0');
      ZerosValue(k);
    } else {
      var init := digits[..|digits| - 1];
      assert s[..|s| - 1] == seq(k, _ => '0') + init;
      LeadingZerosValue(k, init);
    }
  }

  lemma {:induction false} ZerosValue(k: nat)
    ensures DigitsValue(seq(k, _ => '0')) == 0
  {
    if k > 0 {
      var s := seq(k, _ => '0');
      assert s[..k - 1] == seq(k - 1, _ => '0');
      ZerosValue(k - 1);
    }
  }

  /** The synthetic label `f'Column_{j}'` given to a blank header at 0-based position j. */
  function ColumnName(j: nat): string {
    "Column_" + NatToString(j)
  }

  lemma ColumnNameInjective(i: nat, j: nat)
    ensures ColumnName(i) == ColumnName(j) ==> i == j
  {
    if ColumnName(i) == ColumnName(j) {
      assert NatToString(i) == ColumnName(i)[7..];
      assert NatToString(j) == ColumnName(j)[7..];
      NatToStringInjective(i, j);
    }
  }

  // ---------------------------------------------------------------------
  // str(), .lower(), substring search
  // ---------------------------------------------------------------------

  /** `str(c)`; a float's text is taken as given. */
  function Show(c: Cell): string {
    match c
    case Absent => "None"
    case Text(s) => s
    case Int(i) => IntToString(i)
    case Float(_, repr) => repr
    case Bool(b) => if b then "True" else "False"
    case DateTime(y, mo, d, h, mi, s) =>
      ZeroPad(y, 4) + "-" + ZeroPad(mo, 2) + "-" + ZeroPad(d, 2) + " "
      + ZeroPad(h, 2) + ":" + ZeroPad(mi, 2) + ":" + ZeroPad(s, 2)
  }

  /** Lower-casing of Latin A-Z and of Cyrillic capitals U+0400..U+042F (Ё included); other characters are kept. */
  function LowerChar(c: char): char {
    if 'A' <= c <= 'Z' then (c as int + 32) as char
    else if 'А' <= c <= 'Я' then (c as int + 32) as char
    else if 'Ѐ' <= c <= 'Џ' then (c as int + 80) as char
    else c
  }

  function Lower(s: string): (r: string)
    ensures |r| == |s|
  {
    seq(|s|, i requires 0 <= i < |s| => LowerChar(s[i]))
  }

  /** Python's `k in s` for strings: k occurs as a contiguous substring of s. */
  predicate Contains(s: string, k: string)
    decreases |s|
  {
    |k| <= |s| && (s[..|k|] == k || Contains(s[1..], k))
  }

  /** k occurs in s starting at position i. */
  predicate OccursAt(s: string, k: string, i: nat) {
    i + |k| <= |s| && s[i..i + |k|] == k
  }

  /** Contains agrees with the positional definition of a substring occurrence. */
  lemma {:induction false} ContainsIff(s: string, k: string)
    ensures Contains(s, k) <==> exists i: nat :: OccursAt(s, k, i)
    decreases |s|
  {
    if |k| <= |s| {
      if s[..|k|] == k {
        assert OccursAt(s, k, 0);
      } else {
        ContainsIff(s[1..], k);
        if Contains(s[1..], k) {
          var i: nat :| OccursAt(s[1..], k, i);
          assert s[i + 1..i + 1 + |k|] == s[1..][i..i + |k|];
          assert OccursAt(s, k, i + 1);
        }
        if exists i: nat :: OccursAt(s, k, i) {
          var i: nat :| OccursAt(s, k, i);
          assert i != 0;
          assert s[1..][i - 1..i - 1 + |k|] == s[i..i + |k|];
          assert OccursAt(s[1..], k, i - 1);
        }
      }
    } else {
      forall i: nat ensures !OccursAt(s, k, i) { }
    }
  }
}
