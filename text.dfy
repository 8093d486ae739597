/** The text operations behind `parse_cik`: Python's `str()` of a cell,
    pandas' `Series.str.pad(width, fillchar=...)` (left padding), and the
    `"CIK" + ...` prefix. */
module PyText {
  import opened Json

  predicate IsDigit(c: char) {
    '0' <= c <= '9'
  }

  predicate AllDigits(s: string) {
    forall i :: 0 <= i < |s| ==> IsDigit(s[i])
  }

  function DigitChar(d: nat): (c: char)
    requires d < 10
    ensures IsDigit(c) && c as int - '0' as int == d
  {
    ('0' as int + d) as char
  }

  /** The decimal digits of `n`, without leading zeros. */
  function NatText(n: nat): (s: string)
    ensures |s| > 0 && AllDigits(s)
  {
    if n < 10 then [DigitChar(n)] else NatText(n / 10) + [DigitChar(n % 10)]
  }

  /** The value of a string of decimal digits (most significant first). */
  function DigitsValue(s: string): nat
    requires AllDigits(s)
  {
    if s == [] then 0 else DigitsValue(s[..|s| - 1]) * 10 + (s[|s| - 1] as int - '0' as int)
  }

  function Pow10(k: nat): (p: nat)
    ensures p >= 1
  {
    if k == 0 then 1 else 10 * Pow10(k - 1)
  }

  /** Reading the decimal text back gives the number. */
  lemma {:induction false} NatTextValue(n: nat)
    ensures DigitsValue(NatText(n)) == n
  {
    if n >= 10 {
      NatTextValue(n / 10);
      var s := NatText(n);
      assert s[..|s| - 1] == NatText(n / 10);
    }
  }

  /** The decimal text of `n` has at most `k` digits exactly when n < 10^k. */
  lemma {:induction false} NatTextLength(n: nat, k: nat)
    requires k >= 1
    ensures |NatText(n)| <= k <==> n < Pow10(k)
  {
    assert Pow10(k) == 10 * Pow10(k - 1);
    if n >= 10 {
      if k >= 2 {
        NatTextLength(n / 10, k - 1);
      } else {
        assert |NatText(n)| >= 2;
      }
    } else {
      assert |NatText(n)| == 1;
    }
  }

  function Repeat(c: char, k: nat): (s: string)
    ensures |s| == k && forall i :: 0 <= i < k ==> s[i] == c
  {
    if k == 0 then [] else [c] + Repeat(c, k - 1)
  }

  /** Leading zeros do not change the value of a digit string. */
  lemma {:induction false} LeadingZeros(k: nat, s: string)
    requires AllDigits(s)
    ensures AllDigits(Repeat('0', k) + s)
    ensures DigitsValue(Repeat('0', k) + s) == DigitsValue(s)
  {
    var t := Repeat('0', k) + s;
    if s == [] {
      assert t == Repeat('0', k);
      if k > 0 {
        assert t[..|t| - 1] == Repeat('0', k - 1) + [];
        LeadingZeros(k - 1, []);
      }
    } else {
      assert t[..|t| - 1] == Repeat('0', k) + s[..|s| - 1];
      LeadingZeros(k, s[..|s| - 1]);
    }
  }

  /** `str.rjust(width, fill)`, which pandas' `str.pad` with its default
      left side applies: the text is kept whole and, when shorter than
      `width`, preceded by enough copies of `fill` to reach it. */
  function PadLeft(s: string, width: nat, fill: char): (r: string)
    ensures |r| == if |s| >= width then |s| else width
    ensures r[|r| - |s|..] == s
    ensures forall i :: 0 <= i < |r| - |s| ==> r[i] == fill
  {
    if |s| >= width then s else Repeat(fill, width - |s|) + s
  }

  /** Python's `str()` of an int: a minus sign, then the digits. */
  function IntText(n: int): string {
    if n < 0 then "-" + NatText(-n) else NatText(n)
  }

  /** `", ".join(parts)` */
  function Join(parts: seq<string>): string {
    if parts == [] then "" else if |parts| == 1 then parts[0] else parts[0] + ", " + Join(parts[1..])
  }

  /** Python's `repr()` of a parsed JSON value, as used for the elements of
      a list or dict. Strings are quoted with `'`; escaping is not modelled. */
  function Repr(v: JValue): string
    decreases v, 1
  {
    match v
    case JNull => "None"
    case JBool(b) => if b then "True" else "False"
    case JNum(n) => IntText(n)
    case JStr(s) => "'" + s + "'"
    case JArr(xs) => "[" + Join(ReprItems(xs)) + "]"
    case JObj(fields) => "{" + Join(ReprEntries(fields)) + "}"
  }

  function ReprItems(xs: seq<JValue>): (r: seq<string>)
    decreases xs, 0
  {
    if xs == [] then [] else [Repr(xs[0])] + ReprItems(xs[1..])
  }

  function ReprEntries(fields: seq<Entry>): seq<string>
    decreases fields, 0
  {
    if fields == [] then []
    else
      assert fields[0].1 < fields[0];
      ["'" + fields[0].0 + "': " + Repr(fields[0].1)] + ReprEntries(fields[1..])
  }

  /** The text of a positive number does not start with a zero. */
  lemma {:induction false} NatTextNoLeadingZero(n: nat)
    requires n >= 1
    ensures NatText(n)[0] != '0'
  {
    if n >= 10 {
      NatTextNoLeadingZero(n / 10);
      assert NatText(n)[0] == NatText(n / 10)[0];
    }
  }

  /** `str(x)` of one cell of a pandas column: NaN prints as "nan", a string
      is itself, everything else prints as its `repr()`. */
  function CellText(cell: Option<JValue>): string {
    match cell
    case None => "nan"
    case Some(JStr(s)) => s
    case Some(v) => Repr(v)
  }

  /** What each kind of cell prints as: a missing cell as "nan", a string
      as itself, a non-negative integer as its decimal digits with no
      leading zero, a negative one as a minus sign followed by the digits of
      its magnitude, null and booleans as Python's names for them. */
  lemma CellTextSpec(cell: Option<JValue>)
    ensures cell.None? ==> CellText(cell) == "nan"
    ensures cell.Some? && cell.value.JStr? ==> CellText(cell) == cell.value.s
    ensures cell == Some(JNull) ==> CellText(cell) == "None"
    ensures cell.Some? && cell.value.JBool? ==> CellText(cell) == if cell.value.b then "True" else "False"
    ensures cell.Some? && cell.value.JNum? && cell.value.n >= 0 ==>
              var t := CellText(cell);
              && |t| > 0 && AllDigits(t) && DigitsValue(t) == cell.value.n
              && (cell.value.n > 0 ==> t[0] != '0')
    ensures cell.Some? && cell.value.JNum? && cell.value.n < 0 ==>
              var t := CellText(cell);
              && |t| > 1 && t[0] == '-' && AllDigits(t[1..]) && DigitsValue(t[1..]) == -cell.value.n
              && t[1] != '0'
  {
    if cell.Some? && cell.value.JNum? {
      IntTextSpec(cell.value.n);
    }
  }

  /** `str()` of an int: the digits of its magnitude, without leading zero,
      after a minus sign when it is negative. */
  lemma IntTextSpec(n: int)
    ensures n >= 0 ==> var t := IntText(n);
              && |t| > 0 && AllDigits(t) && DigitsValue(t) == n && (n > 0 ==> t[0] != '0')
    ensures n < 0 ==> var t := IntText(n);
              && |t| > 1 && t[0] == '-' && AllDigits(t[1..]) && DigitsValue(t[1..]) == -n && t[1] != '0'
  {
    if n > 0 {
      NatTextValue(n);
      NatTextNoLeadingZero(n);
    } else if n == 0 {
      NatTextValue(n);
    } else {
      NatTextValue(-n);
      NatTextNoLeadingZero(-n);
      assert IntText(n)[1..] == NatText(-n);
    }
  }

  /** Line 33 of the ticker operation, applied to one cell:
      `"CIK" + str(cell).rjust(10, '0')`. The identifier is "CIK", then as
      many '0's as bring the cell's text to ten characters (none when it is
      already that long), then the text itself. */
  function CikText(cell: Option<JValue>): (r: string)
    ensures var text := CellText(cell);
            && |r| == 3 + (if |text| >= 10 then |text| else 10)
            && r[..3] == "CIK"
            && r[|r| - |text|..] == text
            && forall i :: 3 <= i < |r| - |text| ==> r[i] == '0'
  {
    var padded := PadLeft(CellText(cell), 10, '0');
    assert forall i :: 3 <= i < 3 + |padded| ==> ("CIK" + padded)[i] == padded[i - 3];
    "CIK" + padded
  }

  /** The number a `CIK##########` identifier encodes, if it is one. */
  function ParseCik(text: string): Option<nat> {
    if |text| > 3 && text[..3] == "CIK" && AllDigits(text[3..]) then Some(DigitsValue(text[3..])) else None
  }

  /** A non-negative integer CIK comes out as "CIK" followed by at least ten
      digits, exactly ten when it is below 10^10, and the identifier reads
      back as the number it was made from. */
  lemma {:induction false} CikOfNumber(n: nat)
    ensures var t := CikText(Some(JNum(n)));
            && |t| >= 13 && t[..3] == "CIK" && AllDigits(t[3..])
            && (|t| == 13 <==> n < Pow10(10))
            && ParseCik(t) == Some(n)
  {
    var digits := NatText(n);
    assert CellText(Some(JNum(n))) == digits;
    var padded := PadLeft(digits, 10, '0');
    var t := CikText(Some(JNum(n)));
    assert t[3..] == padded;
    NatTextLength(n, 10);
    NatTextValue(n);
    if |digits| < 10 {
      assert padded == Repeat('0', 10 - |digits|) + digits;
      LeadingZeros(10 - |digits|, digits);
    }
  }

  /** Apple's CIK, 320193, becomes CIK0000320193. */
  lemma CikExample()
    ensures CikText(Some(JNum(320193))) == "CIK0000320193"
  {
    AppleDigits();
    assert CellText(Some(JNum(320193))) == "320193";
    assert Repeat('0', 4) == "0000";
    assert PadLeft("320193", 10, '0') == "0000" + "320193";
  }

  lemma AppleDigits()
    ensures NatText(320193) == "320193"
  {
    assert NatText(3) == "3";
    assert NatText(32) == "32";
    assert NatText(320) == "320";
    assert NatText(3201) == "3201";
    assert NatText(32019) == "32019";
  }

  /** A missing cell is rendered from Python's "nan", not rejected. */
  lemma CikOfMissing()
    ensures CikText(None) == "CIK0000000nan"
  {
    assert CellText(None) == "nan";
    assert Repeat('0', 7) == "0000000";
    assert PadLeft("nan", 10, '0') == "0000000" + "nan";
  }
}
