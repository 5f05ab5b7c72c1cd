/** The status file: the one line by which the guest tells the host how the build ended
    (cmd/ossein-kernel/init writes it, cmd/ossein-kernel reads it). */
module Status {
  import opened Wrappers
  import opened Text

  const INIT_FAILED := 254
  const INT_MIN := -0x8000_0000_0000_0000
  const INT_MAX := 0x7fff_ffff_ffff_ffff

  /** main: an error never goes with a zero status. */
  function FinalCode(code: int, failed: bool): int {
    if failed && code == 0 then INIT_FAILED else code
  }

  /** Zero is reported exactly for a build that ended with zero and no error; an error that comes with
      zero is reported as 254. */
  lemma {:induction false} FinalCodeIs(code: int, failed: bool)
    ensures FinalCode(code, failed) == 0 <==> code == 0 && !failed
    ensures FinalCode(0, true) == 254 && (code != 0 ==> FinalCode(code, failed) == code)
  {
  }

  /* ----- decimal numbers ----- */

  function Digit(d: nat): char
    requires d < 10
  {
    d as char + '0'
  }

  predicate IsDigit(c: char) {
    '0' <= c <= '9'
  }

  predicate AllDigits(s: string) {
    forall i :: 0 <= i < |s| ==> IsDigit(s[i])
  }

  function Decimal(n: nat): string {
    (if n < 10 then "" else Decimal(n / 10)) + [Digit(n % 10)]
  }

  /** strconv.Itoa. */
  function Itoa(i: int): string {
    if i < 0 then "-" + Decimal(-i) else Decimal(i)
  }

  function Value(s: string): nat
    requires AllDigits(s)
  {
    if s == "" then 0 else 10 * Value(s[..|s| - 1]) + (s[|s| - 1] - '0') as nat
  }

  predicate Signed(s: string) {
    s != "" && (s[0] == '-' || s[0] == '+')
  }

  /** strconv.Atoi. */
  function Atoi(s: string): Option<int> {
    var digits := if Signed(s) then s[1..] else s;
    if digits == "" || !AllDigits(digits) then None
    else
      var n: int := Value(digits);
      var v := if s[0] == '-' then -n else n;
      if INT_MIN <= v <= INT_MAX then Some(v) else None
  }

  /* ----- the file ----- */

  /** What writeStatus puts in the file when it gets to the end. */
  function Record(code: int): string {
    Itoa(code) + "\n"
  }

  datatype Reading = Missing | Empty | Malformed | Code(code: int)

  function ReadStatus(file: Option<string>): Reading {
    match file
    case None => Missing
    case Some(data) =>
      var trimmed := TrimSpace(data);
      if trimmed == "" then Empty
      else match Atoi(trimmed)
        case None => Malformed
        case Some(code) => Code(code)
  }

  /* ----- lemmas ----- */

  lemma {:induction false} DecimalDigits(n: nat)
    ensures Decimal(n) != "" && AllDigits(Decimal(n)) && Value(Decimal(n)) == n
  {
    var front := if n < 10 then "" else Decimal(n / 10);
    if n >= 10 { DecimalDigits(n / 10); }
    assert Decimal(n)[..|Decimal(n)| - 1] == front;
  }

  function Pow10(k: nat): (r: nat)
    ensures r > 0
  {
    if k == 0 then 1 else 10 * Pow10(k - 1)
  }

  lemma {:induction false} DivDiv(n: nat, m: nat)
    requires m > 0
    ensures n / 10 / m == n / (10 * m)
  {
    var q, r := n / (10 * m), n % (10 * m);
    assert n == q * (10 * m) + r;
    assert r / 10 < m;
    assert n / 10 == q * m + r / 10;
    DivUnique(n / 10, m, q, r / 10);
  }

  lemma {:induction false} DivUnique(a: nat, m: nat, q: nat, r: nat)
    requires m > 0 && r < m && a == q * m + r
    ensures a / m == q
  {
    var d := a / m - q;
    assert a == (a / m) * m + a % m;
    assert d * m == r - a % m;
    assert d >= 1 ==> d * m >= m;
    assert d <= -1 ==> d * m <= 0 - m;
  }

  lemma {:induction false} DecimalEnds(n: nat)
    requires n >= 10
    ensures Decimal(n) == Decimal(n / 10) + [Digit(n % 10)]
  {
  }

  lemma {:induction false} CutOneMore(s: string, front: string, c: char, k: nat)
    requires s == front + [c] && 0 < k < |s|
    ensures k - 1 < |front| && s[..|s| - k] == front[..|front| - (k - 1)]
  {
  }

  lemma {:induction false} ManyDigits(n: nat)
    requires |Decimal(n)| > 1
    ensures n >= 10
  {
  }

  /** Cutting the last k digits off a number divides it, and leaves no zero behind. */
  lemma {:induction false} DecimalPrefix(n: nat, k: nat)
    requires k < |Decimal(n)|
    ensures AllDigits(Decimal(n)[..|Decimal(n)| - k])
    ensures Value(Decimal(n)[..|Decimal(n)| - k]) == n / Pow10(k)
    ensures n > 0 ==> n / Pow10(k) > 0
  {
    if k == 0 {
      DecimalDigits(n);
      assert Decimal(n)[..|Decimal(n)| - k] == Decimal(n);
    } else {
      ManyDigits(n);
      DecimalEnds(n);
      CutOneMore(Decimal(n), Decimal(n / 10), Digit(n % 10), k);
      DecimalPrefix(n / 10, k - 1);
      DivDiv(n, Pow10(k - 1));
    }
  }

  lemma {:induction false} NothingToTrim(s: string)
    requires s != "" && !IsSpace(s[0]) && !IsSpace(s[|s| - 1])
    ensures TrimSpace(s) == s && TrimSpace(s + "\n") == s
  {
    var t := s + "\n";
    assert TrimLeftSpace(t) == t && t[..|t| - 1] == s;
    assert TrimRightSpace(t) == TrimRightSpace(s);
  }

  lemma {:induction false} DigitAt(n: nat, i: nat)
    requires i < |Decimal(n)|
    ensures IsDigit(Decimal(n)[i])
  {
    DecimalDigits(n);
  }

  lemma {:induction false} ItoaChars(code: int, i: nat)
    requires i < |Itoa(code)|
    ensures IsDigit(Itoa(code)[i]) || Itoa(code)[i] == '-'
  {
    if code >= 0 {
      DigitAt(code, i);
    } else if i > 0 {
      DigitAt(-code, i - 1);
    }
  }

  lemma {:induction false} PrefixNotSpace(code: int, p: string)
    requires p != "" && p <= Itoa(code)
    ensures !IsSpace(p[0]) && !IsSpace(p[|p| - 1])
  {
    ItoaChars(code, 0);
    ItoaChars(code, |p| - 1);
    assert p[0] == Itoa(code)[0] && p[|p| - 1] == Itoa(code)[|p| - 1];
  }

  /** Go's division, which truncates toward zero. */
  function Quot(a: int, m: nat): int
    requires m > 0
  {
    if a < 0 then -(-a / m) else a / m
  }

  /** The number read from the first digits of a number. */
  lemma {:induction false} AtoiPrefix(code: int, k: nat, p: string)
    requires INT_MIN <= code <= INT_MAX && k < |Itoa(code)| && p == Itoa(code)[..|Itoa(code)| - k]
    ensures Atoi(p) == if p == "-" then None else Some(Quot(code, Pow10(k)))
    ensures p != "-" && code != 0 ==> Quot(code, Pow10(k)) != 0
  {
    ItoaCut(code, k);
    if code < 0 && k == |Itoa(code)| - 1 {
      MinusAlone();
    } else {
      AtoiCut(code, if code < 0 then -code else code, k, p);
    }
  }

  lemma {:induction false} MinusAlone()
    ensures Atoi("-") == None && "-" + "" == "-"
  {
  }

  lemma {:induction false} AtoiCut(code: int, n: nat, k: nat, p: string)
    requires INT_MIN <= code <= INT_MAX && n == (if code < 0 then -code else code) && k < |Decimal(n)|
    requires p == (if code < 0 then "-" else "") + Decimal(n)[..|Decimal(n)| - k]
    ensures Atoi(p) == Some(Quot(code, Pow10(k)))
    ensures code != 0 ==> Quot(code, Pow10(k)) != 0
  {
    var digits := Decimal(n)[..|Decimal(n)| - k];
    DecimalPrefix(n, k);
    QuotIs(code, Pow10(k));
    AtoiSigned(code < 0, digits);
  }

  lemma {:induction false} QuotIs(code: int, m: nat)
    requires m > 0
    ensures var n: nat := if code < 0 then -code else code;
            var q: int := n / m;
            Quot(code, m) == (if code < 0 then -q else q) && q <= n
  {
    QuotShrinks(if code < 0 then -code else code, m);
  }

  /** The sign stands in front of the digits; cutting comes to it last. */
  lemma {:induction false} ItoaCut(code: int, k: nat)
    requires k < |Itoa(code)|
    ensures var n: nat := if code < 0 then -code else code;
            Itoa(code)[..|Itoa(code)| - k]
            == (if code < 0 then "-" else "") + (if k < |Decimal(n)| then Decimal(n)[..|Decimal(n)| - k] else "")
    ensures code >= 0 ==> k < |Decimal(code)|
    ensures Itoa(code)[..|Itoa(code)| - k] == "-" <==> k == |Itoa(code)| - 1 && code < 0
  {
    DecimalFirst(if code < 0 then -code else code);
  }

  lemma {:induction false} DecimalFirst(n: nat)
    ensures Decimal(n) != "" && Decimal(n)[0] != '-'
  {
    DecimalDigits(n);
    assert IsDigit(Decimal(n)[0]);
  }

  lemma {:induction false} AtoiSigned(negative: bool, digits: string)
    requires digits != "" && AllDigits(digits)
    ensures var v: int := Value(digits);
            var i := if negative then -v else v;
            Atoi((if negative then "-" else "") + digits) == if INT_MIN <= i <= INT_MAX then Some(i) else None
  {
    if negative {
      AtoiMinus(digits);
    } else {
      AtoiPlain(digits);
      assert "" + digits == digits;
    }
  }

  lemma {:induction false} AtoiMinus(digits: string)
    requires digits != "" && AllDigits(digits)
    ensures var i: int := Value(digits); Atoi("-" + digits) == if INT_MIN <= -i <= INT_MAX then Some(-i) else None
  {
    assert ("-" + digits)[1..] == digits;
  }

  lemma {:induction false} AtoiPlain(digits: string)
    requires digits != "" && AllDigits(digits)
    ensures var i: int := Value(digits); Atoi(digits) == if INT_MIN <= i <= INT_MAX then Some(i) else None
  {
    assert IsDigit(digits[0]);
  }

  lemma {:induction false} QuotShrinks(n: nat, m: nat)
    requires m > 0
    ensures n / m <= n
  {
    AtMost(n / m, m, n % m);
    assert n == (n / m) * m + n % m;
  }

  lemma {:induction false} AtMost(q: nat, m: nat, r: nat)
    requires m > 0
    ensures q <= q * m + r
  {
    if m > 1 { AtMost(q, m - 1, r); }
  }

  /** readStatus recovers every code that writeStatus prints. */
  lemma {:induction false} StatusRoundTrip(code: int)
    requires INT_MIN <= code <= INT_MAX
    ensures ReadStatus(Some(Record(code))) == Code(code)
  {
    var s := Itoa(code);
    PrefixNotSpace(code, s);
    NothingToTrim(s);
    AtoiOfItoa(code);
  }

  lemma {:induction false} AtoiOfItoa(code: int)
    requires INT_MIN <= code <= INT_MAX
    ensures Atoi(Itoa(code)) == Some(code)
  {
    var n: nat := if code < 0 then -code else code;
    DecimalDigits(n);
    AtoiSigned(code < 0, Decimal(n));
    assert "" + Decimal(n) == Decimal(n);
  }

  /** A write torn anywhere: read as nothing, as a lone sign, or as the code without its last
      digits. */
  lemma {:induction false} TornReads(code: int, p: string)
    requires INT_MIN <= code <= INT_MAX && p <= Record(code)
    ensures var k := |Itoa(code)| - |p|;
            ReadStatus(Some(p)) ==
              if p == "" then Empty else if p == "-" then Malformed
              else if k < 0 then Code(code) else Code(Quot(code, Pow10(k)))
  {
    var s := Itoa(code);
    if |p| == |s| + 1 {
      assert p == Record(code);
      StatusRoundTrip(code);
    } else if p != "" {
      assert p == s[..|s| - (|s| - |p|)];
      PrefixNotSpace(code, p);
      NothingToTrim(p);
      AtoiPrefix(code, |s| - |p|, p);
    }
  }

  /** A torn write never turns failure into success: what reads as 0 was the record of 0. */
  lemma {:induction false} TornNeverSucceeds(code: int, p: string)
    requires INT_MIN <= code <= INT_MAX && p <= Record(code)
    requires ReadStatus(Some(p)) == Code(0)
    ensures code == 0
  {
    TornReads(code, p);
    var k := |Itoa(code)| - |p|;
    if k >= 0 && p != "" {
      assert p == Itoa(code)[..|Itoa(code)| - k];
      AtoiPrefix(code, k, p);
    }
  }

  /** ... but it can turn one failure into another: 12 becomes 1. */
  lemma {:induction false} TornChangesTheCode()
    ensures exists p :: p < Record(12) && ReadStatus(Some(p)) == Code(1)
  {
    var p := "1";
    assert Decimal(1) == "1" && Decimal(12) == "12";
    assert Itoa(12) == "12" && Record(12) == "12\n";
    TornReads(12, p);
    assert Pow10(1) == 10 && |Itoa(12)| - |p| == 1;
    assert p < Record(12);
  }
}
