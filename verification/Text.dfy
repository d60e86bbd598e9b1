/** Text forms of numbers and bytes, and the string operations of the two languages involved. */
module Text {
  import opened Wrappers

  // ---- trimming

  /** The ASCII characters Python's `str.strip` removes. */
  predicate IsSpace(c: char) {
    9 <= c as int <= 13 || 28 <= c as int <= 32
  }

  function StripLeft(s: string): (r: string)
    ensures |r| <= |s| && r == s[|s| - |r|..]
    ensures r == [] || !IsSpace(r[0])
  {
    if s != [] && IsSpace(s[0]) then StripLeft(s[1..]) else s
  }

  function StripRight(s: string): (r: string)
    ensures |r| <= |s| && r == s[..|r|]
    ensures r == [] || !IsSpace(r[|r| - 1])
  {
    if s != [] && IsSpace(s[|s| - 1]) then StripRight(s[..|s| - 1]) else s
  }

  function Strip(s: string): (r: string)
    ensures r == [] || (!IsSpace(r[0]) && !IsSpace(r[|r| - 1]))
  {
    StripRight(StripLeft(s))
  }

  lemma {:induction false} LeftTakesBlanks(s: string, k: nat)
    requires k < |s| - |StripLeft(s)|
    ensures IsSpace(s[k])
  {
    if k > 0 {
      LeftTakesBlanks(s[1..], k - 1);
    }
  }

  lemma {:induction false} RightTakesBlanks(s: string, k: nat)
    requires |StripRight(s)| <= k < |s|
    ensures IsSpace(s[k])
  {
    if k < |s| - 1 {
      RightTakesBlanks(s[..|s| - 1], k);
    }
  }

  lemma BlankCodes(c: char)
    ensures IsSpace(c) <==> c as int in {9, 10, 11, 12, 13, 28, 29, 30, 31, 32}
  {
  }

  function StripStart(s: string): (i: nat)
    ensures i <= |s|
  {
    |s| - |StripLeft(s)|
  }

  function StripEnd(s: string): (j: nat)
    ensures StripStart(s) <= j <= |s|
  {
    StripStart(s) + |StripRight(StripLeft(s))|
  }

  /** Stripping keeps one part of the text, character by character ... */
  lemma {:induction false} StripIsPart(s: string, k: nat)
    requires k < |Strip(s)|
    ensures |Strip(s)| == StripEnd(s) - StripStart(s)
    ensures Strip(s)[k] == s[StripStart(s) + k]
  {
    var l := StripLeft(s);
    var r := StripRight(l);
    assert r[k] == l[k];
    assert l[k] == s[|s| - |l|..][k];
  }

  /** ... and what it takes away before and after it is blank. */
  lemma {:induction false} StripTakesBlanks(s: string, k: nat)
    requires k < StripStart(s) || StripEnd(s) <= k < |s|
    ensures IsSpace(s[k])
  {
    var l, i := StripLeft(s), StripStart(s);
    if k < i {
      LeftTakesBlanks(s, k);
    } else {
      RightTakesBlanks(l, k - i);
      assert s[i..][k - i] == s[k];
    }
  }

  lemma StripStable(s: string)
    requires s == [] || (!IsSpace(s[0]) && !IsSpace(s[|s| - 1]))
    ensures Strip(s) == s
  {
  }

  // ---- decimal digits

  predicate IsDigit(c: char) {
    '0' <= c <= '9'
  }

  predicate AllDigits(s: string) {
    forall i :: 0 <= i < |s| ==> IsDigit(s[i])
  }

  function DigitChar(d: nat): char
    requires d < 10
  {
    ('0' as int + d) as char
  }

  function Decimal(n: nat): string {
    if n < 10 then [DigitChar(n)] else Decimal(n / 10) + [DigitChar(n % 10)]
  }

  function ValueOf(s: string): nat
    requires AllDigits(s)
  {
    if s == [] then 0
    else 10 * ValueOf(s[..|s| - 1]) + (s[|s| - 1] as int - '0' as int)
  }

  /** Reading back the printed digits gives the number. */
  lemma {:induction false} DecimalReads(n: nat)
    ensures Decimal(n) != [] && AllDigits(Decimal(n)) && ValueOf(Decimal(n)) == n
  {
    if n >= 10 {
      DecimalReads(n / 10);
      assert Decimal(n)[..|Decimal(n)| - 1] == Decimal(n / 10);
    }
  }

  lemma DecimalInjective(m: nat, n: nat)
    ensures Decimal(m) == Decimal(n) <==> m == n
  {
    DecimalReads(m);
    DecimalReads(n);
  }

  /** `Long.toString` and `BigInteger.toString`. */
  function Signed(i: int): string {
    if i < 0 then "-" + Decimal(-i) else Decimal(i)
  }

  /** The grammar of `Long.parseLong`, before its range check. */
  function ReadSigned(s: string): Option<int> {
    var sign := s != [] && (s[0] == '-' || s[0] == '+');
    var digits := if sign then s[1..] else s;
    if digits == [] || !AllDigits(digits) then None
    else
      var v: int := ValueOf(digits);
      Some(if sign && s[0] == '-' then -v else v)
  }

  lemma SignedReads(i: int)
    ensures ReadSigned(Signed(i)) == Some(i)
  {
    DecimalReads(if i < 0 then -i else i);
    if i < 0 {
      assert Signed(i)[1..] == Decimal(-i);
    } else {
      assert IsDigit(Signed(i)[0]);
    }
  }

  /** A plus sign is read, too; an empty text, a sign alone, or any other character is not. */
  lemma PlusReads(n: nat)
    ensures ReadSigned(['+'] + Decimal(n)) == Some(n)
  {
    DecimalReads(n);
    assert (['+'] + Decimal(n))[1..] == Decimal(n);
  }

  lemma NotANumber(s: string)
    requires s in {"", "-", "+"} || exists i :: 0 <= i < |s| && !IsDigit(s[i]) && (i > 0 || s[0] !in {'-', '+'})
    ensures ReadSigned(s).None?
  {
    if s !in {"", "-", "+"} {
      var i :| 0 <= i < |s| && !IsDigit(s[i]) && (i > 0 || s[0] !in {'-', '+'});
      var digits := if s[0] in {'-', '+'} then s[1..] else s;
      assert !IsDigit(digits[if s[0] in {'-', '+'} then i - 1 else i]);
    }
  }

  // ---- Python's int()

  function WithoutUnderscores(s: string): (r: string) {
    if s == [] then []
    else (if s[0] == '_' then [] else [s[0]]) + WithoutUnderscores(s[1..])
  }

  /** Digits, with single underscores allowed between two of them. */
  predicate IsPyDigits(s: string) {
    && s != []
    && (forall i :: 0 <= i < |s| ==> IsDigit(s[i]) || s[i] == '_')
    && (forall i :: 0 <= i < |s| && s[i] == '_' ==> 0 < i < |s| - 1 && IsDigit(s[i - 1]) && IsDigit(s[i + 1]))
  }

  lemma {:induction false} OnlyDigitsLeft(s: string)
    requires forall i :: 0 <= i < |s| ==> IsDigit(s[i]) || s[i] == '_'
    ensures AllDigits(WithoutUnderscores(s))
    ensures AllDigits(s) ==> WithoutUnderscores(s) == s
  {
    if s != [] {
      OnlyDigitsLeft(s[1..]);
    }
  }

  function PyDigitsValue(s: string): Option<nat> {
    if IsPyDigits(s) then
      OnlyDigitsLeft(s);
      Some(ValueOf(WithoutUnderscores(s)))
    else None
  }

  lemma PlainDigitsValue(s: string)
    requires s != [] && AllDigits(s)
    ensures PyDigitsValue(s) == Some(ValueOf(s))
  {
    forall i | 0 <= i < |s| ensures s[i] != '_' {
      assert IsDigit(s[i]);
    }
    OnlyDigitsLeft(s);
  }

  /** One underscore between digits is passed over; at an end, or next to another, it is refused. */
  lemma UnderscoresRead()
    ensures PyDigitsValue("1_0") == PyDigitsValue("10")
    ensures PyDigitsValue("1__0").None? && PyDigitsValue("_10").None? && PyDigitsValue("10_").None?
  {
    assert WithoutUnderscores("1_0") == "10" && WithoutUnderscores("10") == "10";
    assert IsPyDigits("1_0") && IsPyDigits("10");
    assert "1__0"[1] == '_' && "1__0"[2] == '_' && "_10"[0] == '_' && "10_"[2] == '_';
  }

  /** Digits after an optional sign. */
  function PySigned(t: string): Option<int> {
    var sign := t != [] && (t[0] == '-' || t[0] == '+');
    var n := PyDigitsValue(if sign then t[1..] else t);
    if n.None? then None
    else
      var v: int := n.value;
      Some(if sign && t[0] == '-' then -v else v)
  }

  /** `int(s)` on ASCII text; None stands for ValueError. */
  function PyInt(s: string): Option<int> {
    PySigned(Strip(s))
  }

  lemma PlainDigitsRead(s: string)
    requires s != [] && AllDigits(s) && Strip(s) == s
    ensures PyInt(s) == Some(ValueOf(s))
  {
    PlainDigitsValue(s);
    assert IsDigit(s[0]) && s[0] != '-' && s[0] != '+';
  }

  lemma PyIntReads(n: nat)
    ensures PyInt(Decimal(n)) == Some(n)
  {
    var s := Decimal(n);
    DecimalReads(n);
    assert IsDigit(s[0]) && IsDigit(s[|s| - 1]);
    StripStable(s);
    PlainDigitsRead(s);
  }

  /** A sign before the digits counts. */
  lemma SignedDigitsValue(sign: char, s: string, n: nat)
    requires sign in {'+', '-'} && PyDigitsValue(s) == Some(n)
    ensures PySigned([sign] + s).Some?
    ensures sign == '+' ==> PySigned([sign] + s).value == n
    ensures sign == '-' ==> PySigned([sign] + s).value + n == 0
  {
    assert ([sign] + s)[1..] == s;
  }

  // ---- searching

  /** `s.rfind(c)`, with None for -1. */
  function RFind(s: string, c: char): (r: Option<nat>)
    ensures r.None? ==> c !in s
    ensures r.Some? ==> r.value < |s| && s[r.value] == c && forall j :: r.value < j < |s| ==> s[j] != c
  {
    if s == [] then None
    else if s[|s| - 1] == c then Some(|s| - 1)
    else RFind(s[..|s| - 1], c)
  }
}
