/** Strings as the two programs use them: searching, splitting at a character, decimal numbers. */
module Text {
  import opened NulFraming

  /** The position of the first d in s, or |s|. */
  function IndexOf(s: string, d: char): (i: nat)
    ensures i <= |s| && d !in s[..i]
    ensures i < |s| <==> d in s
    ensures i < |s| ==> s[i] == d
  {
    if s == "" || s[0] == d then 0
    else
      var i := 1 + IndexOf(s[1..], d);
      assert s[..i] == [s[0]] + s[1..][..i - 1];
      i
  }

  lemma IndexOfIs(s: string, d: char, i: nat)
    requires i < |s| && s[i] == d && d !in s[..i]
    ensures IndexOf(s, d) == i
  {
    var k := IndexOf(s, d);
    assert forall j :: 0 <= j < i ==> s[..i][j] != d;
    assert forall j :: 0 <= j < k ==> s[..k][j] != d;
  }

  /** All fields of s between occurrences of d: one more than there are occurrences. */
  function Fields(s: string, d: char): (fs: seq<string>)
    ensures fs != []
    ensures forall f :: f in fs ==> d !in f
  {
    var i := IndexOf(s, d);
    if i == |s| then assert s[..i] == s; [s] else [s[..i]] + Fields(s[i + 1..], d)
  }

  /** String.split in Java: trailing empty fields are dropped, unless there is no d at all. */
  function JavaSplit(s: string, d: char): seq<string> {
    var fs := Fields(s, d);
    if |fs| == 1 then fs else StripEmpty(fs)
  }

  function StripEmpty(fs: seq<string>): seq<string> {
    if fs != [] && fs[|fs| - 1] == "" then StripEmpty(fs[..|fs| - 1]) else fs
  }

  /** Repeated std::getline in C++: one trailing empty field is dropped. */
  function CppSplit(s: string, d: char): seq<string> {
    var fs := Fields(s, d);
    if fs[|fs| - 1] == "" then fs[..|fs| - 1] else fs
  }

  /** One getline: the field up to the first d, or all that is left. */
  lemma GetLineStep(s: string, d: char)
    requires s != ""
    ensures var i := IndexOf(s, d);
            CppSplit(s, d) == if i == |s| then [s] else [s[..i]] + CppSplit(s[i + 1..], d)
  {
    var i := IndexOf(s, d);
    if i < |s| {
      var rest := Fields(s[i + 1..], d);
      assert Fields(s, d) == [s[..i]] + rest;
      assert ([s[..i]] + rest)[..|rest|] == [s[..i]] + rest[..|rest| - 1];
    }
  }

  lemma AppendFirst(done: seq<string>, segment: string, left: seq<string>)
    ensures done + ([segment] + left) == (done + [segment]) + left
  {
  }

  /** The loop of split: getline until the stream is exhausted. */
  method SplitLoop(x: string, splitBy: char) returns (seglist: seq<string>)
    ensures seglist == CppSplit(x, splitBy)
  {
    seglist := [];
    var message := x;
    while message != ""
      invariant CppSplit(x, splitBy) == seglist + CppSplit(message, splitBy)
      decreases |message|
    {
      GetLineStep(message, splitBy);
      var i := IndexOf(message, splitBy);
      var segment := message[..i];
      if i == |message| {
        assert segment == message;
        seglist, message := seglist + [segment], "";
      } else {
        AppendFirst(seglist, segment, CppSplit(message[i + 1..], splitBy));
        seglist, message := seglist + [segment], message[i + 1..];
      }
    }
  }

  /* ---- Decimal numbers ---- */

  function Digit(n: nat): (c: char)
    requires n < 10
    ensures '0' <= c <= '9'
  {
    '0' + n as char
  }

  /** Integer.toString and std::to_string of a non-negative number. */
  function Decimal(n: nat): (s: string)
    ensures s != "" && forall i :: 0 <= i < |s| ==> '0' <= s[i] <= '9'
  {
    if n < 10 then [Digit(n)] else Decimal(n / 10) + [Digit(n % 10)]
  }

  /** The number a string of digits denotes. */
  function Digits(s: string): Option<nat> {
    if s == "" then Some(0)
    else
      var c := s[|s| - 1];
      match Digits(s[..|s| - 1])
      case Some(n) => if '0' <= c <= '9' then Some(10 * n + (c as int - '0' as int)) else None
      case None => None
  }

  const INT_MAX: int := 0x7FFF_FFFF

  /** Integer.valueOf: an optional sign, at least one digit, in the 32-bit range. */
  function ParseInt(s: string): Option<int> {
    var negative := s != "" && s[0] == '-';
    var body := if s != "" && (s[0] == '-' || s[0] == '+') then s[1..] else s;
    if body == "" then None
    else
      match Digits(body)
      case None => None
      case Some(n) =>
        var value: int := if negative then 0 - n else n;
        if -INT_MAX - 1 <= value <= INT_MAX then Some(value) else None
  }

  lemma {:induction false} DigitsInvertDecimal(n: nat)
    ensures Digits(Decimal(n)) == Some(n)
  {
    var s := Decimal(n);
    if n < 10 {
      assert s[..0] == "";
    } else {
      DigitsInvertDecimal(n / 10);
      assert s[..|s| - 1] == Decimal(n / 10);
      assert s[|s| - 1] == Digit(n % 10);
    }
  }

  /** Reading back a printed number. */
  lemma ParseIntInvertsDecimal(n: nat)
    ensures ParseInt(Decimal(n)) == if n <= INT_MAX then Some(n) else None
  {
    DigitsInvertDecimal(n);
    assert '0' <= Decimal(n)[0] <= '9';
  }

  lemma DecimalInjective(n: nat, m: nat)
    ensures Decimal(n) == Decimal(m) ==> n == m
  {
    DigitsInvertDecimal(n);
    DigitsInvertDecimal(m);
  }

  /** Integer.toString. */
  function SignedDecimal(n: int): string {
    if n < 0 then "-" + Decimal(-n) else Decimal(n)
  }

  lemma SignedInjective(n: int, m: int)
    ensures SignedDecimal(n) == SignedDecimal(m) ==> n == m
  {
    if n >= 0 && m >= 0 {
      DecimalInjective(n, m);
    } else if n < 0 && m < 0 {
      DecimalInjective(-n, -m);
      assert SignedDecimal(n)[1..] == Decimal(-n) && SignedDecimal(m)[1..] == Decimal(-m);
    } else if n < 0 {
      assert SignedDecimal(n)[0] == '-';
      assert '0' <= Decimal(m)[0] <= '9';
    } else {
      assert SignedDecimal(m)[0] == '-';
      assert '0' <= Decimal(n)[0] <= '9';
    }
  }

  predicate InRange(v: int) {
    -INT_MAX - 1 <= v <= INT_MAX
  }

  function Zeros(k: nat): string {
    seq(k, _ => '0')
  }

  lemma {:induction false} DigitsOfPadded(k: nat, n: nat)
    ensures Digits(Zeros(k) + Decimal(n)) == Some(n)
    decreases n
  {
    var s := Zeros(k) + Decimal(n);
    var front := s[..|s| - 1];
    if n < 10 {
      assert front == Zeros(k);
      DigitsOfZeros(k);
    } else {
      DigitsOfPadded(k, n / 10);
      assert front == Zeros(k) + Decimal(n / 10);
    }
  }

  lemma {:induction false} DigitsOfZeros(k: nat)
    ensures Digits(Zeros(k)) == Some(0)
  {
    if k > 0 {
      assert Zeros(k)[..k - 1] == Zeros(k - 1);
      DigitsOfZeros(k - 1);
    }
  }

  lemma ParseIntOfDigits(sign: string, body: string, n: nat)
    requires sign == "" || sign == "+" || sign == "-"
    requires body != "" && '0' <= body[0] <= '9' && Digits(body) == Some(n)
    ensures var v: int := if sign == "-" then 0 - n else n;
            ParseInt(sign + body) == if InRange(v) then Some(v) else None
  {
    if sign == "" { assert sign + body == body; } else { assert (sign + body)[1..] == body; }
  }

  /** Reading back a printed number, with a sign or without, and with zeros in front. */
  lemma ParseIntReads(sign: string, k: nat, n: nat)
    requires sign == "" || sign == "+" || sign == "-"
    ensures var v: int := if sign == "-" then 0 - n else n;
            ParseInt(sign + (Zeros(k) + Decimal(n))) == if InRange(v) then Some(v) else None
  {
    DigitsOfPadded(k, n);
    ParseIntOfDigits(sign, Zeros(k) + Decimal(n), n);
  }

  lemma ParseIntInvertsSigned(n: int)
    ensures ParseInt(SignedDecimal(n)) == if InRange(n) then Some(n) else None
  {
    if n < 0 {
      DigitsInvertDecimal(-n);
      ParseIntOfDigits("-", Decimal(-n), -n);
    } else {
      DigitsInvertDecimal(n);
      ParseIntOfDigits("", Decimal(n), n);
      assert "" + Decimal(n) == Decimal(n);
    }
  }

  lemma {:induction false} DigitsArePadded(s: string) returns (k: nat, n: nat)
    requires s != "" && Digits(s).Some?
    ensures s == Zeros(k) + Decimal(n)
    decreases |s|
  {
    var last, front := s[|s| - 1], s[..|s| - 1];
    var d: nat := last as int - '0' as int;
    assert s == front + [last];
    if front == "" {
      k, n := 0, d;
      assert Decimal(d) == [last];
    } else {
      k, n := DigitsArePadded(front);
      OneMoreDigit(k, n, d);
      if n == 0 { k, n := k + 1, d; } else { n := 10 * n + d; }
    }
  }

  lemma OneMoreDigit(k: nat, n: nat, d: nat)
    requires d < 10
    ensures Zeros(k) + Decimal(n) + [Digit(d)]
            == if n == 0 then Zeros(k + 1) + Decimal(d) else Zeros(k) + Decimal(10 * n + d)
  {
    if n == 0 {
      assert Zeros(k + 1) == Zeros(k) + ['0'];
    } else {
      assert Decimal(10 * n + d) == Decimal(n) + [Digit(d)];
    }
  }

  /** Nothing else is read as a number. */
  lemma ParseIntOnly(s: string)
    requires ParseInt(s).Some?
    ensures exists sign, k, n :: (sign == "" || sign == "+" || sign == "-") && s == sign + (Zeros(k) + Decimal(n))
  {
    var sign := if s[0] == '-' || s[0] == '+' then [s[0]] else "";
    var body := s[|sign|..];
    var k, n := DigitsArePadded(body);
    assert s == sign + (Zeros(k) + Decimal(n));
  }
}
