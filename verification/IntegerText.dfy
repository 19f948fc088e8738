/** Printing a signed integer and reading it back. */
module IntegerText {
  import opened Arithmetic

  // ----- Characters -------------------------------------------------------------------

  predicate IsDigit(c: char) { '0' <= c <= '9' }

  predicate IsSpace(c: char) { c == ' ' || ('\t' <= c <= '\r') }

  function DigitChar(d: int): char
    requires 0 <= d < 10
  {
    "0123456789"[d]
  }

  function DigitValue(c: char): int { c as int - '0' as int }

  lemma DigitCharValue(d: int)
    requires 0 <= d < 10
    ensures IsDigit(DigitChar(d)) && DigitValue(DigitChar(d)) == d
  {
  }

  function Repeat(c: char, k: int): (s: string)
    ensures |s| == if k < 0 then 0 else k
    ensures forall i | 0 <= i < |s| :: s[i] == c
  {
    if k <= 0 then "" else [c] + Repeat(c, k - 1)
  }

  lemma RepeatIs(c: char, s: string)
    requires forall i | 0 <= i < |s| :: s[i] == c
    ensures s == Repeat(c, |s|)
  {
  }

  /** The digits of a number, the most significant first; none for zero. */
  function Digits(v: nat): (s: string)
    ensures forall i | 0 <= i < |s| :: IsDigit(s[i])
  {
    if v == 0 then "" else Digits(v / 10) + [DigitChar(v % 10)]
  }

  // ----- The printed text -------------------------------------------------------------

  datatype Spec = Spec(
    zeroPad: bool, left: bool, plus: bool, space: bool,
    precisionGiven: bool, precision: nat, width: nat)

  const BUFFER_SIZE := 32

  /** The digits that are printed: none for zero with a precision. */
  function Core(v: nat, f: Spec): string {
    if v == 0 then (if f.precisionGiven then "" else "0") else Digits(v)
  }

  // Whether zeros fill the width; a precision overrides that.
  predicate ZeroPads(f: Spec) { f.zeroPad && !f.precisionGiven }

  predicate Signs(negative: bool, f: Spec) { negative || f.plus || f.space }

  /** The number of places that are filled with digits or zeros, as far as the buffer goes. */
  function Places(v: nat, negative: bool, f: Spec): (n: int)
    ensures n >= |Core(v, f)|
  {
    var n := |Core(v, f)|;
    if f.left then n
    else
      var w := if f.width > 0 && ZeroPads(f) && Signs(negative, f) then f.width - 1 else f.width;
      var p := Max(n, Min(f.precision, BUFFER_SIZE));
      if ZeroPads(f) then Max(p, Min(w, BUFFER_SIZE)) else p
  }

  function SignText(negative: bool, f: Spec): string {
    if negative then "-" else if f.plus then "+" else if f.space then " " else ""
  }

  /** The number without padding spaces: a full buffer leaves no room for the sign. */
  function Number(v: nat, negative: bool, f: Spec): string {
    var body := Repeat('0', Places(v, negative, f) - |Core(v, f)|) + Core(v, f);
    if |body| < BUFFER_SIZE then SignText(negative, f) + body else body
  }

  /** What is printed for `%d` with the given flags, width and precision. */
  function Printed(value: int, f: Spec): string {
    var v, negative := if value < 0 then -value else value, value < 0;
    var number := Number(v, negative, f);
    if f.left then number + Repeat(' ', f.width - |number|)
    else if ZeroPads(f) then number
    else Repeat(' ', f.width - |number|) + number
  }

  // ----- Reading ----------------------------------------------------------------------

  /** A string with its terminator. */
  predicate Terminated(b: string) { |b| > 0 && b[|b| - 1] == '\0' }

  function SkipSpaces(b: string, i: nat): (r: nat)
    requires i < |b| && Terminated(b)
    ensures i <= r < |b| && !IsSpace(b[r])
    ensures forall k | i <= k < r :: IsSpace(b[k])
    decreases |b| - i
  {
    if IsSpace(b[i]) then SkipSpaces(b, i + 1) else i
  }

  /** The end of the digits from `i` on, and their value after what was read before. */
  function ReadDigits(b: string, i: nat, num: int): (r: (nat, int))
    requires i < |b| && Terminated(b)
    ensures i <= r.0 < |b|
    decreases |b| - i
  {
    if IsDigit(b[i]) then ReadDigits(b, i + 1, num * 10 + DigitValue(b[i])) else (i, num)
  }

  /** Where reading a decimal number from `current` on ends, and what was read. */
  function Scanned(b: string, current: nat): (nat, int)
    requires current < |b| && Terminated(b)
  {
    var i := SkipSpaces(b, current);
    if b[i] == '-' then
      var (e, num) := ReadDigits(b, i + 1, 0);
      (e, -num)
    else if b[i] == '+' then ReadDigits(b, i + 1, 0)
    else ReadDigits(b, i, 0)
  }

  predicate IsInt(x: int) { -0x8000_0000 <= x < 0x8000_0000 }

  /** No number on the way to the result of ReadDigits overflows an int. */
  predicate StaysInt(b: string, i: nat, num: int)
    requires i < |b| && Terminated(b)
    decreases |b| - i
  {
    IsInt(num) && (IsDigit(b[i]) ==> IsInt(num * 10) && StaysInt(b, i + 1, num * 10 + DigitValue(b[i])))
  }

  /** No number on the way to the result of Scanned does; the sign comes last. */
  predicate ScanStaysInt(b: string, current: nat)
    requires current < |b| && Terminated(b)
  {
    var i := SkipSpaces(b, current);
    StaysInt(b, if b[i] == '-' || b[i] == '+' then i + 1 else i, 0)
  }

  lemma {:induction false} StaysIntIff(b: string, i: nat, num: int)
    requires i < |b| && Terminated(b) && num >= 0
    ensures StaysInt(b, i, num) <==> IsInt(ReadDigits(b, i, num).1)
    ensures ReadDigits(b, i, num).1 >= num
    decreases |b| - i
  {
    if IsDigit(b[i]) { StaysIntIff(b, i + 1, num * 10 + DigitValue(b[i])); }
  }

  /** Reading overflows an int if and only if the number is out of its range, or is the least
      int, whose digits are out of range before the sign is put to them. */
  lemma ScanStaysIntIff(b: string, current: nat)
    requires current < |b| && Terminated(b)
    ensures ScanStaysInt(b, current) <==>
            IsInt(Scanned(b, current).1) && Scanned(b, current).1 != -0x8000_0000
  {
    var i := SkipSpaces(b, current);
    StaysIntIff(b, if b[i] == '-' || b[i] == '+' then i + 1 else i, 0);
  }

  // ----- Round trip -------------------------------------------------------------------

  lemma {:induction false} ReadsZeros(b: string, i: nat, k: nat)
    requires Terminated(b) && i + k < |b| && forall j | i <= j < i + k :: b[j] == '0'
    ensures ReadDigits(b, i, 0) == ReadDigits(b, i + k, 0)
    decreases k
  {
    if k > 0 { ReadsZeros(b, i + 1, k - 1); }
  }

  lemma LastDigit(b: string, i: nat, d: string, c: char)
    requires i + |d| < |b| && b[i..i + |d + [c]|] == d + [c]
    ensures b[i..i + |d|] == d && b[i + |d|] == c
  {
    var s := b[i..i + |d + [c]|];
    assert b[i..i + |d|] == s[..|d|] && b[i + |d|] == s[|d|];
  }

  /** Reading the digits of a number, from `i` on, gives the number. */
  lemma {:induction false} ReadsNumber(b: string, i: nat, v: nat)
    requires Terminated(b) && i + |Digits(v)| < |b| && b[i..i + |Digits(v)|] == Digits(v)
    ensures ReadDigits(b, i, 0) == ReadDigits(b, i + |Digits(v)|, v)
    decreases v
  {
    hide IsDigit, DigitValue, DigitChar;
    if v > 0 {
      var d, c := Digits(v / 10), DigitChar(v % 10);
      assert Digits(v) == d + [c];
      LastDigit(b, i, d, c);
      ReadsNumber(b, i, v / 10);
      DigitCharValue(v % 10);
      assert (v / 10) * 10 + v % 10 == v;
    }
  }

  lemma {:induction false} SkipsTo(b: string, i: nat, p: nat)
    requires Terminated(b) && i <= p < |b| && !IsSpace(b[p]) && forall j | i <= j < p :: IsSpace(b[j])
    ensures SkipSpaces(b, i) == p
    decreases p - i
  {
    if i < p { SkipsTo(b, i + 1, p); }
  }

  /** What is printed between the spaces: zeros and the digits. */
  function Body(v: nat, places: nat): string
    requires places >= |Digits(v)|
  {
    Repeat('0', places - |Digits(v)|) + Digits(v)
  }

  lemma BodyIs(v: nat, negative: bool, f: Spec)
    ensures var n := Places(v, negative, f);
            && n >= |Digits(v)| && (v > 0 || !f.precisionGiven ==> n > 0)
            && Repeat('0', n - |Core(v, f)|) + Core(v, f) == Body(v, n)
            && |Body(v, n)| == n
  {
    var n := Places(v, negative, f);
    if v == 0 && !f.precisionGiven {
      RepeatIs('0', Repeat('0', n - 1) + "0");
    }
    if v > 0 { assert |Digits(v)| > 0; }
  }

  lemma Slices(b: string, i: nat, x: string, y: string)
    requires i + |x + y| <= |b| && b[i..i + |x + y|] == x + y
    ensures forall j | i <= j < i + |x| :: b[j] == x[j - i]
    ensures b[i + |x|..i + |x| + |y|] == y
  {
    var s := b[i..i + |x + y|];
    forall j | i <= j < i + |x| ensures b[j] == x[j - i] { assert s[j - i] == x[j - i]; }
    assert b[i + |x|..i + |x| + |y|] == s[|x|..];
  }

  /** Reading zeros and digits up to something that is not a digit gives the number. */
  lemma ReadsBody(b: string, i: nat, v: nat, places: nat)
    requires Terminated(b) && places >= |Digits(v)| && i + places < |b| && !IsDigit(b[i + places])
    requires b[i..i + places] == Body(v, places)
    ensures ReadDigits(b, i, 0) == (i + places, v)
  {
    hide IsDigit, DigitValue, Digits;
    var k := places - |Digits(v)|;
    Slices(b, i, Repeat('0', k), Digits(v));
    ReadsZeros(b, i, k);
    ReadsNumber(b, i + k, v);
    assert ReadDigits(b, i + places, v) == (i + places, v);
  }

  lemma ZeroOrDigit(v: nat, places: nat)
    requires places >= |Digits(v)|
    ensures forall i | 0 <= i < |Body(v, places)| :: IsDigit(Body(v, places)[i])
  {
  }

  predicate IsSign(c: char) { c == '-' || c == '+' }

  function Signed(v: nat, sign: string): int { if |sign| == 1 && sign[0] == '-' then 0 - v else v }

  /** A sign, a space in its place, or nothing. */
  predicate SignLike(s: string) { |s| == 0 || (|s| == 1 && (s[0] == ' ' || IsSign(s[0]))) }

  /** `s` lies in `b` from `i` on. */
  predicate LiesAt(b: string, i: nat, s: string) { i + |s| <= |b| && b[i..i + |s|] == s }

  lemma Lies(a: string, s: string, c: string)
    ensures LiesAt(a + s + c, |a|, s)
  {
    var b := a + s + c;
    assert |b| == |a| + |s| + |c|;
    forall k | 0 <= k < |s| ensures b[|a| + k] == s[k] {}
  }

  lemma CharOf(b: string, i: nat, s: string, k: nat)
    requires LiesAt(b, i, s) && k < |s|
    ensures b[i + k] == s[k]
  {
    assert b[i + k] == b[i..i + |s|][k];
  }

  /** Spaces, a sign, and digits. */
  lemma ReadsSigned(b: string, x: nat, sign: string, v: nat, places: nat)
    requires Terminated(b) && places >= |Digits(v)| && places > 0 && SignLike(sign)
    requires LiesAt(b, 0, Repeat(' ', x)) && LiesAt(b, x, sign) && LiesAt(b, x + |sign|, Body(v, places))
    requires |Body(v, places)| == places
    requires x + |sign| + places < |b| && !IsDigit(b[x + |sign| + places])
    ensures Scanned(b, 0).1 == Signed(v, sign)
  {
    hide Body, SkipSpaces, ReadDigits;
    var i := x + |sign|;
    SpacesBefore(b, x, sign, v, places);
    ReadsBody(b, i, v, places);
    SkipsTo(b, 0, if |sign| == 1 && sign[0] == ' ' then i else x);
  }

  /** Spaces and a sign, without digits, then spaces, and then something else. */
  lemma ReadsNothing(b: string, x: nat, sign: string, y: nat)
    requires Terminated(b) && SignLike(sign) && Signed(1, sign) == 1
    requires LiesAt(b, 0, Repeat(' ', x)) && LiesAt(b, x, sign) && LiesAt(b, x + |sign|, Repeat(' ', y))
    requires var e := x + |sign| + y; e < |b| && !IsSpace(b[e]) && !IsSign(b[e]) && !IsDigit(b[e])
    ensures Scanned(b, 0).1 == 0
  {
    hide SkipSpaces, ReadDigits, Scanned, LiesAt, IsDigit;
    var i := x + |sign|;
    forall j | 0 <= j < x ensures b[j] == ' ' { CharOf(b, 0, Repeat(' ', x), j); }
    forall j | i <= j < i + y ensures b[j] == ' ' { CharOf(b, i, Repeat(' ', y), j - i); }
    if |sign| == 1 { CharOf(b, x, sign, 0); }
    if |sign| == 1 && sign[0] == '+' {
      SkipsTo(b, 0, x);
      SpaceIs();
      NothingAfterPlus(b, x);
    } else {
      SkipsTo(b, 0, i + y);
      NothingAt(b, i + y);
    }
  }

  lemma SpaceIs()
    ensures IsSpace(' ') && !IsDigit(' ')
  {
  }

  lemma NothingAfterPlus(b: string, x: nat)
    requires Terminated(b) && x + 1 < |b| && SkipSpaces(b, 0) == x && b[x] == '+' && !IsDigit(b[x + 1])
    ensures Scanned(b, 0).1 == 0
  {
    NoDigit(b, x + 1);
  }

  lemma NothingAt(b: string, e: nat)
    requires Terminated(b) && e < |b| && SkipSpaces(b, 0) == e && !IsSign(b[e]) && !IsDigit(b[e])
    ensures Scanned(b, 0).1 == 0
  {
    NoDigit(b, e);
  }

  lemma NoDigit(b: string, i: nat)
    requires Terminated(b) && i < |b| && !IsDigit(b[i])
    ensures ReadDigits(b, i, 0) == (i, 0)
  {
  }

  lemma SpacesBefore(b: string, x: nat, sign: string, v: nat, places: nat)
    requires places >= |Digits(v)| && |Body(v, places)| == places > 0 && SignLike(sign)
    requires LiesAt(b, 0, Repeat(' ', x)) && LiesAt(b, x, sign) && LiesAt(b, x + |sign|, Body(v, places))
    ensures forall j | 0 <= j < x :: IsSpace(b[j])
    ensures |sign| == 1 ==> x < |b| && b[x] == sign[0]
    ensures x + |sign| < |b|
    ensures var c := b[x + |sign|]; IsDigit(c) && !IsSpace(c) && !IsSign(c)
  {
    ZeroOrDigit(v, places);
    forall j | 0 <= j < x ensures IsSpace(b[j]) { CharOf(b, 0, Repeat(' ', x), j); }
    if |sign| == 1 { CharOf(b, x, sign, 0); }
    CharOf(b, x + |sign|, Body(v, places), 0);
  }

  // ----- The theorem ------------------------------------------------------------------

  /** The sign of a negative number has room in the buffer. */
  predicate Fits(value: int, f: Spec) {
    value >= 0 || f.left || (f.precision < BUFFER_SIZE && (ZeroPads(f) ==> f.width <= BUFFER_SIZE))
  }

  lemma {:induction false} DigitsShort(v: nat, k: nat, p: nat)
    requires v < p && p == Power10(k)
    ensures |Digits(v)| <= k
    decreases k
  {
    if v > 0 { DigitsShort(v / 10, k - 1, Power10(k - 1)); }
  }

  function Power10(k: nat): nat { if k == 0 then 1 else 10 * Power10(k - 1) }

  lemma IntDigits(v: nat)
    requires v < 0x8000_0000
    ensures |Digits(v)| <= 10
  {
    assert Power10(5) == 100_000;
    DigitsShort(v, 10, Power10(10));
  }

  lemma PlacesFit(v: nat, f: Spec)
    requires 0 < v < 0x8000_0000
    ensures Places(v, true, f) < BUFFER_SIZE <==> Fits(0 - v, f)
  {
    hide Digits;
    IntDigits(v);
  }

  /** Printing an int other than the least one, with any flags, width and precision, and
      reading it back, which overflows nowhere, gives the same int exactly when there was room
      for its sign.  What follows is no digit and, where no digit was printed, no space or
      sign either. */
  lemma RoundTrip(value: int, f: Spec, rest: string)
    requires -0x8000_0000 < value < 0x8000_0000 && Terminated(rest) && !IsDigit(rest[0])
    requires value == 0 && Places(0, false, f) == 0 ==> !IsSpace(rest[0]) && !IsSign(rest[0])
    ensures Terminated(Printed(value, f) + rest)
    ensures Scanned(Printed(value, f) + rest, 0).1 == value <==> Fits(value, f)
    ensures ScanStaysInt(Printed(value, f) + rest, 0)
  {
    hide ScanStaysInt;
    hide Digits, Places, Scanned, IsDigit, IsSpace, Fits, Repeat, Body;
    var v, negative := if value < 0 then -value else value, value < 0;
    BodyIs(v, negative, f);
    if negative { PlacesFit(v, f); } else { FitsUnsigned(value, f); }
    var places := Places(v, negative, f);
    var sign := if places < BUFFER_SIZE then SignText(negative, f) else "";
    var number := sign + Body(v, places);
    var x, y := Around(value, f, number);
    ReadsPrinted(x, sign, v, places, y, rest);
    ScanStaysIntIff(Printed(value, f) + rest, 0);
  }

  /** With a precision of 32 the buffer is full of digits and a minus sign is lost. */
  lemma SignLost()
    ensures var f := Spec(false, false, false, false, true, 32, 0);
            Scanned(Printed(-5, f) + "\0", 0).1 != -5
  {
    RoundTrip(-5, Spec(false, false, false, false, true, 32, 0), "\0");
    hide Scanned, Printed;
  }

  lemma FitsUnsigned(value: int, f: Spec)
    requires value >= 0
    ensures Fits(value, f)
  {
  }

  /** The spaces before and after the number. */
  lemma Around(value: int, f: Spec, number: string) returns (x: nat, y: nat)
    requires number == Number(if value < 0 then -value else value, value < 0, f)
    ensures Printed(value, f) == Repeat(' ', x) + number + Repeat(' ', y)
    ensures x == (if f.left || ZeroPads(f) || f.width < |number| then 0 else f.width - |number|)
    ensures y == if f.left && f.width > |number| then f.width - |number| else 0
  {
    hide Number, ZeroPads;
    x := if f.left || ZeroPads(f) || f.width < |number| then 0 else f.width - |number|;
    y := if f.left && f.width > |number| then f.width - |number| else 0;
    assert Repeat(' ', 0) == "";
    assert Repeat(' ', f.width - |number|) == Repeat(' ', Max(0, f.width - |number|));
  }

  /** The parts of a text, each where it lies. */
  predicate Parts(b: string, s: string, g: string, m: string, t: string, r: string) {
    && LiesAt(b, 0, s) && LiesAt(b, |s|, g) && LiesAt(b, |s| + |g|, m) && LiesAt(b, |s| + |g| + |m|, t)
    && LiesAt(b, |s| + |g| + |m| + |t|, r) && |b| == |s| + |g| + |m| + |t| + |r|
  }

  lemma PartsOf(s: string, g: string, m: string, t: string, r: string)
    ensures Parts(s + (g + m) + t + r, s, g, m, t, r)
  {
    hide LiesAt;
    var b := s + (g + m) + t + r;
    PartsBefore(s, g, m, t, r);
    assert b == (s + (g + m)) + t + r;
    Lies(s + (g + m), t, r);
    assert b == (s + (g + m) + t) + r + "";
    Lies(s + (g + m) + t, r, "");
  }

  lemma PartsBefore(s: string, g: string, m: string, t: string, r: string)
    ensures var b := s + (g + m) + t + r;
            LiesAt(b, 0, s) && LiesAt(b, |s|, g) && LiesAt(b, |s| + |g|, m)
  {
    hide LiesAt;
    var b := s + (g + m) + t + r;
    var c := t + r;
    assert b == "" + s + (g + m + c);
    Lies("", s, g + m + c);
    assert b == s + g + (m + c);
    Lies(s, g, m + c);
    assert b == (s + g) + m + c;
    Lies(s + g, m, c);
  }

  lemma ReadsPrinted(x: nat, sign: string, v: nat, places: nat, y: nat, rest: string)
    requires places >= |Digits(v)| && |Body(v, places)| == places && Terminated(rest) && !IsDigit(rest[0])
    requires SignLike(sign)
    requires places == 0 ==> v == 0 && Signed(1, sign) == 1 && !IsSpace(rest[0]) && !IsSign(rest[0])
    ensures var b := Repeat(' ', x) + (sign + Body(v, places)) + Repeat(' ', y) + rest;
            Terminated(b) && Scanned(b, 0).1 == Signed(v, sign)
  {
    hide Parts, Digits, Body, Repeat, Scanned, SignLike, Signed;
    var b := Repeat(' ', x) + (sign + Body(v, places)) + Repeat(' ', y) + rest;
    PartsOf(Repeat(' ', x), sign, Body(v, places), Repeat(' ', y), rest);
    ReadsParts(b, x, sign, v, places, y, rest);
  }

  lemma ReadsParts(b: string, x: nat, sign: string, v: nat, places: nat, y: nat, rest: string)
    requires places >= |Digits(v)| && |Body(v, places)| == places && Terminated(rest) && !IsDigit(rest[0])
    requires Parts(b, Repeat(' ', x), sign, Body(v, places), Repeat(' ', y), rest)
    requires SignLike(sign)
    requires places == 0 ==> v == 0 && Signed(1, sign) == 1 && !IsSpace(rest[0]) && !IsSign(rest[0])
    ensures Terminated(b) && Scanned(b, 0).1 == Signed(v, sign)
  {
    hide Digits, Body, Scanned, LiesAt, IsDigit, IsSpace, IsSign, SignLike;
    var t, e := Repeat(' ', y), x + |sign| + places;
    CharOf(b, e + y, rest, 0);
    CharOf(b, e + y, rest, |rest| - 1);
    if y > 0 { SpaceNoDigit(t); CharOf(b, e, t, 0); }
    if places > 0 {
      ReadsSigned(b, x, sign, v, places);
    } else {
      ReadsNothing(b, x, sign, y);
    }
  }

  lemma SpaceNoDigit(t: string)
    requires |t| > 0 && t == Repeat(' ', |t|)
    ensures !IsDigit(t[0])
  {
  }

  // ----- What is seen of the text -----------------------------------------------------

  /** The number that a string of digits stands for. */
  function NumberOf(d: string): int {
    if d == "" then 0 else 10 * NumberOf(d[..|d| - 1]) + DigitValue(d[|d| - 1])
  }

  /** `d` is a number in decimal, without leading zeros. */
  predicate Decimal(d: string, v: int) {
    && (forall i | 0 <= i < |d| :: '0' <= d[i] <= '9')
    && NumberOf(d) == v && (|d| > 1 ==> d[0] != '0')
  }

  /** Precision and zero-padded width leave room in the buffer for a sign. */
  predicate Roomy(f: Spec) {
    f.left || (f.precision < BUFFER_SIZE && (f.zeroPad && !f.precisionGiven ==> f.width <= BUFFER_SIZE))
  }

  /** The number of signs. */
  function SignSize(value: int, f: Spec): nat {
    if (value < 0 || f.plus || f.space) && Roomy(f) then 1 else 0
  }

  /** The text, character by character: `x` spaces, the sign, `z` zeros, the digits `d`, and
      `y` spaces. */
  predicate Spelled(t: string, value: int, f: Spec, x: nat, z: nat, d: string, y: nat) {
    var s := SignSize(value, f);
    && |t| == x + s + z + |d| + y
    && (forall i | 0 <= i < x :: t[i] == ' ')
    && (s == 1 ==> t[x] == if value < 0 then '-' else if f.plus then '+' else ' ')
    && (forall i | x + s <= i < x + s + z :: t[i] == '0')
    && t[x + s + z..x + s + z + |d|] == d
    && (forall i | |t| - y <= i < |t| :: t[i] == ' ')
  }

  /** How many there are of each.  Zeros go up to the precision or, with the zero flag and no
      precision, together with the sign up to the width, but no further than the buffer. */
  predicate Counted(t: string, value: int, f: Spec, x: nat, z: nat, d: string, y: nat) {
    var s, zeroWidth := SignSize(value, f), f.zeroPad && !f.precisionGiven;
    && Decimal(d, if value < 0 then -value else value)
    && (d == "" <==> value == 0 && f.precisionGiven)
    && (if f.left then x == 0 && z == 0
        else if !Roomy(f) then y == 0 && z + |d| == BUFFER_SIZE
        else if zeroWidth then y == 0 && s + z + |d| == Max(f.width, s + Max(f.precision, |d|))
        else y == 0 && z + |d| == Max(f.precision, |d|))
    && |t| == if zeroWidth && !Roomy(f) then BUFFER_SIZE else Max(f.width, s + z + |d|)
  }

  /** The text is what the flags, the width and the precision ask for. */
  ghost predicate Shows(t: string, value: int, f: Spec) {
    exists x: nat, z: nat, d: string, y: nat ::
      Spelled(t, value, f, x, z, d, y) && Counted(t, value, f, x, z, d, y)
  }

  lemma {:induction false} DigitsDecimal(v: nat)
    ensures Decimal(Digits(v), v) && (Digits(v) == "" <==> v == 0) && (v > 0 ==> Digits(v)[0] != '0')
  {
    hide DigitChar, DigitValue;
    if v > 0 {
      var d, c := Digits(v / 10), DigitChar(v % 10);
      DigitsDecimal(v / 10);
      assert (d + [c])[..|d|] == d;
      DigitCharValue(v % 10);
      if v < 10 { FirstNotZero(v); }
    }
  }

  lemma FirstNotZero(v: nat)
    requires 0 < v < 10
    ensures DigitChar(v) != '0'
  {
  }

  lemma CoreDecimal(v: nat, f: Spec)
    ensures Decimal(Core(v, f), v) && (Core(v, f) == "" <==> v == 0 && f.precisionGiven)
  {
    hide Digits, NumberOf;
    DigitsDecimal(v);
    ZeroDecimal();
  }

  lemma ZeroDecimal()
    ensures NumberOf("0") == 0
  {
    assert NumberOf("0"[..0]) == 0;
  }

  lemma PartsSpelled(value: int, f: Spec, x: nat, g: string, z: nat, d: string, y: nat)
    requires g == if SignSize(value, f) == 1 then SignText(value < 0, f) else ""
    ensures var t := Repeat(' ', x) + (g + (Repeat('0', z) + d)) + Repeat(' ', y);
            Spelled(t, value, f, x, z, d, y) && |t| == x + SignSize(value, f) + z + |d| + y
  {
    hide Repeat, Roomy;
    var t := Repeat(' ', x) + (g + (Repeat('0', z) + d)) + Repeat(' ', y);
    var k := x + |g| + z;
    assert t[k..k + |d|] == d;
  }

  /** How many digits and zeros there are. */
  lemma PlacesCounted(value: int, f: Spec)
    requires -0x8000_0000 < value < 0x8000_0000
    ensures var v, negative := if value < 0 then -value else value, value < 0;
            var n, d, s := Places(v, negative, f), |Core(v, f)|, SignSize(value, f);
            && d <= n <= BUFFER_SIZE && (Signs(negative, f) ==> (n < BUFFER_SIZE <==> Roomy(f)))
            && (if f.left then n == d
                else if !Roomy(f) then n == BUFFER_SIZE
                else if ZeroPads(f) then s + n == Max(f.width, s + Max(f.precision, d))
                else n == Max(f.precision, d))
  {
    hide Core;
    CoreShort(if value < 0 then -value else value, f);
  }

  /** The text that is printed is what the flags, the width and the precision ask for. */
  lemma PrintedShows(value: int, f: Spec)
    requires -0x8000_0000 < value < 0x8000_0000
    ensures Shows(Printed(value, f), value, f)
  {
    hide Digits, Repeat, NumberOf, Decimal, Core, Printed, Places, Roomy, Spelled, Counted;
    var v, negative := if value < 0 then -value else value, value < 0;
    CoreDecimal(v, f);
    PlacesCounted(value, f);
    var d, g := Core(v, f), if SignSize(value, f) == 1 then SignText(negative, f) else "";
    var z := Places(v, negative, f) - |d|;
    RepeatLength('0', z);
    assert "" + (Repeat('0', z) + d) == Repeat('0', z) + d;
    var number := g + (Repeat('0', z) + d);
    assert number == Number(v, negative, f);
    var x, y := Around(value, f, number);
    PartsSpelled(value, f, x, g, z, d, y);
    RepeatLength(' ', x);
    RepeatLength(' ', y);
    PartsCounted(Printed(value, f), value, f, x, z, y);
  }

  lemma PartsCounted(t: string, value: int, f: Spec, x: nat, z: nat, y: nat)
    requires -0x8000_0000 < value < 0x8000_0000
    requires var v, negative := if value < 0 then -value else value, value < 0;
             var n, s := Places(v, negative, f), SignSize(value, f);
             && z == n - |Core(v, f)| && |t| == x + s + n + y
             && x == (if f.left || ZeroPads(f) || f.width < s + n then 0 else f.width - (s + n))
             && y == if f.left && f.width > s + n then f.width - (s + n) else 0
    ensures Counted(t, value, f, x, z, Core(if value < 0 then -value else value, f), y)
  {
    hide Decimal, Core, Places;
    CoreDecimal(if value < 0 then -value else value, f);
    PlacesCounted(value, f);
  }

  lemma CoreShort(v: nat, f: Spec)
    requires v < 0x8000_0000
    ensures |Core(v, f)| <= 10
  {
    hide Digits;
    IntDigits(v);
  }

  /** A number has one decimal form. */
  lemma {:induction false} DecimalIs(d: string, v: int)
    requires Decimal(d, v) && d != "0"
    ensures v >= 0 && d == Digits(v) && (d != "" ==> v > 0)
    decreases |d|
  {
    hide DigitChar;
    if d != "" {
      var n := |d| - 1;
      var d', c := d[..n], d[n];
      assert d == d' + [c];
      DigitOf(c);
      DecimalIs(d', NumberOf(d'));
      assert v == 10 * NumberOf(d') + DigitValue(c);
      assert v / 10 == NumberOf(d') && v % 10 == DigitValue(c);
    }
  }

  lemma DigitOf(c: char)
    requires '0' <= c <= '9'
    ensures 0 <= DigitValue(c) < 10 && DigitChar(DigitValue(c)) == c && (DigitValue(c) == 0 <==> c == '0')
  {
  }

  /** No other text shows the same. */
  lemma ShowsOnce(t: string, t': string, value: int, f: Spec)
    requires Shows(t, value, f) && Shows(t', value, f)
    ensures t == t'
  {
    hide Spelled, Counted;
    var x: nat, z: nat, d: string, y: nat :| Spelled(t, value, f, x, z, d, y) && Counted(t, value, f, x, z, d, y);
    var x': nat, z': nat, d': string, y': nat :|
      Spelled(t', value, f, x', z', d', y') && Counted(t', value, f, x', z', d', y');
    SameDigits(t, t', value, f, x, z, d, y, x', z', d', y');
    SameCounts(t, t', value, f, x, z, d, y, x', z', y');
    SpelledOnce(t, t', value, f, x, z, d, y);
  }

  lemma SameDigits(
    t: string, t': string, value: int, f: Spec,
    x: nat, z: nat, d: string, y: nat, x': nat, z': nat, d': string, y': nat)
    requires Counted(t, value, f, x, z, d, y) && Counted(t', value, f, x', z', d', y')
    ensures d == d'
  {
    hide Decimal, Roomy, SignSize;
    SameDecimal(d, d', if value < 0 then -value else value);
  }

  lemma SameCounts(
    t: string, t': string, value: int, f: Spec, x: nat, z: nat, d: string, y: nat, x': nat, z': nat, y': nat)
    requires Counted(t, value, f, x, z, d, y) && Counted(t', value, f, x', z', d, y')
    requires Spelled(t, value, f, x, z, d, y) && Spelled(t', value, f, x', z', d, y')
    ensures x == x' && z == z' && y == y'
  {
    hide Decimal, Roomy, SignSize;
  }

  lemma SpelledOnce(t: string, t': string, value: int, f: Spec, x: nat, z: nat, d: string, y: nat)
    requires Spelled(t, value, f, x, z, d, y) && Spelled(t', value, f, x, z, d, y)
    ensures t == t'
  {
    hide Roomy;
    var k := x + SignSize(value, f) + z;
    forall i | 0 <= i < |t| ensures t[i] == t'[i] {
      if k <= i < k + |d| { assert t[i] == d[i - k] && t'[i] == d[i - k]; }
    }
  }

  lemma SameDecimal(d: string, d': string, v: int)
    requires Decimal(d, v) && Decimal(d', v) && (d == "" <==> d' == "")
    ensures d == d'
  {
    hide Digits;
    ZeroDecimal();
    if d != "0" { DecimalIs(d, v); }
    if d' != "0" { DecimalIs(d', v); }
  }

  /** The first character that is no space. */
  ghost predicate Leads(t: string, i: nat) {
    i < |t| && t[i] != ' ' && forall j | 0 <= j < i :: t[j] == ' '
  }

  /** What comes first in a text with room for its sign: a minus for a negative number, a plus
      for any other if and only if that flag is set, and else a digit; with the space flag and
      no plus there is a space before it. */
  lemma SignSeen(t: string, value: int, f: Spec, i: nat)
    requires Shows(t, value, f) && Roomy(f) && Leads(t, i)
    ensures t[i] == '-' <==> value < 0
    ensures t[i] == '+' <==> value >= 0 && f.plus
    ensures '0' <= t[i] <= '9' <==> value >= 0 && !f.plus
    ensures value >= 0 && !f.plus && f.space ==> i > 0
  {
    hide NumberOf, Roomy;
    var x: nat, z: nat, d: string, y: nat :| Spelled(t, value, f, x, z, d, y) && Counted(t, value, f, x, z, d, y);
    var k := x + SignSize(value, f);
    if |d| > 0 { assert t[k + z] == d[0]; }
  }

  // ----- What is taken from a text ----------------------------------------------------

  /** Blank, tab, new line, vertical tab, form feed, carriage return. */
  predicate IsWhite(c: char) {
    c == ' ' || c == '\t' || c == '\n' || c as int == 11 || c as int == 12 || c == '\r'
  }

  /** From `current` on there is white space up to `i`, perhaps a sign, and digits from `j` up
      to `e`, where there is none; they stand for the number. */
  predicate TakenAt(b: string, current: nat, i: nat, j: nat, e: nat, num: int) {
    && current <= i <= j <= e < |b|
    && (forall k | current <= k < i :: IsWhite(b[k])) && !IsWhite(b[i])
    && j == (if b[i] == '-' || b[i] == '+' then i + 1 else i)
    && (forall k | j <= k < e :: '0' <= b[k] <= '9') && !('0' <= b[e] <= '9')
    && num == if b[i] == '-' then 0 - NumberOf(b[j..e]) else NumberOf(b[j..e])
  }

  ghost predicate Taken(b: string, current: nat, e: nat, num: int) {
    exists i: nat, j: nat :: TakenAt(b, current, i, j, e, num)
  }

  /** Reading goes on with the number that the digits from `j` up to `i` stand for. */
  lemma {:induction false} ReadsOn(b: string, j: nat, i: nat)
    requires Terminated(b) && j <= i < |b|
    ensures var (e, n) := ReadDigits(b, i, NumberOf(b[j..i]));
            && n == NumberOf(b[j..e]) && !IsDigit(b[e]) && forall k | i <= k < e :: IsDigit(b[k])
    decreases |b| - i
  {
    hide DigitValue;
    if IsDigit(b[i]) {
      assert b[j..i + 1][..i - j] == b[j..i];
      assert NumberOf(b[j..i + 1]) == NumberOf(b[j..i]) * 10 + DigitValue(b[i]);
      ReadsOn(b, j, i + 1);
    }
  }

  /** Reading ends at the first character that is no digit, after white space of any of six
      kinds and at most one sign, with the number that the digits stand for. */
  lemma ScannedTaken(b: string, current: nat)
    requires current < |b| && Terminated(b)
    ensures var (e, num) := Scanned(b, current); Taken(b, current, e, num)
  {
    hide NumberOf, SkipSpaces, ReadDigits;
    var i := SkipSpaces(b, current);
    var j := if b[i] == '-' || b[i] == '+' then i + 1 else i;
    NumberOfNothing(b, j);
    ReadsOn(b, j, j);
    var (e, num) := Scanned(b, current);
    assert TakenAt(b, current, i, j, e, num);
  }

  lemma NumberOfNothing(b: string, j: nat)
    requires j <= |b|
    ensures NumberOf(b[j..j]) == 0
  {
  }

  /** No other end and number are right. */
  lemma TakenOnce(b: string, current: nat, e: nat, num: int, e': nat, num': int)
    requires Taken(b, current, e, num) && Taken(b, current, e', num')
    ensures e == e' && num == num'
  {
    hide NumberOf, IsWhite;
    var i: nat, j: nat :| TakenAt(b, current, i, j, e, num);
    var i': nat, j': nat :| TakenAt(b, current, i', j', e', num');
    assert i == i' && e == e';
  }

  // ----- The loops --------------------------------------------------------------------

  function Reversed(s: string): (r: string)
    ensures |r| == |s|
  {
    if s == "" then "" else Reversed(s[1..]) + [s[0]]
  }

  lemma {:induction false} ReversedSnoc(s: string, c: char)
    ensures Reversed(s + [c]) == [c] + Reversed(s)
    decreases |s|
  {
    if s == "" {
      assert Reversed([c]) == Reversed("") + [c];
      assert s + [c] == [c];
    } else {
      assert (s + [c])[1..] == s[1..] + [c];
      ReversedSnoc(s[1..], c);
    }
  }

  lemma RepeatMore(c: char, k: nat)
    ensures Repeat(c, k + 1) == Repeat(c, k) + [c]
  {
    RepeatIs(c, Repeat(c, k) + [c]);
  }

  lemma RepeatNone(c: char, k: int)
    ensures k <= 0 ==> Repeat(c, k) == ""
  {
  }

  /** The buffer is put out from its end, with spaces before or after up to the width. */
  method OutRev(out: string, buf: array<char>, len0: nat, width: int, left: bool, zeroPad: bool)
    returns (result: string)
    requires len0 <= buf.Length
    ensures result == out + (if !left && !zeroPad then Repeat(' ', width - len0) else "")
                      + Reversed(buf[..len0]) + (if left then Repeat(' ', width - len0) else "")
  {
    hide Reversed, Repeat;
    RepeatNone(' ', width - len0);
    RepeatNone(' ', 0);
    ReversedNothing();
    var len := len0;
    result := out;
    if !left && !zeroPad {
      var i := len;
      while i < width
        invariant len <= i && (i <= width || i == len)
        invariant result == out + Repeat(' ', i - len)
      {
        RepeatMore(' ', i - len);
        result := result + " ";
        i := i + 1;
      }
    }
    ghost var before := result;
    assert before == out + if !left && !zeroPad then Repeat(' ', width - len0) else "";
    while len > 0
      invariant 0 <= len <= len0
      invariant result + Reversed(buf[..len]) == before + Reversed(buf[..len0])
    {
      assert buf[..len] == buf[..len - 1] + [buf[len - 1]];
      ReversedSnoc(buf[..len - 1], buf[len - 1]);
      len := len - 1;
      result := result + [buf[len]];
    }
    ghost var after := result;
    assert buf[..0] == "" && after == before + Reversed(buf[..len0]);
    if left {
      var n := len0;
      while n < width
        invariant len0 <= n && (n <= width || n == len0)
        invariant result == after + Repeat(' ', n - len0)
      {
        RepeatMore(' ', n - len0);
        result := result + " ";
        n := n + 1;
      }
    }
  }

  /** The digits of a number, the least significant first. */
  method PutDigits(buf: array<char>, value0: nat) returns (len: nat)
    requires buf.Length == BUFFER_SIZE && value0 < 0x8000_0000
    modifies buf
    ensures len <= BUFFER_SIZE && Reversed(buf[..len]) == if value0 == 0 then "0" else Digits(value0)
  {
    hide Digits, Reversed;
    var value := value0;
    len := 0;
    IntDigits(value0);
    DigitsStep(value0);
    assert buf[..0] == "";
    ReversedNothing();
    while true
      invariant 0 <= len <= BUFFER_SIZE && 0 <= value <= value0
      invariant Digits(value) + Reversed(buf[..len]) == Digits(value0) && (len > 0 ==> value > 0)
      invariant len < BUFFER_SIZE
      decreases value
    {
      DigitsStep(value);
      var digit := value % 10;
      ghost var old_buf := buf[..len];
      ReversedSnoc(old_buf, DigitChar(digit));
      buf[len] := DigitChar(digit);
      assert buf[..len + 1] == old_buf + [DigitChar(digit)];
      len := len + 1;
      value := value / 10;
      if !(value != 0 && len < BUFFER_SIZE) {
        break;
      }
    }
  }

  lemma ReversedNothing()
    ensures Reversed("") == ""
  {
  }

  lemma DigitsStep(v: nat)
    ensures v > 0 ==> Digits(v) == Digits(v / 10) + [DigitChar(v % 10)]
    ensures Digits(0) == "" && DigitChar(0) == '0'
  {
  }

  /** Zeros are put after the digits, which are in reverse, up to `limit` of them in all. */
  method PadZeros(buf: array<char>, len0: nat, limit: int) returns (len: nat)
    requires buf.Length == BUFFER_SIZE && len0 <= BUFFER_SIZE
    modifies buf
    ensures len == Max(len0, Min(limit, BUFFER_SIZE)) && len0 <= len <= BUFFER_SIZE
    ensures Reversed(buf[..len]) == Repeat('0', len - len0) + Reversed(old(buf[..len0]))
  {
    hide Reversed, Repeat;
    len := len0;
    RepeatNone('0', 0);
    ghost var digits := buf[..len0];
    while len < limit && len < BUFFER_SIZE
      invariant len0 <= len <= BUFFER_SIZE && (len <= limit || len == len0)
      invariant Reversed(buf[..len]) == Repeat('0', len - len0) + Reversed(digits)
    {
      ghost var s := buf[..len];
      ReversedSnoc(s, '0');
      RepeatFront('0', len - len0);
      buf[len] := '0';
      assert buf[..len + 1] == s + "0";
      len := len + 1;
    }
  }

  lemma RepeatFront(c: char, k: nat)
    ensures Repeat(c, k + 1) == [c] + Repeat(c, k)
  {
  }

  lemma RepeatSum(c: char, j: nat, k: nat)
    ensures Repeat(c, j) + Repeat(c, k) == Repeat(c, j + k)
  {
    RepeatIs(c, Repeat(c, j) + Repeat(c, k));
  }

  /** The sign goes after the digits, which are in reverse, if there is room for it. */
  method PutSign(buf: array<char>, len0: nat, negative: bool, f: Spec) returns (len: nat)
    requires buf.Length == BUFFER_SIZE && len0 <= BUFFER_SIZE
    modifies buf
    ensures len <= BUFFER_SIZE
    ensures Reversed(buf[..len])
            == (if len0 < BUFFER_SIZE then SignText(negative, f) else "") + Reversed(old(buf[..len0]))
  {
    hide Reversed;
    len := len0;
    ghost var s := buf[..len0];
    ReversedSnoc(s, '-');
    ReversedSnoc(s, '+');
    ReversedSnoc(s, ' ');
    if len < BUFFER_SIZE {
      if negative {
        buf[len] := '-';
        len := len + 1;
        assert buf[..len] == s + "-";
      } else if f.plus {
        buf[len] := '+';
        len := len + 1;
        assert buf[..len] == s + "+";
      } else if f.space {
        buf[len] := ' ';
        len := len + 1;
        assert buf[..len] == s + " ";
      }
    }
    assert "" + Reversed(s) == Reversed(s);
  }

  lemma PadMore(c: char, j: nat, k: nat, s: string)
    ensures Repeat(c, j) + (Repeat(c, k) + s) == Repeat(c, j + k) + s
  {
    RepeatSum(c, j, k);
  }

  lemma NoPad(s: string)
    ensures Repeat('0', 0) + s == s
  {
  }

  /** More zeros after the `n` digits and the zeros that are there. */
  method PadTo(buf: array<char>, len0: nat, limit: int, ghost n: nat, ghost core: string) returns (len: nat)
    requires buf.Length == BUFFER_SIZE && n <= len0 <= BUFFER_SIZE
    requires Reversed(buf[..len0]) == Repeat('0', len0 - n) + core
    modifies buf
    ensures len == Max(len0, Min(limit, BUFFER_SIZE)) && len0 <= len <= BUFFER_SIZE
    ensures Reversed(buf[..len]) == Repeat('0', len - n) + core
  {
    hide Reversed, Repeat;
    len := PadZeros(buf, len0, limit);
    PadMore('0', len - len0, len0 - n, core);
  }

  /** Zeros up to the precision and, with the zero flag, up to the width. */
  method PadPlaces(buf: array<char>, len0: nat, ghost v: nat, negative: bool, f: Spec, zeroPad: bool)
    returns (len: nat, width: int)
    requires buf.Length == BUFFER_SIZE && len0 <= BUFFER_SIZE && zeroPad == ZeroPads(f)
    requires Reversed(buf[..len0]) == Core(v, f)
    modifies buf
    ensures len == Places(v, negative, f) <= BUFFER_SIZE && (f.left || !zeroPad ==> width == f.width)
    ensures Reversed(buf[..len]) == Repeat('0', len - |Core(v, f)|) + Core(v, f)
  {
    hide Reversed, Repeat, Core;
    width := f.width;
    len := len0;
    ghost var core := Core(v, f);
    ReversedLength(buf[..len]);
    NoPad(core);
    if !f.left {
      if width > 0 && zeroPad && (negative || f.plus || f.space) {
        width := width - 1;
      }
      len := PadTo(buf, len, f.precision, len0, core);
      if zeroPad {
        len := PadTo(buf, len, width, len0, core);
      }
    }
  }

  /** The digits get their zeros and their sign, and are put out within the width. */
  method NtoaFormat(out: string, buf: array<char>, len0: nat, value: int, f: Spec, zeroPad: bool)
    returns (result: string)
    requires buf.Length == BUFFER_SIZE && len0 <= BUFFER_SIZE && zeroPad == ZeroPads(f)
    requires Reversed(buf[..len0]) == Core(if value < 0 then -value else value, f)
    modifies buf
    ensures result == out + Printed(value, f)
  {
    hide Reversed, Repeat, Core, Places, Printed;
    ghost var v := if value < 0 then -value else value;
    var len, width := PadPlaces(buf, len0, v, value < 0, f, zeroPad);
    ghost var body := Reversed(buf[..len]);
    RepeatLength('0', Places(v, value < 0, f) - |Core(v, f)|);
    ReversedLength(buf[..len]);
    len := PutSign(buf, len, value < 0, f);
    assert "" + body == body;
    ReversedLength(buf[..len]);
    result := OutRev(out, buf, len, width, f.left, zeroPad);
    Layout(out, Reversed(buf[..len]), value, f);
  }

  /** `%d` with the given flags, width and precision puts out the text. */
  method PrintInt(out: string, value: int, f: Spec) returns (result: string)
    requires -0x8000_0000 < value < 0x8000_0000
    ensures result == out + Printed(value, f)
    ensures |result| >= |out| && result[..|out|] == out && Shows(result[|out|..], value, f)
  {
    hide Reversed, Digits, Printed, Shows;
    var zeroPad := f.zeroPad;
    if f.precisionGiven {
      zeroPad := false;
    }
    var magnitude := if value > 0 then value else 0 - value;
    var buf := new char[BUFFER_SIZE](i => '\0');
    var len := 0;
    ReversedNothing();
    assert buf[..0] == "";
    if !f.precisionGiven || magnitude != 0 {
      len := PutDigits(buf, magnitude);
    }
    result := NtoaFormat(out, buf, len, value, f, zeroPad);
    PrintedShows(value, f);
    assert result[|out|..] == Printed(value, f);
  }

  lemma RepeatLength(c: char, k: int)
    ensures |Repeat(c, k)| == if k < 0 then 0 else k
  {
  }

  lemma ReversedLength(s: string)
    ensures |Reversed(s)| == |s|
  {
  }

  lemma Layout(out: string, number: string, value: int, f: Spec)
    requires number == Number(if value < 0 then -value else value, value < 0, f)
    ensures var spaces := Repeat(' ', f.width - |number|);
            out + Printed(value, f) == out + (if !f.left && !ZeroPads(f) then spaces else "")
                                       + number + (if f.left then spaces else "")
  {
    hide Number, Repeat, ZeroPads;
    var spaces := Repeat(' ', f.width - |number|);
    if f.left {
      Join(out, "", number, spaces);
    } else if ZeroPads(f) {
      Join(out, "", number, "");
    } else {
      Join(out, spaces, number, "");
    }
  }

  lemma Join(a: string, b: string, c: string, d: string)
    ensures a + b + c + d == a + (b + c + d)
    ensures "" + c + d == c + d && b + c + "" == b + c && "" + c + "" == c
  {
  }

  // ----- Reading ----------------------------------------------------------------------

  /** The number read, and where reading ended. */
  method MatchDecimal(buffer: string, current0: nat) returns (current: nat, num: int)
    requires Terminated(buffer) && current0 < |buffer|
    ensures (current, num) == Scanned(buffer, current0) && Taken(buffer, current0, current, num)
  {
    hide Taken;
    ScannedTaken(buffer, current0);
    current := current0;
    while IsSpace(buffer[current])
      invariant current < |buffer| && SkipSpaces(buffer, current) == SkipSpaces(buffer, current0)
      decreases |buffer| - current
    {
      current := current + 1;
    }
    num := 0;
    var sign := 1;
    if buffer[current] == '-' {
      sign := -1;
      current := current + 1;
    } else if buffer[current] == '+' {
      current := current + 1;
    }
    ghost var start := current;
    while buffer[current] != '\0'
      invariant start <= current < |buffer|
      invariant ReadDigits(buffer, current, num) == ReadDigits(buffer, start, 0)
      decreases |buffer| - current
    {
      if !IsDigit(buffer[current]) {
        num := num * sign;
        return;
      }
      num := num * 10 + DigitValue(buffer[current]);
      current := current + 1;
    }
    num := num * sign;
  }
}
