/** Numbers and strings as the daemon builds them: int64 wrap-around, decimal integers, NUL-joined keys, trimming
    and the byte order that sort.Strings uses. */
module Text {
  datatype Option<+T> = None | Some(value: T)

  const NUL: char := '\0'

  const INT64_MIN: int := -0x8000_0000_0000_0000
  const INT64_MAX: int := 0x7fff_ffff_ffff_ffff

  predicate IsInt64(n: int) {
    INT64_MIN <= n <= INT64_MAX
  }

  predicate NulFree(s: string) {
    NUL !in s
  }

  predicate EndsWith(s: string, suffix: string) {
    |suffix| <= |s| && s[|s| - |suffix|..] == suffix
  }

  predicate Distinct<T(==)>(s: seq<T>) {
    forall i, j | 0 <= i < j < |s| :: s[i] != s[j]
  }

  // ---------------------------------------------------------------- numbers

  /** An int64 result, wrapped. */
  function Wrap64(n: int): int {
    (n - INT64_MIN) % 0x1_0000_0000_0000_0000 + INT64_MIN
  }

  function Min(a: int, b: int): int {
    if a <= b then a else b
  }

  function Sum(s: seq<int>): int {
    if s == [] then 0 else Sum(s[..|s| - 1]) + s[|s| - 1]
  }

  /** n * x */
  function Times(n: nat, x: int): int {
    if n == 0 then 0 else Times(n - 1, x) + x
  }

  lemma {:induction false} TimesIsProduct(n: nat, x: int)
    ensures Times(n, x) == n * x
  {
    if n > 0 {
      TimesIsProduct(n - 1, x);
      assert n * x == (n - 1) * x + x;
    }
  }

  lemma SomeMember(s: set<int>)
    ensures s == {} || exists x: int :: x in s
  {
    if !exists x: int :: x in s {
      assert s == {};
    }
  }

  // ---------------------------------------------------------------- decimal integers

  function Digit(d: nat): (c: char)
    requires d < 10
    ensures IsDigit(c) && DigitValue(c) == d
  {
    ['0', '1', '2', '3', '4', '5', '6', '7', '8', '9'][d]
  }

  predicate IsDigit(c: char) {
    '0' <= c <= '9'
  }

  function DigitValue(c: char): (d: nat)
    requires IsDigit(c)
    ensures d < 10
  {
    c as int - '0' as int
  }

  function Digits(n: nat): (s: string)
    ensures s != [] && forall i | 0 <= i < |s| :: IsDigit(s[i])
  {
    if n < 10 then [Digit(n)] else Digits(n / 10) + [Digit(n % 10)]
  }

  /** fmt.Sprint and strconv.FormatInt in base 10. */
  function FormatInt(n: int): string {
    if n < 0 then "-" + Digits(-n) else Digits(n)
  }

  /** The value of a run of digits, or None when some character is not a digit. */
  function DigitsValue(s: string): Option<nat> {
    if s == [] then Some(0)
    else
      var front := DigitsValue(s[..|s| - 1]);
      var c := s[|s| - 1];
      if front.Some? && IsDigit(c) then Some(10 * front.value + DigitValue(c)) else None
  }

  /** strconv.ParseInt(s, 10, 64): an optional sign, at least one digit, and the int64 range. */
  function ParseInt(s: string): (r: Option<int>)
    ensures r.Some? ==> IsInt64(r.value)
  {
    var signed := s != [] && (s[0] == '-' || s[0] == '+');
    var body := if signed then s[1..] else s;
    if body == [] then None
    else
      var magnitude := DigitsValue(body);
      if magnitude.None? then None
      else
        var n := if signed && s[0] == '-' then -(magnitude.value as int) else magnitude.value as int;
        if IsInt64(n) then Some(n) else None
  }

  lemma {:induction false} DigitsRoundTrip(n: nat)
    ensures DigitsValue(Digits(n)) == Some(n)
  {
    if n < 10 {
      assert Digits(n)[..0] == [];
    } else {
      DigitsRoundTrip(n / 10);
      var s := Digits(n);
      assert s[..|s| - 1] == Digits(n / 10);
    }
  }

  lemma ParseDigits(s: string, n: nat)
    requires s != [] && IsDigit(s[0]) && DigitsValue(s) == Some(n) && IsInt64(n)
    ensures ParseInt(s) == Some(n as int)
  {
  }

  lemma ParseMinus(s: string, n: nat)
    requires s != [] && DigitsValue(s) == Some(n) && IsInt64(-(n as int))
    ensures ParseInt("-" + s) == Some(-(n as int))
  {
    assert ("-" + s)[1..] == s;
  }

  /** The text writes the number with these digits, signed or not. */
  predicate Writes(s: string, digits: string, magnitude: nat, n: int) {
    && digits != "" && DigitsValue(digits) == Some(magnitude)
    && ((s == digits && n == magnitude) || (s == "+" + digits && n == magnitude)
        || (s == "-" + digits && n == -(magnitude as int)))
  }

  lemma ParsedWrites(s: string)
    requires ParseInt(s).Some?
    ensures exists digits: string, magnitude: nat :: Writes(s, digits, magnitude, ParseInt(s).value)
  {
    var signed := s[0] == '-' || s[0] == '+';
    var digits := if signed then s[1..] else s;
    assert s == if signed then [s[0]] + s[1..] else s;
    assert Writes(s, digits, DigitsValue(digits).value, ParseInt(s).value);
  }

  lemma WrittenParses(s: string, digits: string, magnitude: nat, n: int)
    requires IsInt64(n) && Writes(s, digits, magnitude, n)
    ensures ParseInt(s) == Some(n)
  {
    ValueHasDigits(digits);
    assert s == digits || s[1..] == digits;
  }

  /** What parses: an optional sign and at least one digit, as the number that they write, where it is an int64. */
  lemma ParseIs(s: string, n: int)
    ensures ParseInt(s) == Some(n)
        <==> IsInt64(n) && exists digits: string, magnitude: nat :: Writes(s, digits, magnitude, n)
  {
    if ParseInt(s) == Some(n) {
      ParsedWrites(s);
    }
    if digits: string, magnitude: nat :| IsInt64(n) && Writes(s, digits, magnitude, n) {
      WrittenParses(s, digits, magnitude, n);
    }
  }

  lemma {:induction false} ValueHasDigits(s: string)
    ensures DigitsValue(s).Some? <==> forall i | 0 <= i < |s| :: '0' <= s[i] <= '9'
    decreases |s|
  {
    if s != "" {
      ValueHasDigits(s[..|s| - 1]);
    }
  }

  /** A wrapped number is an int64 that differs by a multiple of 2^64. */
  lemma WrapIs(n: int)
    ensures IsInt64(Wrap64(n)) && exists k: int :: Wrap64(n) == n + k * 18446744073709551616
    ensures IsInt64(n) ==> Wrap64(n) == n
  {
    var q := (n - INT64_MIN) / 0x1_0000_0000_0000_0000;
    assert Wrap64(n) == n + (-q) * 18446744073709551616;
  }

  /** Writing a cursor and reading it back gives the same number. */
  lemma FormatParseRoundTrip(n: int)
    requires IsInt64(n)
    ensures ParseInt(FormatInt(n)) == Some(n)
  {
    if n < 0 {
      DigitsRoundTrip(-n);
      ParseMinus(Digits(-n), -n);
    } else {
      DigitsRoundTrip(n);
      ParseDigits(Digits(n), n);
    }
  }

  lemma FormatIntInjective(a: int, b: int)
    requires FormatInt(a) == FormatInt(b)
    ensures a == b
  {
    assert IsDigit(Digits(if a < 0 then -a else a)[0]);
    assert IsDigit(Digits(if b < 0 then -b else b)[0]);
    assert (a < 0) == (FormatInt(a)[0] == '-');
    assert (b < 0) == (FormatInt(b)[0] == '-');
    if a < 0 {
      assert FormatInt(a)[1..] == Digits(-a) && FormatInt(b)[1..] == Digits(-b);
      DigitsRoundTrip(-a);
      DigitsRoundTrip(-b);
    } else {
      DigitsRoundTrip(a);
      DigitsRoundTrip(b);
    }
  }

  lemma FormatIntNulFree(n: int)
    ensures NulFree(FormatInt(n))
  {
    var s := Digits(if n < 0 then -n else n);
    forall i | 0 <= i < |s| ensures s[i] != NUL {
      assert IsDigit(s[i]);
    }
  }

  // ---------------------------------------------------------------- NUL-joined keys

  /** a NUL b */
  function Joined(a: string, b: string): string {
    a + [NUL] + b
  }

  /** Where the first NUL is, or the length when there is none. */
  function FirstNul(s: string): nat {
    if s == [] || s[0] == NUL then 0 else 1 + FirstNul(s[1..])
  }

  lemma {:induction false} FirstNulOfJoined(a: string, b: string)
    requires NulFree(a)
    ensures FirstNul(Joined(a, b)) == |a|
    decreases |a|
  {
    if a == [] {
      assert Joined(a, b)[0] == NUL;
    } else {
      assert Joined(a, b)[1..] == Joined(a[1..], b);
      FirstNulOfJoined(a[1..], b);
    }
  }

  /** A NUL-free head can be read back from a NUL-joined text. */
  lemma JoinedInjective(a: string, b: string, a': string, b': string)
    requires NulFree(a) && NulFree(a')
    requires Joined(a, b) == Joined(a', b')
    ensures a == a' && b == b'
  {
    FirstNulOfJoined(a, b);
    FirstNulOfJoined(a', b');
    var s := Joined(a, b);
    assert a == s[..|a|] && a' == s[..|a|];
    assert b == s[|a| + 1..] && b' == s[|a| + 1..];
  }

  function CountNul(s: string): nat {
    if s == [] then 0 else (if s[0] == NUL then 1 else 0) + CountNul(s[1..])
  }

  lemma {:induction false} CountNulOfJoined(a: string, b: string)
    ensures CountNul(Joined(a, b)) == CountNul(a) + 1 + CountNul(b)
    decreases |a|
  {
    if a == [] {
      assert Joined(a, b)[1..] == b;
    } else {
      assert Joined(a, b)[1..] == Joined(a[1..], b);
      CountNulOfJoined(a[1..], b);
    }
  }

  lemma {:induction false} NulFreeCountsZero(s: string)
    ensures NulFree(s) <==> CountNul(s) == 0
    decreases |s|
  {
    if s != [] {
      assert s == [s[0]] + s[1..];
      NulFreeCountsZero(s[1..]);
    }
  }

  // ---------------------------------------------------------------- trimming

  /** unicode.IsSpace */
  predicate IsSpace(c: char) {
    var n := c as int;
    n == 0x20 || 0x09 <= n <= 0x0d || n == 0x85 || n == 0xa0 || n == 0x1680 || 0x2000 <= n <= 0x200a
    || n == 0x2028 || n == 0x2029 || n == 0x202f || n == 0x205f || n == 0x3000
  }

  function TrimLeft(s: string): string {
    if s != [] && IsSpace(s[0]) then TrimLeft(s[1..]) else s
  }

  function TrimRight(s: string): string {
    if s != [] && IsSpace(s[|s| - 1]) then TrimRight(s[..|s| - 1]) else s
  }

  /** strings.TrimSpace */
  function TrimSpace(s: string): string {
    TrimRight(TrimLeft(s))
  }

  lemma {:induction false} TrimLeftStart(s: string)
    ensures TrimLeft(s) == [] || !IsSpace(TrimLeft(s)[0])
    decreases |s|
  {
    if s != [] && IsSpace(s[0]) {
      TrimLeftStart(s[1..]);
    }
  }

  lemma {:induction false} TrimRightEnds(s: string)
    ensures TrimRight(s) == [] || !IsSpace(TrimRight(s)[|TrimRight(s)| - 1])
    ensures TrimRight(s) <= s
    decreases |s|
  {
    if s != [] && IsSpace(s[|s| - 1]) {
      TrimRightEnds(s[..|s| - 1]);
    }
  }

  lemma TrimIdempotent(s: string)
    ensures TrimSpace(TrimSpace(s)) == TrimSpace(s)
  {
    TrimLeftStart(s);
    TrimRightEnds(TrimLeft(s));
  }

  /** The 25 characters of White_Space, by their numbers. */
  lemma SpacesAre(c: char)
    ensures IsSpace(c)
        <==> c as int in {9, 10, 11, 12, 13, 32, 133, 160, 5760, 8192, 8193, 8194, 8195, 8196, 8197, 8198, 8199, 8200,
                          8201, 8202, 8232, 8233, 8239, 8287, 12288}
  {
  }

  predicate AllSpace(s: string) {
    forall i | 0 <= i < |s| :: IsSpace(s[i])
  }

  lemma {:induction false} TrimLeftCuts(s: string) returns (cut: string)
    ensures AllSpace(cut) && s == cut + TrimLeft(s)
    decreases |s|
  {
    cut := [];
    if s != [] && IsSpace(s[0]) {
      var rest := TrimLeftCuts(s[1..]);
      cut := [s[0]] + rest;
      assert s == [s[0]] + s[1..];
    }
  }

  lemma {:induction false} TrimRightCuts(s: string) returns (cut: string)
    ensures AllSpace(cut) && s == TrimRight(s) + cut
    decreases |s|
  {
    cut := [];
    if s != [] && IsSpace(s[|s| - 1]) {
      var rest := TrimRightCuts(s[..|s| - 1]);
      cut := rest + [s[|s| - 1]];
      assert s == s[..|s| - 1] + [s[|s| - 1]];
    }
  }

  /** Trimming takes off white space at both ends, all of it, and nothing else. */
  lemma TrimIs(s: string) returns (left: string, right: string)
    ensures s == left + TrimSpace(s) + right && AllSpace(left) && AllSpace(right)
    ensures TrimSpace(s) != "" ==> !IsSpace(TrimSpace(s)[0]) && !IsSpace(TrimSpace(s)[|TrimSpace(s)| - 1])
  {
    left := TrimLeftCuts(s);
    right := TrimRightCuts(TrimLeft(s));
    TrimLeftStart(s);
    TrimRightEnds(TrimLeft(s));
  }

  lemma FormatIntIsTrimmed(n: int)
    ensures TrimSpace(FormatInt(n)) == FormatInt(n)
  {
    var s := Digits(if n < 0 then -n else n);
    assert IsDigit(s[0]) && IsDigit(s[|s| - 1]);
  }

  // ---------------------------------------------------------------- byte order

  /** The strict order of sort.Strings. */
  predicate Less(a: string, b: string) {
    if b == [] then false
    else if a == [] then true
    else if a[0] != b[0] then a[0] < b[0]
    else Less(a[1..], b[1..])
  }

  /** The two texts agree up to k, and there a ends, or holds the smaller character. */
  predicate DiffersAt(a: string, b: string, k: nat) {
    && k <= |a| && k < |b| && a[..k] == b[..k]
    && (k == |a| || a[k] < b[k])
  }

  lemma {:induction false} LessDiffers(a: string, b: string) returns (k: nat)
    requires Less(a, b)
    ensures DiffersAt(a, b, k)
    decreases |a|
  {
    k := 0;
    if a != [] && a[0] == b[0] {
      k := LessDiffers(a[1..], b[1..]);
      assert a == [a[0]] + a[1..] && b == [b[0]] + b[1..];
      assert a[..k + 1] == [a[0]] + a[1..][..k] && b[..k + 1] == [b[0]] + b[1..][..k];
      k := k + 1;
    }
  }

  lemma {:induction false} DiffersLess(a: string, b: string, k: nat)
    requires DiffersAt(a, b, k)
    ensures Less(a, b)
    decreases k
  {
    if k > 0 {
      assert a[0] == a[..k][0] == b[..k][0] == b[0];
      assert a[1..][..k - 1] == a[..k][1..] && b[1..][..k - 1] == b[..k][1..];
      DiffersLess(a[1..], b[1..], k - 1);
    }
  }

  /** The order is that of the first difference, a beginning first. */
  lemma LessIs(a: string, b: string)
    ensures Less(a, b) <==> exists k: nat :: DiffersAt(a, b, k)
  {
    if Less(a, b) {
      var k := LessDiffers(a, b);
    }
    if k: nat :| DiffersAt(a, b, k) {
      DiffersLess(a, b, k);
    }
  }

  lemma {:induction false} LessTransitive(a: string, b: string, c: string)
    requires Less(a, b) && Less(b, c)
    ensures Less(a, c)
    decreases |a|
  {
    if a != [] && a[0] == b[0] && b[0] == c[0] {
      LessTransitive(a[1..], b[1..], c[1..]);
    }
  }

  lemma {:induction false} LessTotal(a: string, b: string)
    ensures Less(a, b) || a == b || Less(b, a)
    decreases |a|
  {
    if a != [] && b != [] && a[0] == b[0] {
      LessTotal(a[1..], b[1..]);
      if a[1..] == b[1..] {
        assert a == [a[0]] + a[1..] == [b[0]] + b[1..] == b;
      }
    }
  }

  lemma {:induction false} LessIrreflexive(a: string)
    ensures !Less(a, a)
    decreases |a|
  {
    if a != [] {
      LessIrreflexive(a[1..]);
    }
  }
}
