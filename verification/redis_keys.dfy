/**
  Key names (redis_keys.h) and the decimal text they are built from: `std::to_string` on
  integers and the `std::stoi` that reads such text back.
*/
module RedisKeys {
  import opened Wrappers

  const INT_MIN := -2147483648
  const INT_MAX := 2147483647
  const LONG_MIN := -9223372036854775808
  const LONG_MAX := 9223372036854775807
  type Int = n: int | INT_MIN <= n <= INT_MAX
  type Long = n: int | LONG_MIN <= n <= LONG_MAX

  // ---------------------------------------------------------------- decimal text

  function Digit(d: int): (c: char)
    requires 0 <= d < 10
    ensures '0' <= c <= '9'
  {
    ['0', '1', '2', '3', '4', '5', '6', '7', '8', '9'][d]
  }

  predicate IsDigit(c: char) {
    '0' <= c <= '9'
  }

  function DigitValue(c: char): (d: int)
    requires IsDigit(c)
    ensures 0 <= d < 10
  {
    (c - '0') as int
  }

  function NatText(n: nat): (s: string)
    ensures s != []
  {
    if n < 10 then [Digit(n)] else NatText(n / 10) + [Digit(n % 10)]
  }

  /** std::to_string(int). */
  function Text(n: int): string {
    if n < 0 then "-" + NatText(-n) else NatText(n)
  }

  ghost predicate AllDigits(s: string) {
    forall i :: 0 <= i < |s| ==> IsDigit(s[i])
  }

  lemma {:induction false} NatTextDigits(n: nat)
    ensures AllDigits(NatText(n))
  {
    if n >= 10 {
      NatTextDigits(n / 10);
    }
  }

  /** The value of the leading digits of `s`, continuing from `acc`. */
  function Digits(s: string, acc: nat): nat
    decreases |s|
  {
    if s == [] || !IsDigit(s[0]) then acc else Digits(s[1..], 10 * acc + DigitValue(s[0]))
  }

  predicate Space(c: char) {
    c == ' ' || ('\U{09}' <= c <= '\U{0D}')
  }

  /** std::stoi and std::stol: blanks, a sign, digits; what follows is ignored. None: throws,
      for want of digits or because the value is outside `lo` to `hi`. */
  function ParseDecimal(s: string, lo: int, hi: int): (r: Option<int>)
    ensures r.Some? ==> lo <= r.value <= hi
    decreases |s|
  {
    if s == [] then None
    else if Space(s[0]) then ParseDecimal(s[1..], lo, hi)
    else
      var signed := s[0] == '-' || s[0] == '+';
      var ds := if signed then s[1..] else s;
      if ds == [] || !IsDigit(ds[0]) then None
      else
        var v: int := if s[0] == '-' then 0 - Digits(ds, 0) else Digits(ds, 0);
        if lo <= v <= hi then Some(v) else None
  }

  function Stoi(s: string): Option<int> {
    ParseDecimal(s, INT_MIN, INT_MAX)
  }

  function Stol(s: string): Option<int> {
    ParseDecimal(s, LONG_MIN, LONG_MAX)
  }

  lemma {:induction false} DigitsAppend(s: string, c: char, acc: nat)
    requires AllDigits(s) && IsDigit(c)
    ensures Digits(s + [c], acc) == 10 * Digits(s, acc) + DigitValue(c)
    decreases |s|
  {
    if s == [] {
      assert s + [c] == [c] && [c][1..] == [];
    } else {
      assert (s + [c])[1..] == s[1..] + [c];
      DigitsAppend(s[1..], c, 10 * acc + DigitValue(s[0]));
    }
  }

  lemma DigitRoundTrip(d: int)
    requires 0 <= d < 10
    ensures DigitValue(Digit(d)) == d
  {
  }

  lemma {:induction false} NatTextValue(n: nat)
    ensures Digits(NatText(n), 0) == n
  {
    if n < 10 {
      DigitRoundTrip(n);
      assert [Digit(n)][1..] == [];
    } else {
      NatTextDigits(n / 10);
      NatTextValue(n / 10);
      DigitRoundTrip(n % 10);
      DigitsAppend(NatText(n / 10), Digit(n % 10), 0);
    }
  }

  /** `s` is a decimal numeral of `n`. */
  ghost predicate Numeral(s: string, n: int) {
    if n < 0 then
      |s| > 1 && s[0] == '-' && AllDigits(s[1..]) && Digits(s[1..], 0) == -n
    else
      s != [] && AllDigits(s) && Digits(s, 0) == n
  }

  lemma TextShape(n: int)
    ensures Numeral(Text(n), n)
  {
    var m := if n < 0 then -n else n;
    NatTextDigits(m);
    NatTextValue(m);
    if n < 0 {
      assert Text(n)[1..] == NatText(m);
    }
  }

  lemma ParseDigits(s: string, lo: int, hi: int)
    requires s != [] && IsDigit(s[0])
    ensures ParseDecimal(s, lo, hi) == if lo <= Digits(s, 0) <= hi then Some(Digits(s, 0)) else None
  {
    assert !Space(s[0]);
  }

  lemma ParseMinus(s: string, lo: int, hi: int)
    requires |s| > 1 && s[0] == '-' && IsDigit(s[1])
    ensures var v := 0 - Digits(s[1..], 0);
            ParseDecimal(s, lo, hi) == if lo <= v <= hi then Some(v) else None
  {
    assert !Space(s[0]);
  }

  lemma ParseNumeral(s: string, n: int, lo: int, hi: int)
    requires Numeral(s, n)
    ensures ParseDecimal(s, lo, hi) == if lo <= n <= hi then Some(n) else None
  {
    if n < 0 {
      assert s[1] == s[1..][0];
      ParseMinus(s, lo, hi);
    } else {
      ParseDigits(s, lo, hi);
    }
  }

  /** Reading back what to_string wrote: the number, or an exception outside the type's range. */
  lemma StoiText(n: int)
    ensures Stoi(Text(n)) == if INT_MIN <= n <= INT_MAX then Some(n) else None
    ensures Stol(Text(n)) == if LONG_MIN <= n <= LONG_MAX then Some(n) else None
  {
    TextShape(n);
    ParseNumeral(Text(n), n, INT_MIN, INT_MAX);
    ParseNumeral(Text(n), n, LONG_MIN, LONG_MAX);
  }

  /** to_string writes no superfluous zeros. */
  lemma {:induction false} NoLeadingZero(n: nat)
    requires n > 0
    ensures NatText(n)[0] != '0'
  {
    if n >= 10 {
      NoLeadingZero(n / 10);
    }
  }

  lemma {:induction false} DigitsStop(ds: string, rest: string, acc: nat)
    requires AllDigits(ds) && (rest == [] || !IsDigit(rest[0]))
    ensures Digits(ds + rest, acc) == Digits(ds, acc)
    decreases |ds|
  {
    if ds == [] {
      assert ds + rest == rest;
    } else {
      assert (ds + rest)[1..] == ds[1..] + rest;
      DigitsStop(ds[1..], rest, 10 * acc + DigitValue(ds[0]));
    }
  }

  /** What std::stoi and std::stol make of any text: blanks are skipped, one sign is taken, then the
      digits up to the first other character; without a digit there, or with a value out of range,
      they throw. */
  lemma {:induction false} ParseDecimalExactly(blanks: string, sign: string, ds: string, rest: string, lo: int, hi: int)
    requires forall i :: 0 <= i < |blanks| ==> Space(blanks[i])
    requires sign == "" || sign == "-" || sign == "+"
    requires AllDigits(ds) && (rest == [] || !IsDigit(rest[0]))
    requires sign == "" && ds == [] && rest != [] ==> !Space(rest[0]) && rest[0] != '-' && rest[0] != '+'
    ensures ParseDecimal(blanks + sign + ds + rest, lo, hi) ==
            var v: int := if sign == "-" then 0 - Digits(ds, 0) else Digits(ds, 0);
            if ds != [] && lo <= v <= hi then Some(v) else None
    decreases |blanks|
  {
    var s := blanks + sign + ds + rest;
    if blanks != [] {
      assert s[1..] == blanks[1..] + sign + ds + rest;
      ParseDecimalExactly(blanks[1..], sign, ds, rest, lo, hi);
    } else {
      UnsignedDecimal(sign, ds, rest, lo, hi);
      assert s == sign + ds + rest;
    }
  }

  lemma UnsignedDecimal(sign: string, ds: string, rest: string, lo: int, hi: int)
    requires sign == "" || sign == "-" || sign == "+"
    requires AllDigits(ds) && (rest == [] || !IsDigit(rest[0]))
    requires sign == "" && ds == [] && rest != [] ==> !Space(rest[0]) && rest[0] != '-' && rest[0] != '+'
    ensures ParseDecimal(sign + ds + rest, lo, hi) ==
            var v: int := if sign == "-" then 0 - Digits(ds, 0) else Digits(ds, 0);
            if ds != [] && lo <= v <= hi then Some(v) else None
  {
    var s := sign + ds + rest;
    DigitsStop(ds, rest, 0);
    if sign == "" {
      assert s == ds + rest;
    } else {
      assert s[0] == sign[0] && s[1..] == ds + rest;
    }
  }

  /** What std::stoi reads, std::stol reads. */
  lemma {:induction false} StoiStol(s: string)
    ensures Stoi(s).Some? ==> Stol(s) == Stoi(s)
  {
    if s != [] && Space(s[0]) {
      StoiStol(s[1..]);
    }
  }

  lemma NumeralInjective(s: string, m: int, n: int)
    requires Numeral(s, m) && Numeral(s, n)
    ensures m == n
  {
    assert IsDigit(s[0]) ==> s[0] != '-';
  }

  lemma TextInjective(m: int, n: int)
    requires Text(m) == Text(n)
    ensures m == n
  {
    TextShape(m);
    TextShape(n);
    NumeralInjective(Text(m), m, n);
  }

  lemma NumeralHasNoColon(s: string, n: int)
    requires Numeral(s, n)
    ensures ':' !in s
  {
    forall i | 0 <= i < |s| ensures s[i] != ':' {
      if n < 0 && i > 0 {
        assert s[i] == s[1..][i - 1];
      }
    }
  }

  lemma TextHasNoColon(n: int)
    ensures ':' !in Text(n)
  {
    TextShape(n);
    NumeralHasNoColon(Text(n), n);
  }

  // ---------------------------------------------------------------- the four key families

  const UNREAD := "chat:unread:"

  function MessageKey(msgId: string): string {
    "chat:msg:" + msgId
  }

  function UserMessagesKey(uid: int): string {
    "chat:user_msgs:" + Text(uid)
  }

  function UnreadKey(toUid: int, fromUid: int): string {
    UNREAD + Text(toUid) + ":" + Text(fromUid)
  }

  function ChatRelationKey(uid: int): string {
    "chat:relation:" + Text(uid)
  }

  /** The keys as they stand in Redis, for a message, for a user, and for what user 7 has not read
      from user 42. */
  lemma KeyExamples()
    ensures MessageKey("m1") == "chat:msg:m1" && UserMessagesKey(7) == "chat:user_msgs:7"
    ensures UnreadKey(7, 42) == "chat:unread:7:42" && ChatRelationKey(-3) == "chat:relation:-3"
  {
    assert NatText(42) == NatText(4) + ['2'];
    assert Text(42) == "42" && Text(7) == "7" && Text(-3) == "-3";
  }

  lemma PrefixCancel(p: string, s: string, t: string)
    requires p + s == p + t
    ensures s == t
  {
    assert s == (p + s)[|p|..] && t == (p + t)[|p|..];
  }

  /** Position of the first colon, or the length. */
  function FirstColon(s: string): nat {
    if s == [] || s[0] == ':' then 0 else 1 + FirstColon(s[1..])
  }

  lemma {:induction false} FirstColonAfter(a: string, b: string)
    requires ':' !in a
    ensures FirstColon(a + ":" + b) == |a|
  {
    if a == [] {
      assert a + ":" + b == ":" + b;
    } else {
      assert (a + ":" + b)[1..] == a[1..] + ":" + b;
      FirstColonAfter(a[1..], b);
    }
  }

  /** Text up to the first colon determines both parts. */
  lemma ColonSplit(a: string, b: string, x: string, y: string)
    requires ':' !in a && ':' !in x
    requires a + ":" + b == x + ":" + y
    ensures a == x && b == y
  {
    var l, r := a + ":" + b, x + ":" + y;
    FirstColonAfter(a, b);
    FirstColonAfter(x, y);
    assert a == l[..|a|] && x == r[..|x|];
    assert b == l[|a| + 1..] && y == r[|x| + 1..];
  }

  /** Each builder is injective, the two-uid key included. */
  lemma KeysInjective(m: string, n: string, a: int, b: int, x: int, y: int)
    ensures MessageKey(m) == MessageKey(n) ==> m == n
    ensures UserMessagesKey(a) == UserMessagesKey(x) ==> a == x
    ensures ChatRelationKey(a) == ChatRelationKey(x) ==> a == x
    ensures UnreadKey(a, b) == UnreadKey(x, y) ==> a == x && b == y
  {
    if MessageKey(m) == MessageKey(n) {
      PrefixCancel("chat:msg:", m, n);
    }
    if UserMessagesKey(a) == UserMessagesKey(x) {
      PrefixCancel("chat:user_msgs:", Text(a), Text(x));
      TextInjective(a, x);
    }
    if ChatRelationKey(a) == ChatRelationKey(x) {
      PrefixCancel("chat:relation:", Text(a), Text(x));
      TextInjective(a, x);
    }
    if UnreadKey(a, b) == UnreadKey(x, y) {
      UnreadKeyInjective(a, b, x, y);
    }
  }

  lemma UnreadKeyParts(p: string, a: string, b: string)
    ensures p + a + ":" + b == p + (a + ":" + b)
  {
  }

  lemma UnreadKeyInjective(a: int, b: int, x: int, y: int)
    requires UnreadKey(a, b) == UnreadKey(x, y)
    ensures a == x && b == y
  {
    var s, t, u, v := Text(a), Text(b), Text(x), Text(y);
    UnreadKeyParts(UNREAD, s, t);
    UnreadKeyParts(UNREAD, u, v);
    PrefixCancel(UNREAD, s + ":" + t, u + ":" + v);
    TextHasNoColon(a);
    TextHasNoColon(x);
    ColonSplit(s, t, u, v);
    TextInjective(a, x);
    TextInjective(b, y);
  }

  /** No key belongs to two families, whatever the message id. */
  lemma KeyFamiliesDisjoint(m: string, a: int, b: int, x: int, y: int)
    ensures MessageKey(m) != UserMessagesKey(a)
    ensures MessageKey(m) != UnreadKey(a, b)
    ensures MessageKey(m) != ChatRelationKey(a)
    ensures UserMessagesKey(x) != UnreadKey(a, b)
    ensures UserMessagesKey(x) != ChatRelationKey(a)
    ensures UnreadKey(x, y) != ChatRelationKey(a)
  {
    assert MessageKey(m)[5] == 'm';
    assert UserMessagesKey(a)[5] == 'u' && UserMessagesKey(a)[6] == 's';
    assert UserMessagesKey(x)[5] == 'u' && UserMessagesKey(x)[6] == 's';
    assert UnreadKey(a, b)[5] == 'u' && UnreadKey(a, b)[6] == 'n';
    assert UnreadKey(x, y)[5] == 'u' && UnreadKey(x, y)[6] == 'n';
    assert ChatRelationKey(a)[5] == 'r';
  }
}
