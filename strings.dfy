/**
 * The string operations the storefront relies on: `Number.prototype.toString()`
 * for non-negative integers, `toFixed(2)` on an amount held in cents,
 * `String.prototype.slice(-k)`, `Array.prototype.join` and
 * `String.prototype.split` with a one-character separator.
 */
module Strings {

  predicate IsDigit(c: char) {
    '0' <= c <= '9'
  }

  predicate AllDigits(s: string) {
    forall i :: 0 <= i < |s| ==> IsDigit(s[i])
  }

  function DigitChar(d: nat): (c: char)
    requires d < 10
    ensures IsDigit(c) && c as int - '0' as int == d
  {
    ['0', '1', '2', '3', '4', '5', '6', '7', '8', '9'][d]
  }

  function DigitValue(c: char): (d: nat)
    requires IsDigit(c)
    ensures d < 10 && DigitChar(d) == c
  {
    (c as int - '0' as int) as nat
  }

  /** `n.toString()` for a non-negative integer: decimal digits, no leading zero. */
  function Decimal(n: nat): (r: string)
    ensures |r| >= 1 && AllDigits(r)
    ensures r[0] == '0' ==> n == 0
  {
    if n < 10 then [DigitChar(n)] else Decimal(n / 10) + [DigitChar(n % 10)]
  }

  /** The value of a string of decimal digits (the empty string reads as 0, a non-digit as 0). */
  function ParseDecimal(s: string): nat {
    if s == [] then 0
    else ParseDecimal(s[..|s| - 1]) * 10 + (if IsDigit(s[|s| - 1]) then DigitValue(s[|s| - 1]) else 0)
  }

  lemma {:induction false} DecimalRoundTrip(n: nat)
    ensures ParseDecimal(Decimal(n)) == n
  {
    var s := Decimal(n);
    if n >= 10 {
      assert s[..|s| - 1] == Decimal(n / 10);
      DecimalRoundTrip(n / 10);
    }
  }

  /** `(cents / 100).toFixed(2)`: whole units, a point, and exactly two digits of cents. */
  function Money(cents: int): (r: string)
    ensures |r| >= 4
    ensures ',' !in r && '\n' !in r
    ensures cents >= 0 ==> AllDigits(r[..|r| - 3]) && r[|r| - 3] == '.' && AllDigits(r[|r| - 2..])
    decreases if cents < 0 then 1 else 0
  {
    if cents < 0 then "-" + Money(-cents)
    else Decimal(cents / 100) + "." + [DigitChar(cents % 100 / 10), DigitChar(cents % 10)]
  }

  /** Reads back an amount written by `Money`. */
  function ParseMoney(s: string): int {
    if |s| >= 1 && s[0] == '-' then -ParseMoney(s[1..])
    else if |s| < 3 then 0
    else ParseDecimal(s[..|s| - 3]) * 100 + ParseDecimal(s[|s| - 2..])
  }

  lemma ParseTwoDigits(x: nat, y: nat)
    requires x < 10 && y < 10
    ensures ParseDecimal([DigitChar(x), DigitChar(y)]) == x * 10 + y
  {
    var s := [DigitChar(x), DigitChar(y)];
    assert s[..1] == [DigitChar(x)];
    assert s[..1][..0] == [];
    assert DigitValue(DigitChar(x)) == x && DigitValue(DigitChar(y)) == y;
    assert ParseDecimal(s[..1]) == x;
  }

  lemma {:induction false} ShiftMod(x: nat, t: nat)
    ensures (10 * x + t) % 10 == t % 10
  {
    if x > 0 {
      ShiftMod(x - 1, t);
      assert 10 * x + t == (10 * (x - 1) + t) + 10;
    }
  }

  /** The last two digits of `c` read back as `c % 100`. */
  lemma TwoDigits(c: nat)
    ensures ParseDecimal([DigitChar(c % 100 / 10), DigitChar(c % 10)]) == c % 100
  {
    var t := c % 100;
    assert c == 10 * (10 * (c / 100)) + t;
    ShiftMod(10 * (c / 100), t);
    assert c % 10 == t % 10;
    ParseTwoDigits(t / 10, t % 10);
  }

  lemma UnsignedMoneyRoundTrip(cents: nat)
    ensures ParseMoney(Money(cents)) == cents
  {
    var s := Money(cents);
    var w := Decimal(cents / 100);
    var d := [DigitChar(cents % 100 / 10), DigitChar(cents % 10)];
    assert s == w + "." + d;
    assert s[0] != '-';
    assert s[..|s| - 3] == w;
    assert s[|s| - 2..] == d;
    DecimalRoundTrip(cents / 100);
    TwoDigits(cents);
  }

  /** A leading minus sign negates the amount read after it. */
  lemma ParseNegated(m: string)
    ensures ParseMoney("-" + m) == -ParseMoney(m)
  {
    assert ("-" + m)[0] == '-';
    assert ("-" + m)[1..] == m;
  }

  /** `Money` loses nothing: the amount in cents can be read back from the text. */
  lemma MoneyRoundTrip(cents: int)
    ensures ParseMoney(Money(cents)) == cents
  {
    if cents < 0 {
      var m := Money(-cents);
      UnsignedMoneyRoundTrip(-cents);
      ParseNegated(m);
      assert Money(cents) == "-" + m;
    } else {
      UnsignedMoneyRoundTrip(cents);
    }
  }

  /**
   * `s.slice(-k)` for a positive `k`: the last `k` characters, or the whole
   * string when it is shorter. (`slice(-0)` is the whole string, so `k` = 0
   * is excluded.)
   */
  function SliceFromEnd(s: string, k: nat): (r: string)
    requires k > 0
    ensures |r| == if |s| < k then |s| else k
    ensures s == s[..|s| - |r|] + r
  {
    if |s| < k then s else s[|s| - k..]
  }

  /** `parts.join(sep)`: the parts with one separator between neighbours; `[]` joins to "". */
  function Join(parts: seq<string>, sep: char): string {
    if |parts| == 0 then ""
    else if |parts| == 1 then parts[0]
    else parts[0] + [sep] + Join(parts[1..], sep)
  }

  /** A joined text starts with the first part and ends with the last. */
  lemma {:induction false} JoinEnds(parts: seq<string>, sep: char)
    requires |parts| >= 1
    ensures |Join(parts, sep)| >= |parts[0]| && Join(parts, sep)[..|parts[0]|] == parts[0]
    ensures |Join(parts, sep)| >= |parts[|parts| - 1]|
    ensures Join(parts, sep)[|Join(parts, sep)| - |parts[|parts| - 1]|..] == parts[|parts| - 1]
  {
    if |parts| > 1 {
      var rest := Join(parts[1..], sep);
      JoinEnds(parts[1..], sep);
      var r := parts[0] + [sep] + rest;
      assert r[|r| - |rest|..] == rest;
    }
  }

  /** The position of the first `c` in `s`. */
  function IndexOf(s: string, c: char): (i: nat)
    requires c in s
    ensures i < |s| && s[i] == c && c !in s[..i]
  {
    if s[0] == c then 0 else 1 + IndexOf(s[1..], c)
  }

  /** `s.split(sep)`: the pieces between separators, one more piece than there are separators. */
  function Split(s: string, sep: char): (r: seq<string>)
    ensures |r| >= 1
    ensures forall i :: 0 <= i < |r| ==> sep !in r[i]
    decreases |s|
  {
    if sep !in s then [s]
    else
      var i := IndexOf(s, sep);
      [s[..i]] + Split(s[i + 1..], sep)
  }

  /** Splitting a joined list gives the list back when no part holds the separator. */
  lemma {:induction false} SplitJoin(parts: seq<string>, sep: char)
    requires |parts| >= 1
    requires forall i :: 0 <= i < |parts| ==> sep !in parts[i]
    ensures Split(Join(parts, sep), sep) == parts
  {
    if |parts| > 1 {
      var p := parts[0];
      var rest := Join(parts[1..], sep);
      var s := p + [sep] + rest;
      SplitAtFirst(p, rest, sep);
      assert Split(s, sep) == [p] + Split(rest, sep);
      SplitJoin(parts[1..], sep);
      assert [parts[0]] + parts[1..] == parts;
    }
  }

  /** The first separator of `p + [sep] + rest` is the one after `p`, when `p` holds none. */
  lemma SplitAtFirst(p: string, rest: string, sep: char)
    requires sep !in p
    ensures Split(p + [sep] + rest, sep) == [p] + Split(rest, sep)
  {
    var s := p + [sep] + rest;
    assert s[|p|] == sep;
    assert forall j :: 0 <= j < |p| ==> s[j] == p[j];
    var i := IndexOf(s, sep);
    assert i == |p|;
    assert s[..i] == p;
    assert s[i + 1..] == rest;
  }

  /** Joining the pieces of a split gives the string back. */
  lemma {:induction false} JoinSplit(s: string, sep: char)
    ensures Join(Split(s, sep), sep) == s
    decreases |s|
  {
    if sep in s {
      var i := IndexOf(s, sep);
      var tail := Split(s[i + 1..], sep);
      var r := [s[..i]] + tail;
      assert r[1..] == tail;
      JoinSplit(s[i + 1..], sep);
      assert s == s[..i] + [sep] + s[i + 1..];
    }
  }

  /** A part that holds one separator reads as two parts once joined. */
  lemma {:induction false} JoinSplitsPart(front: seq<string>, a: string, b: string, back: seq<string>, sep: char)
    ensures Join(front + [a + [sep] + b] + back, sep) == Join(front + [a, b] + back, sep)
  {
    if front == [] {
      assert front + [a + [sep] + b] + back == [a + [sep] + b] + back;
      assert front + [a, b] + back == [a, b] + back;
      assert ([a, b] + back)[1..] == [b] + back;
      if back == [] {
        assert ([b] + back) == [b];
      } else {
        assert ([a + [sep] + b] + back)[1..] == back;
        assert ([b] + back)[1..] == back;
      }
    } else {
      assert (front + [a + [sep] + b] + back)[1..] == front[1..] + [a + [sep] + b] + back;
      assert (front + [a, b] + back)[1..] == front[1..] + [a, b] + back;
      JoinSplitsPart(front[1..], a, b, back, sep);
    }
  }

  /** A character that is neither the separator nor in any part is not in the joined text. */
  lemma {:induction false} JoinAvoids(parts: seq<string>, sep: char, c: char)
    requires c != sep
    requires forall i :: 0 <= i < |parts| ==> c !in parts[i]
    ensures c !in Join(parts, sep)
  {
    if |parts| > 1 {
      JoinAvoids(parts[1..], sep, c);
    }
  }

  lemma JoinCons(head: string, rest: seq<string>, sep: char)
    requires |rest| > 0
    ensures Join([head] + rest, sep) == head + [sep] + Join(rest, sep)
  {
    assert ([head] + rest)[1..] == rest;
  }

  /** A first line followed by joined lines splits back into that line and those lines. */
  lemma SplitHeadAndJoin(head: string, rest: seq<string>, sep: char)
    requires |rest| > 0
    requires sep !in head
    requires forall i :: 0 <= i < |rest| ==> sep !in rest[i]
    ensures Split(head + [sep] + Join(rest, sep), sep) == [head] + rest
  {
    JoinCons(head, rest, sep);
    SplitJoin([head] + rest, sep);
  }
}
