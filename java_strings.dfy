/**
 * The few pieces of `java.lang.String` and `java.lang.Integer` that the
 * agent's configuration protocol relies on: `indexOf(char)`, `split` with a
 * one-character separator, `Integer.parseInt` and decimal printing of an int.
 */
module JavaStrings {
  import opened Wrappers

  /** Bounds of a Java `int`. */
  const MinInt: int := -0x8000_0000
  const MaxInt: int := 0x7FFF_FFFF

  // ---------------------------------------------------------------------
  // indexOf

  /** `s.indexOf(c)`: the position of the first `c`, or -1 when there is none. */
  function IndexOf(s: string, c: char): (r: int)
    ensures r == -1 <==> c !in s
    ensures r != -1 ==> 0 <= r < |s| && s[r] == c && c !in s[..r]
  {
    if |s| == 0 then -1
    else if s[0] == c then 0
    else
      var k := IndexOf(s[1..], c);
      assert c in s[1..] ==> c in s;
      if k == -1 then -1 else (assert s[..k + 1] == [s[0]] + s[1..][..k]; k + 1)
  }

  // ---------------------------------------------------------------------
  // split

  /** Glues the pieces back together with `c` between neighbours. */
  function Join(parts: seq<string>, c: char): string
    requires |parts| >= 1
  {
    if |parts| == 1 then parts[0] else parts[0] + [c] + Join(parts[1..], c)
  }

  /** Every piece between two separators, empty ones included (a split with a negative limit). */
  function SplitAll(s: string, c: char): (r: seq<string>)
    ensures |r| >= 1
    ensures forall i :: 0 <= i < |r| ==> c !in r[i]
    ensures Join(r, c) == s
    decreases |s|
  {
    var k := IndexOf(s, c);
    if k == -1 then [s]
    else
      var rest := SplitAll(s[k + 1..], c);
      assert s == s[..k] + [c] + s[k + 1..];
      [s[..k]] + rest
  }

  /** Drops the empty strings at the end of `parts`. */
  function StripTrailingEmpty(parts: seq<string>): (r: seq<string>)
    ensures |r| <= |parts| && r == parts[..|r|]
    ensures |r| == 0 || r[|r| - 1] != []
    ensures forall i :: |r| <= i < |parts| ==> parts[i] == []
  {
    if |parts| == 0 then []
    else if parts[|parts| - 1] == [] then StripTrailingEmpty(parts[..|parts| - 1])
    else parts
  }

  /**
   * `s.split(String.valueOf(c))` for a separator that is not a regular
   * expression metacharacter: with no separator in `s` the result is `[s]`,
   * even for the empty string; otherwise the pieces between separators with
   * the trailing empty ones removed (so `","` splits into no pieces at all).
   */
  function Split(s: string, c: char): seq<string>
  {
    if c !in s then [s] else StripTrailingEmpty(SplitAll(s, c))
  }

  lemma {:induction false} SplitAllOfJoin(parts: seq<string>, c: char)
    requires |parts| >= 1
    requires forall i :: 0 <= i < |parts| ==> c !in parts[i]
    ensures SplitAll(Join(parts, c), c) == parts
    decreases |parts|
  {
    if |parts| > 1 {
      var s := Join(parts, c);
      var tail := Join(parts[1..], c);
      assert s == parts[0] + [c] + tail;
      assert s[|parts[0]|] == c;
      assert s[..|parts[0]|] == parts[0];
      assert IndexOf(s, c) == |parts[0]|;
      assert s[|parts[0]| + 1..] == tail;
      SplitAllOfJoin(parts[1..], c);
    }
  }

  /** Splitting undoes `Join` as long as no piece holds the separator and the last piece is not empty. */
  lemma SplitOfJoin(parts: seq<string>, c: char)
    requires |parts| >= 1
    requires forall i :: 0 <= i < |parts| ==> c !in parts[i]
    requires |parts| == 1 || parts[|parts| - 1] != []
    ensures Split(Join(parts, c), c) == parts
  {
    if |parts| > 1 {
      assert Join(parts, c)[|parts[0]|] == c;
      SplitAllOfJoin(parts, c);
    }
  }

  /** The pieces `Split` returns are those of `SplitAll`, minus trailing empty ones; none holds `c`. */
  lemma SplitMeaning(s: string, c: char)
    ensures forall i :: 0 <= i < |Split(s, c)| ==> c !in Split(s, c)[i]
    ensures c !in s ==> Split(s, c) == [s]
    ensures c in s ==> Split(s, c) == StripTrailingEmpty(SplitAll(s, c))
    ensures forall i :: 0 <= i < |SplitAll(s, c)| && SplitAll(s, c)[i] != [] ==>
              i < |Split(s, c)| && Split(s, c)[i] == SplitAll(s, c)[i]
  {
    if c !in s {
      assert SplitAll(s, c) == [s];
    }
  }

  // ---------------------------------------------------------------------
  // Integer.parseInt and Integer.toString

  predicate IsDigit(ch: char) { '0' <= ch <= '9' }

  predicate AllDigits(s: string) { forall i :: 0 <= i < |s| ==> IsDigit(s[i]) }

  /** The value of a string of decimal digits, most significant first. */
  function DigitsValue(s: string): (r: nat)
    requires AllDigits(s)
  {
    if |s| == 0 then 0 else DigitsValue(s[..|s| - 1]) * 10 + (s[|s| - 1] - '0') as int
  }

  /** The decimal digits of `n`, without leading zeros. */
  function NatDigits(n: nat): (r: string)
    ensures |r| >= 1 && AllDigits(r)
    ensures |r| > 1 ==> r[0] != '0'
  {
    if n < 10 then [('0' as int + n) as char]
    else NatDigits(n / 10) + [('0' as int + n % 10) as char]
  }

  /** `Integer.toString(n)` and `"" + n`: an optional minus sign, then the digits. */
  function IntToString(n: int): string
  {
    if n < 0 then "-" + NatDigits(0 - n) else NatDigits(n)
  }

  /**
   * `Integer.parseInt(s)`: an optional `-` or `+`, then at least one digit,
   * and the value must fit in an `int`. `None` stands for the
   * `NumberFormatException` thrown otherwise.
   */
  function ParseInt(s: string): (r: Option<int>)
    ensures r.Some? ==> MinInt <= r.value <= MaxInt
    ensures r.Some? ==> |s| >= 1
  {
    if |s| == 0 then None
    else
      var digits := if s[0] == '-' || s[0] == '+' then s[1..] else s;
      if |digits| == 0 || !AllDigits(digits) then None
      else
        var v: int := if s[0] == '-' then 0 - DigitsValue(digits) as int else DigitsValue(digits);
        if MinInt <= v <= MaxInt then Some(v) else None
  }

  lemma {:induction false} DigitsOfNat(n: nat)
    ensures DigitsValue(NatDigits(n)) == n
  {
    if n >= 10 {
      var d := NatDigits(n);
      assert d[..|d| - 1] == NatDigits(n / 10);
      DigitsOfNat(n / 10);
    }
  }

  /** Parsing the printed form of an `int` gives the `int` back. */
  lemma ParseIntOfIntToString(n: int)
    requires MinInt <= n <= MaxInt
    ensures ParseInt(IntToString(n)) == Some(n)
  {
    var s := IntToString(n);
    if n < 0 {
      var d := NatDigits(-n);
      DigitsOfNat(-n);
      assert s[0] == '-' && s[1..] == d;
      assert DigitsValue(s[1..]) == -n;
    } else {
      var d := NatDigits(n);
      DigitsOfNat(n);
      assert s == d && IsDigit(s[0]);
    }
  }

  /** A printed number holds no separator used by the protocol. */
  lemma IntToStringHasNoSeparator(n: int, c: char)
    requires c != '-' && !IsDigit(c)
    ensures c !in IntToString(n)
  {
    var d := NatDigits(if n < 0 then -n else n);
    assert c !in d;
  }
}
