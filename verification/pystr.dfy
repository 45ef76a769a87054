/** The Python 2 string operations the scraper relies on, over `string`
    (`seq<char>`): slicing, `str.find`, `str.count`, `str.replace` with an
    empty replacement, `str.translate` with a deletion set, `str.split`,
    `str.join` and `str(n)` for a natural number. */
module PyStr {

  /** `string.whitespace` of Python 2. */
  const Whitespace: set<char> := {' ', '\t', '\n', '\r', '\U{B}', '\U{C}'}

  /** Python's normalisation of a slice bound `i` for a sequence of length `n`:
      a negative bound counts from the end, and the result is clamped to `[0, n]`. */
  function SliceBound(i: int, n: nat): (k: nat)
    ensures k <= n
    ensures 0 <= i <= n ==> k == i
    ensures i < 0 && n + i >= 0 ==> k == n + i
    ensures i > n ==> k == n
    ensures n + i < 0 ==> k == 0
  {
    if i < 0 then (if n + i < 0 then 0 else n + i)
    else if i > n then n
    else i
  }

  /** `s[lo:hi]` for integer bounds: the characters from the normalised
      lower bound up to the normalised upper one, none when they cross. */
  function Slice(s: string, lo: int, hi: int): (r: string)
    ensures SliceBound(lo, |s|) + |r| <= |s|
    ensures |r| == if SliceBound(lo, |s|) < SliceBound(hi, |s|)
                   then SliceBound(hi, |s|) - SliceBound(lo, |s|) else 0
    ensures forall i :: 0 <= i < |r| ==> r[i] == s[SliceBound(lo, |s|) + i]
  {
    var a := SliceBound(lo, |s|);
    var b := SliceBound(hi, |s|);
    if a < b then s[a..b] else []
  }

  /** Index of the first `c` in `s`; `|s|` when there is none
      (`str.find`, with `len(s)` standing for Python's `-1`). */
  function FirstIndex(s: string, c: char): (k: nat)
    ensures k <= |s|
    ensures k < |s| ==> s[k] == c
    ensures c !in s[..k]
    ensures k == |s| <==> c !in s
  {
    if |s| == 0 then 0
    else if s[0] == c then 0
    else
      var k := 1 + FirstIndex(s[1..], c);
      assert s[..k] == [s[0]] + s[1..][..k - 1];
      k
  }

  /** Every character is encodable by Python 2's ASCII codec (code point
      below 128), which `unicode.encode('ascii')` and the implicit conversion
      of a unicode value to `str` demand. */
  predicate Ascii(s: string) {
    forall i :: 0 <= i < |s| ==> s[i] <= '\U{7F}'
  }

  /** `s.count(c)` for a one-character needle. */
  function Count(s: string, c: char): (n: nat)
    ensures n <= |s|
    ensures n == 0 <==> c !in s
  {
    if |s| == 0 then 0
    else
      assert s == [s[0]] + s[1..];
      (if s[0] == c then 1 else 0) + Count(s[1..], c)
  }

  /** `s` with every character of `drop` deleted, order kept: both
      `s.replace(c, "")` for a one-character `c` (with `drop == {c}`) and
      `s.translate(None, chars)` (with `drop` the characters of `chars`). */
  function Without(s: string, drop: set<char>): (r: string)
    ensures |r| <= |s|
    ensures forall x :: x in r <==> x in s && x !in drop
  {
    if |s| == 0 then []
    else
      assert s == [s[0]] + s[1..];
      (if s[0] in drop then [] else [s[0]]) + Without(s[1..], drop)
  }

  /** `s.split(c)` for a one-character separator: the pieces between
      consecutive separators, empty pieces included. */
  function Split(s: string, c: char): (fields: seq<string>)
    ensures |fields| == Count(s, c) + 1
    ensures forall i :: 0 <= i < |fields| ==> c !in fields[i]
    ensures forall i, x :: 0 <= i < |fields| && x in fields[i] ==> x in s
    decreases |s|
  {
    var k := FirstIndex(s, c);
    if k == |s| then [s]
    else
      var rest := Split(s[k + 1..], c);
      SplitStep(s, k, c, rest);
      [s[..k]] + rest
  }

  /** `c.join(fields)`. */
  function Join(fields: seq<string>, c: char): string
  {
    if |fields| == 0 then []
    else if |fields| == 1 then fields[0]
    else fields[0] + [c] + Join(fields[1..], c)
  }

  /** `str(n)`: the decimal digits of `n`, without leading zeros. */
  function Decimal(n: nat): (r: string)
    ensures |r| >= 1
    ensures forall i :: 0 <= i < |r| ==> '0' <= r[i] <= '9'
    ensures r[0] == '0' ==> n == 0
  {
    if n < 10 then [Digit(n)]
    else Decimal(n / 10) + [Digit(n % 10)]
  }

  function Digit(d: nat): (c: char)
    requires d < 10
    ensures '0' <= c <= '9'
  {
    ['0', '1', '2', '3', '4', '5', '6', '7', '8', '9'][d]
  }

  /** `int(s)` for a non-empty string of decimal digits. */
  function ParseDecimal(s: string): nat
    requires forall i :: 0 <= i < |s| ==> '0' <= s[i] <= '9'
  {
    if |s| == 0 then 0
    else 10 * ParseDecimal(s[..|s| - 1]) + (s[|s| - 1] as int - '0' as int)
  }

  // ---------------------------------------------------------------------
  // Lemmas

  lemma {:induction false} CountAppend(a: string, b: string, c: char)
    ensures Count(a + b, c) == Count(a, c) + Count(b, c)
    decreases |a|
  {
    if |a| == 0 {
      assert a + b == b;
    } else {
      assert (a + b)[1..] == a[1..] + b;
      CountAppend(a[1..], b, c);
    }
  }

  /** Counting around an occurrence of `c` at `k`. */
  lemma CountAround(s: string, k: nat, c: char)
    requires k < |s| && s[k] == c
    ensures Count(s, c) == Count(s[..k], c) + 1 + Count(s[k + 1..], c)
  {
    CountAppend(s[..k], [c] + s[k + 1..], c);
    CountAppend([c], s[k + 1..], c);
    assert s == s[..k] + ([c] + s[k + 1..]);
  }

  /** The pieces of a split at the first separator `k`: the text before it,
      then the pieces `rest` of the text after it. */
  lemma SplitStep(s: string, k: nat, c: char, rest: seq<string>)
    requires k < |s| && s[k] == c && c !in s[..k]
    requires |rest| == Count(s[k + 1..], c) + 1
    requires forall i :: 0 <= i < |rest| ==> c !in rest[i]
    requires forall i, x :: 0 <= i < |rest| && x in rest[i] ==> x in s[k + 1..]
    ensures |[s[..k]] + rest| == Count(s, c) + 1
    ensures forall i :: 0 <= i < |[s[..k]] + rest| ==> c !in ([s[..k]] + rest)[i]
    ensures forall i, x :: 0 <= i < |[s[..k]] + rest| && x in ([s[..k]] + rest)[i] ==> x in s
  {
    CountAround(s, k, c);
    assert forall x :: x in s[..k] ==> x in s;
    assert forall x :: x in s[k + 1..] ==> x in s;
  }

  /** The `[19:-1]` slice the link decoder takes: empty for strings of at most
      20 characters, otherwise everything but the first 19 and the last one. */
  lemma DropEnds(s: string)
    ensures |s| <= 20 ==> Slice(s, 19, -1) == []
    ensures |s| > 20 ==> Slice(s, 19, -1) == s[19..|s| - 1]
  {
  }

  lemma {:induction false} WithoutAppend(a: string, b: string, drop: set<char>)
    ensures Without(a + b, drop) == Without(a, drop) + Without(b, drop)
    decreases |a|
  {
    if |a| == 0 {
      assert a + b == b;
    } else {
      assert (a + b)[1..] == a[1..] + b;
      WithoutAppend(a[1..], b, drop);
    }
  }

  /** Deleting characters that do not occur changes nothing. */
  lemma {:induction false} WithoutNothing(s: string, drop: set<char>)
    requires forall i :: 0 <= i < |s| ==> s[i] !in drop
    ensures Without(s, drop) == s
    decreases |s|
  {
    if |s| > 0 {
      WithoutNothing(s[1..], drop);
    }
  }

  /** Deleting in two passes is deleting the union in one. */
  lemma {:induction false} WithoutTwice(s: string, d1: set<char>, d2: set<char>)
    ensures Without(Without(s, d1), d2) == Without(s, d1 + d2)
    decreases |s|
  {
    if |s| > 0 {
      var head := if s[0] in d1 then [] else [s[0]];
      WithoutAppend(head, Without(s[1..], d1), d2);
      WithoutTwice(s[1..], d1, d2);
    }
  }

  /** Splitting and re-joining with the same separator gives back the string. */
  lemma {:induction false} JoinSplit(s: string, c: char)
    ensures Join(Split(s, c), c) == s
    decreases |s|
  {
    var k := FirstIndex(s, c);
    if k < |s| {
      var rest := s[k + 1..];
      var tail := Split(rest, c);
      JoinSplit(rest, c);
      JoinAround(s, k, c, tail);
      assert Split(s, c) == [s[..k]] + tail;
    }
  }

  /** Joining the text before position `k` with pieces that join to the text
      after it restores the whole, when `c` stands at `k`. */
  lemma JoinAround(s: string, k: nat, c: char, tail: seq<string>)
    requires k < |s| && s[k] == c
    requires |tail| >= 1 && Join(tail, c) == s[k + 1..]
    ensures Join([s[..k]] + tail, c) == s
  {
    JoinCons(s[..k], tail, c);
    assert s == s[..k] + [c] + s[k + 1..];
  }

  lemma JoinCons(head: string, tail: seq<string>, c: char)
    requires |tail| >= 1
    ensures Join([head] + tail, c) == head + [c] + Join(tail, c)
  {
    assert ([head] + tail)[1..] == tail;
  }

  /** A character other than the separator occurs in a join exactly when
      it occurs in one of the pieces. */
  lemma {:induction false} JoinChars(fields: seq<string>, c: char, x: char)
    requires x != c
    ensures x in Join(fields, c) <==> exists i :: 0 <= i < |fields| && x in fields[i]
    decreases |fields|
  {
    if |fields| > 1 {
      var tail := fields[1..];
      JoinChars(tail, c, x);
      assert forall i :: 0 < i < |fields| ==> fields[i] == tail[i - 1];
      assert x in Join(fields, c) <==> x in fields[0] || x in Join(tail, c);
      if x in Join(tail, c) {
        var i :| 0 <= i < |tail| && x in tail[i];
        assert x in fields[i + 1];
      }
    }
  }

  /** `k` is the first index of `c` when `c` stands there and nowhere before. */
  lemma FirstIndexIs(s: string, c: char, k: nat)
    requires k < |s| && s[k] == c
    requires c !in s[..k]
    ensures FirstIndex(s, c) == k
  {
  }

  /** The first separator of `a + [c] + t` is the one after `a` when `a` has none. */
  lemma FirstIndexAfter(a: string, c: char, t: string)
    requires c !in a
    ensures FirstIndex(a + [c] + t, c) == |a|
  {
    var s := a + [c] + t;
    var k := FirstIndex(s, c);
    assert s[|a|] == c;
    assert s[..|a|] == a;
  }

  /** Splitting `a + [c] + t`, where `a` has no separator, yields `a` and then the pieces of `t`. */
  lemma SplitAfter(a: string, c: char, t: string)
    requires c !in a
    ensures Split(a + [c] + t, c) == [a] + Split(t, c)
  {
    var s := a + [c] + t;
    FirstIndexAfter(a, c, t);
    assert s[..|a|] == a;
    assert s[|a| + 1..] == t;
  }

  /** The first piece of a split runs up to the first separator; when there
      is a separator, the other pieces are those of the text after it. */
  lemma SplitFirst(s: string, c: char)
    ensures Split(s, c)[0] == s[..FirstIndex(s, c)]
    ensures FirstIndex(s, c) < |s| ==> Split(s, c)[1..] == Split(s[FirstIndex(s, c) + 1..], c)
  {
  }

  /** With a separator present, the second piece runs from just after the
      first separator up to the next one, or the end. */
  lemma SplitSecond(s: string, c: char)
    requires c in s
    ensures |Split(s, c)| >= 2
    ensures Split(s, c)[1] == s[FirstIndex(s, c) + 1..][..FirstIndex(s[FirstIndex(s, c) + 1..], c)]
  {
    var k := FirstIndex(s, c);
    var rest := s[k + 1..];
    SplitFirst(s, c);
    SplitFirst(rest, c);
    var parts := Split(s, c);
    assert parts[1..] == Split(rest, c);
    assert parts[1] == parts[1..][0];
  }

  /** Joining separator-free pieces and splitting again gives back the pieces. */
  lemma {:induction false} SplitJoin(fields: seq<string>, c: char)
    requires |fields| >= 1
    requires forall i :: 0 <= i < |fields| ==> c !in fields[i]
    ensures Split(Join(fields, c), c) == fields
    decreases |fields|
  {
    if |fields| == 1 {
      assert c !in fields[0];
      assert FirstIndex(fields[0], c) == |fields[0]|;
    } else {
      var tail := fields[1..];
      assert forall i :: 0 <= i < |tail| ==> c !in tail[i] by {
        forall i | 0 <= i < |tail| ensures c !in tail[i] {
          assert tail[i] == fields[i + 1];
        }
      }
      var rest := Join(tail, c);
      assert Join(fields, c) == fields[0] + [c] + rest;
      assert c !in fields[0];
      SplitAfter(fields[0], c, rest);
      SplitJoin(tail, c);
      assert fields == [fields[0]] + tail;
    }
  }

  lemma {:induction false} DecimalRoundTrip(n: nat)
    ensures ParseDecimal(Decimal(n)) == n
    decreases n
  {
    var r := Decimal(n);
    if n < 10 {
      assert r[|r| - 1] as int - '0' as int == n;
    } else {
      DecimalRoundTrip(n / 10);
      assert r[..|r| - 1] == Decimal(n / 10);
      assert r[|r| - 1] as int - '0' as int == n % 10;
    }
  }
}
