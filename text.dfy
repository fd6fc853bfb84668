/** String helpers shared by the plugin's modules: Python's `str.lower`,
    `sep.join`, `str.split(sep)`, substring tests and `"%s" % n` for a count. */
module Text {

  /** Lower-casing of one character, restricted to ASCII letters. */
  function LowerChar(c: char): (r: char)
    ensures 'A' <= c <= 'Z' ==> 'a' <= r <= 'z' && r as int == c as int + 32
    ensures !('A' <= c <= 'Z') ==> r == c
  {
    if 'A' <= c <= 'Z' then (c as int + 32) as char else c
  }

  /** `s.lower()` on ASCII text. */
  function Lower(s: string): (r: string)
    ensures |r| == |s|
    ensures forall i :: 0 <= i < |s| ==> r[i] == LowerChar(s[i])
  {
    if s == [] then [] else [LowerChar(s[0])] + Lower(s[1..])
  }

  /** No upper-case ASCII letter occurs in `s`. */
  predicate IsLowerCase(s: string)
  {
    forall i :: 0 <= i < |s| ==> !('A' <= s[i] <= 'Z')
  }

  /** Lower-casing changes nothing in a string without upper-case letters,
      and it always yields such a string. */
  lemma {:induction false} LowerFixesLowerCase(s: string)
    ensures IsLowerCase(Lower(s))
    ensures IsLowerCase(s) <==> Lower(s) == s
  {
    if s != [] {
      LowerFixesLowerCase(s[1..]);
      if Lower(s) == s {
        assert forall i :: 0 <= i < |s| ==> s[i] == LowerChar(s[i]);
      }
    }
  }

  /** Lower-casing a capitalised word only changes its first letter. */
  lemma LowerCapitalised(s: string)
    requires s != [] && IsLowerCase(s[1..])
    ensures Lower(s) == [LowerChar(s[0])] + s[1..]
  {
    LowerFixesLowerCase(s[1..]);
  }

  /** Lower-casing is idempotent. */
  lemma LowerIdempotent(s: string)
    ensures Lower(Lower(s)) == Lower(s)
  {
    LowerFixesLowerCase(s);
    LowerFixesLowerCase(Lower(s));
  }

  /** Two strings that differ at most in the case of their letters. */
  predicate SameIgnoringCase(a: string, b: string)
  {
    |a| == |b| && forall i :: 0 <= i < |a| ==> LowerChar(a[i]) == LowerChar(b[i])
  }

  lemma SameIgnoringCaseLower(a: string, b: string)
    requires SameIgnoringCase(a, b)
    ensures Lower(a) == Lower(b)
  {
  }

  /** `sep.join(xs)`. */
  function Join(sep: string, xs: seq<string>): string
  {
    if |xs| == 0 then ""
    else if |xs| == 1 then xs[0]
    else xs[0] + sep + Join(sep, xs[1..])
  }

  /** Joining one more part appends the separator and the part. */
  lemma {:induction false} JoinSnoc(sep: string, xs: seq<string>, x: string)
    requires |xs| >= 1
    ensures Join(sep, xs + [x]) == Join(sep, xs) + sep + x
  {
    if |xs| == 1 {
      assert (xs + [x])[1..] == [x];
    } else {
      JoinSnoc(sep, xs[1..], x);
      assert (xs + [x])[1..] == xs[1..] + [x];
    }
  }

  /** Position of the first occurrence of `c` in `s`, or `|s|` when absent. */
  function IndexOf(s: string, c: char): (k: nat)
    ensures k <= |s|
    ensures forall i :: 0 <= i < k ==> s[i] != c
    ensures k < |s| ==> s[k] == c
  {
    if s == [] then 0
    else if s[0] == c then 0
    else 1 + IndexOf(s[1..], c)
  }

  /** `s.split(c)` for a one-character separator. */
  function Split(s: string, c: char): (r: seq<string>)
    ensures |r| >= 1
    decreases |s|
  {
    var k := IndexOf(s, c);
    if k == |s| then [s] else [s[..k]] + Split(s[k + 1..], c)
  }

  lemma IndexOfAfterFree(x: string, c: char, y: string)
    requires c !in x
    ensures IndexOf(x + [c] + y, c) == |x|
  {
    if x != [] {
      assert (x + [c] + y)[1..] == x[1..] + [c] + y;
      IndexOfAfterFree(x[1..], c, y);
    }
  }

  /** Splitting at a separator that occurs: the part before it, then the rest split. */
  lemma SplitAtFirst(s: string, c: char)
    requires IndexOf(s, c) < |s|
    ensures Split(s, c) == [s[..IndexOf(s, c)]] + Split(s[IndexOf(s, c) + 1..], c)
  {
  }

  /** Splitting a join on its one-character separator gives the parts back,
      provided no part contains the separator. */
  lemma {:induction false} SplitJoin(xs: seq<string>, c: char)
    requires |xs| >= 1
    requires forall i :: 0 <= i < |xs| ==> c !in xs[i]
    ensures Split(Join([c], xs), c) == xs
  {
    var x := xs[0];
    assert c !in x;
    if |xs| == 1 {
      assert IndexOf(x, c) == |x|;
    } else {
      var tail := xs[1..];
      forall i | 0 <= i < |tail| ensures c !in tail[i] {
        assert tail[i] == xs[i + 1];
      }
      SplitJoin(tail, c);
      var rest := Join([c], tail);
      var s := x + [c] + rest;
      assert Join([c], xs) == s;
      IndexOfAfterFree(x, c, rest);
      SplitAtFirst(s, c);
      assert s[..|x|] == x;
      assert s[|x| + 1..] == rest;
      assert xs == [x] + tail;
    }
  }

  /** `sub in s` for Python strings. */
  predicate Contains(s: string, sub: string)
    decreases |s|
  {
    sub <= s || (s != [] && Contains(s[1..], sub))
  }

  /** Case-insensitive containment, as Qt matches items by default. */
  predicate ContainsIgnoringCase(s: string, sub: string)
  {
    Contains(Lower(s), Lower(sub))
  }

  function DigitChar(d: nat): (c: char)
    requires d < 10
    ensures '0' <= c <= '9'
  {
    ('0' as int + d) as char
  }

  /** The decimal representation of `n`, as `"%s" % n` gives it: digits
      only, without a leading zero. */
  function NatToString(n: nat): (r: string)
    ensures 1 <= |r| && IsDigits(r)
    ensures n < 10 <==> |r| == 1
    ensures n >= 10 ==> r[0] != '0'
  {
    if n < 10 then [DigitChar(n)] else NatToString(n / 10) + [DigitChar(n % 10)]
  }

  predicate IsDigits(s: string)
  {
    forall i :: 0 <= i < |s| ==> '0' <= s[i] <= '9'
  }

  /** The number a string of decimal digits denotes. */
  function DigitsValue(s: string): nat
    requires IsDigits(s)
  {
    if s == [] then 0
    else 10 * DigitsValue(s[..|s| - 1]) + (s[|s| - 1] as int - '0' as int)
  }

  /** The digits NatToString writes denote the number written. */
  lemma {:induction false} NatToStringValue(n: nat)
    ensures DigitsValue(NatToString(n)) == n
  {
    var r := NatToString(n);
    if n >= 10 {
      NatToStringValue(n / 10);
      assert r[..|r| - 1] == NatToString(n / 10);
    }
  }
}
