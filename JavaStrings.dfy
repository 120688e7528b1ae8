/** The few `java.lang.String` operations the service and the interceptor use,
    on `seq<char>`. Case mapping covers ASCII letters only. */
module JavaStrings {

  /** `s.replaceAll(c, "")` for a one-character pattern: every `c` removed. */
  function RemoveAll(s: string, c: char): (r: string)
    ensures c !in r
    ensures |r| <= |s|
    ensures forall x | x != c :: x in r <==> x in s
    ensures c !in s ==> r == s
  {
    if s == [] then []
    else if s[0] == c then RemoveAll(s[1..], c)
    else [s[0]] + RemoveAll(s[1..], c)
  }

  /** Removing a character distributes over concatenation. */
  lemma {:induction false} RemoveAllAppend(a: string, b: string, c: char)
    ensures RemoveAll(a + b, c) == RemoveAll(a, c) + RemoveAll(b, c)
  {
    if a != [] {
      assert (a + b)[1..] == a[1..] + b;
      RemoveAllAppend(a[1..], b, c);
    } else {
      assert a + b == b;
    }
  }

  function ToUpperChar(ch: char): char
  {
    if 'a' <= ch <= 'z' then (ch as int - 'a' as int + 'A' as int) as char else ch
  }

  function ToLowerChar(ch: char): char
  {
    if 'A' <= ch <= 'Z' then (ch as int - 'A' as int + 'a' as int) as char else ch
  }

  /** `s.toUpperCase()`, for ASCII letters. */
  function ToUpper(s: string): (r: string)
    ensures |r| == |s|
    ensures forall i | 0 <= i < |s| :: r[i] == ToUpperChar(s[i])
  {
    if s == [] then [] else [ToUpperChar(s[0])] + ToUpper(s[1..])
  }

  /** `a.equalsIgnoreCase(b)`, for ASCII letters. */
  predicate EqualsIgnoreCase(a: string, b: string)
  {
    |a| == |b| && forall i | 0 <= i < |a| :: ToLowerChar(a[i]) == ToLowerChar(b[i])
  }

  /** The characters `String.trim()` strips: everything up to and including space. */
  predicate IsTrimmed(ch: char) { ch <= ' ' }

  function TrimStart(s: string): (r: string)
    ensures |r| <= |s| && r == s[|s| - |r|..]
    ensures r == [] || !IsTrimmed(r[0])
    ensures forall i | 0 <= i < |s| - |r| :: IsTrimmed(s[i])
  {
    if s != [] && IsTrimmed(s[0]) then TrimStart(s[1..]) else s
  }

  function TrimEnd(s: string): (r: string)
    ensures |r| <= |s| && r == s[..|r|]
    ensures r == [] || !IsTrimmed(r[|r| - 1])
    ensures forall i | |r| <= i < |s| :: IsTrimmed(s[i])
  {
    if s != [] && IsTrimmed(s[|s| - 1]) then TrimEnd(s[..|s| - 1]) else s
  }

  /** `s.trim()`: what is left keeps no character that was not in `s`, and
      starts and ends with a character trim does not strip. */
  function Trim(s: string): (r: string)
    ensures |r| <= |s|
    ensures forall ch | ch in r :: ch in s
    ensures r == [] || (!IsTrimmed(r[0]) && !IsTrimmed(r[|r| - 1]))
  {
    TrimEnd(TrimStart(s))
  }

  /** Strings equal ignoring case have the same upper-case form. */
  lemma {:induction false} SameUpperWhenEqualIgnoringCase(a: string, b: string)
    requires EqualsIgnoreCase(a, b)
    ensures ToUpper(a) == ToUpper(b)
  {
    forall i | 0 <= i < |a|
      ensures ToUpperChar(a[i]) == ToUpperChar(b[i])
    {
      assert ToLowerChar(a[i]) == ToLowerChar(b[i]);
      UpperOfLower(a[i]);
      UpperOfLower(b[i]);
    }
  }

  /** Lower-casing first does not change the upper-case form of a character. */
  lemma UpperOfLower(ch: char)
    ensures ToUpperChar(ToLowerChar(ch)) == ToUpperChar(ch)
  {
    if 'A' <= ch <= 'Z' {
      assert 'a' <= ToLowerChar(ch) <= 'z';
    }
  }

  /** `s.trim().isEmpty()` holds exactly when every character is one trim strips. */
  lemma TrimEmptyIffAllTrimmed(s: string)
    ensures Trim(s) == [] <==> forall i | 0 <= i < |s| :: IsTrimmed(s[i])
  {
    var t := TrimStart(s);
    if t != [] {
      assert IsTrimmed(s[|s| - |t|]) <==> IsTrimmed(t[0]);
    }
  }

  /** The text before the first `c`, or all of `s` when there is none. */
  function BeforeFirst(s: string, c: char): (r: string)
    ensures |r| <= |s| && r == s[..|r|]
    ensures c !in r
    ensures |r| < |s| ==> s[|r|] == c
  {
    if s == [] || s[0] == c then [] else [s[0]] + BeforeFirst(s[1..], c)
  }

  /** `s.startsWith(prefix)`. */
  predicate StartsWith(s: string, prefix: string)
  {
    |prefix| <= |s| && s[..|prefix|] == prefix
  }

  /** A prefix carried over to a longer string. */
  lemma PrefixExtends(p: string, x: string, q: string)
    requires StartsWith(x, q)
    ensures StartsWith(p + x, p + q)
  {
    assert (p + x)[..|p + q|] == p + x[..|q|];
  }

  /** The text before the first `c` of `first + [c] + rest`, when `first` has
      no `c`, is `first`. */
  lemma {:induction false} BeforeFirstOfJoin(first: string, c: char, rest: string)
    requires c !in first
    ensures BeforeFirst(first + [c] + rest, c) == first
  {
    if first != [] {
      assert (first + [c] + rest)[1..] == first[1..] + [c] + rest;
      BeforeFirstOfJoin(first[1..], c, rest);
    }
  }

  /** The decimal text of a natural number, as `Long.toString` writes it. */
  function NatToString(n: nat): (r: string)
    ensures r != []
    ensures forall i | 0 <= i < |r| :: '0' <= r[i] <= '9'
    decreases n
  {
    if n < 10 then [Digit(n)] else NatToString(n / 10) + [Digit(n % 10)]
  }

  function Digit(d: nat): (c: char)
    requires d < 10
    ensures '0' <= c <= '9'
  {
    ('0' as int + d) as char
  }

  /** `Long.toString(n)`. */
  function LongToString(n: int): string
  {
    if n < 0 then "-" + NatToString(-n) else NatToString(n)
  }
}
