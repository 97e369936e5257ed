/**
 * Character and string operations with the meaning Python's `str` methods
 * (and Java's `String.trim`) give them.  The modules of the model compose
 * these instead of restating them.
 */
module Text {
  import opened Wrappers

  /** Python's `str.isspace()` on a single character. */
  predicate IsSpace(c: char)
  {
    c == ' ' || '\t' <= c <= '\r' || '\U{1c}' <= c <= '\U{1f}' || c == '\U{85}' || c == '\U{a0}'
    || c == '\U{1680}' || '\U{2000}' <= c <= '\U{200a}' || c == '\U{2028}' || c == '\U{2029}'
    || c == '\U{202f}' || c == '\U{205f}' || c == '\U{3000}'
  }

  /** The characters Java's `String.trim()` removes: every code point up to U+0020. */
  predicate IsJavaBlank(c: char)
  {
    c <= ' '
  }

  predicate IsDigit(c: char)
  {
    '0' <= c <= '9'
  }

  predicate StartsWith(s: string, p: string)
  {
    |p| <= |s| && s[..|p|] == p
  }

  predicate EndsWith(s: string, p: string)
  {
    |p| <= |s| && s[|s| - |p|..] == p
  }

  /** `t` occurs in `s` starting at index `i`. */
  predicate OccursAt(s: string, t: string, i: int)
  {
    0 <= i && i + |t| <= |s| && s[i..i + |t|] == t
  }

  /** Python's `t in s` for two strings. */
  predicate Contains(s: string, t: string)
  {
    exists i | 0 <= i <= |s| - |t| :: OccursAt(s, t, i)
  }

  /** The first occurrence of `t` at or after `k`. */
  function IndexFrom(s: string, t: string, k: nat): (r: Option<nat>)
    ensures r.Some? ==> k <= r.value && OccursAt(s, t, r.value)
    ensures r.Some? ==> forall j :: k <= j < r.value ==> !OccursAt(s, t, j)
    ensures r.None? ==> forall j :: k <= j ==> !OccursAt(s, t, j)
    decreases |s| - k
  {
    if k + |t| > |s| then None
    else if s[k..k + |t|] == t then Some(k)
    else IndexFrom(s, t, k + 1)
  }

  /** Python's `s.find(t)` as an option: the first index where `t` occurs. */
  function IndexOf(s: string, t: string): (r: Option<nat>)
    ensures r.Some? <==> Contains(s, t)
    ensures r.Some? ==> OccursAt(s, t, r.value) && forall j :: 0 <= j < r.value ==> !OccursAt(s, t, j)
  {
    IndexFrom(s, t, 0)
  }

  /** Python's `s.find(t)`: the first index where `t` occurs, or -1. */
  function Find(s: string, t: string): (r: int)
    ensures r == -1 <==> !Contains(s, t)
    ensures r >= 0 ==> OccursAt(s, t, r)
  {
    match IndexOf(s, t)
    case Some(i) => i
    case None => -1
  }

  /** `s.split(c, maxsplit=1)`: what precedes the first `c`, and what follows it if there is one. */
  function SplitOnce(s: string, c: char): (string, Option<string>)
  {
    match IndexOf(s, [c])
    case Some(i) => (s[..i], Some(s[i + 1..]))
    case None => (s, None)
  }

  lemma SplitOnceAt(a: string, b: string, c: char)
    requires c !in a
    ensures SplitOnce(a + [c] + b, c) == (a, Some(b))
  {
    var s := a + [c] + b;
    assert OccursAt(s, [c], |a|);
    assert forall j :: 0 <= j < |a| ==> s[j] == a[j] && !OccursAt(s, [c], j);
    assert s[..|a|] == a && s[|a| + 1..] == b;
  }

  lemma SplitOnceAbsent(a: string, c: char)
    requires c !in a
    ensures SplitOnce(a, c) == (a, None)
  {
    forall j | 0 <= j < |a| ensures !OccursAt(a, [c], j) {
      assert a[j] in a;
      assert j + 1 <= |a| ==> a[j..j + 1] == [a[j]];
    }
  }

  /** The last occurrence of `t` at an index no greater than `k`. */
  function RIndexUpTo(s: string, t: string, k: int): (r: Option<nat>)
    ensures r.Some? ==> r.value <= k && OccursAt(s, t, r.value)
    ensures r.Some? ==> forall j :: r.value < j <= k ==> !OccursAt(s, t, j)
    ensures r.None? ==> forall j :: j <= k ==> !OccursAt(s, t, j)
    decreases k + 1
  {
    if k < 0 then None
    else if OccursAt(s, t, k) then Some(k)
    else RIndexUpTo(s, t, k - 1)
  }

  /** Python's `s.rfind(t)` as an option: the last index where `t` occurs. */
  function RIndexOf(s: string, t: string): (r: Option<nat>)
    ensures r.Some? <==> Contains(s, t)
    ensures r.Some? ==> OccursAt(s, t, r.value) && forall j :: r.value < j ==> !OccursAt(s, t, j)
  {
    RIndexUpTo(s, t, |s| - |t|)
  }

  /** Python's `s.rfind(c)` for one character: -1 when `c` is absent. */
  function RFind(s: string, c: char): (r: int)
    ensures -1 <= r < |s|
    ensures r >= 0 ==> s[r] == c
    ensures forall j :: r < j < |s| ==> s[j] != c
  {
    if s == [] then -1
    else if s[|s| - 1] == c then |s| - 1
    else RFind(s[..|s| - 1], c)
  }

  /** Removes the leading characters that satisfy `drop`. */
  function TrimStart(s: string, drop: char -> bool): string
  {
    if s != [] && drop(s[0]) then TrimStart(s[1..], drop) else s
  }

  /** Removes the trailing characters that satisfy `drop`. */
  function TrimEnd(s: string, drop: char -> bool): string
  {
    if s != [] && drop(s[|s| - 1]) then TrimEnd(s[..|s| - 1], drop) else s
  }

  /** The result is a suffix of `s` not starting with a dropped character, and only dropped characters were removed. */
  lemma {:induction false} TrimStartFacts(s: string, drop: char -> bool)
    ensures var r := TrimStart(s, drop);
      |r| <= |s| && r == s[|s| - |r|..] && (r == [] || !drop(r[0])) &&
      forall i :: 0 <= i < |s| - |r| ==> drop(s[i])
  {
    if s != [] && drop(s[0]) {
      TrimStartFacts(s[1..], drop);
      var r := TrimStart(s, drop);
      forall i | 0 <= i < |s| - |r| ensures drop(s[i]) {
        if i > 0 {
          assert s[i] == s[1..][i - 1];
        }
      }
    }
  }

  /** The result is a prefix of `s` not ending with a dropped character, and only dropped characters were removed. */
  lemma {:induction false} TrimEndFacts(s: string, drop: char -> bool)
    ensures var r := TrimEnd(s, drop);
      |r| <= |s| && r == s[..|r|] && (r == [] || !drop(r[|r| - 1])) &&
      forall i :: |r| <= i < |s| ==> drop(s[i])
  {
    if s != [] && drop(s[|s| - 1]) {
      TrimEndFacts(s[..|s| - 1], drop);
      var r := TrimEnd(s, drop);
      forall i | |r| <= i < |s| ensures drop(s[i]) {
        if i < |s| - 1 {
          assert s[i] == s[..|s| - 1][i];
        }
      }
    }
  }

  /** Python's `s.strip()`. */
  function Strip(s: string): string
  {
    TrimStart(TrimEnd(s, IsSpace), IsSpace)
  }

  /** Java's `s.trim()`. */
  function JavaTrim(s: string): string
  {
    TrimStart(TrimEnd(s, IsJavaBlank), IsJavaBlank)
  }

  /** Python's `s.rstrip(c)` for one character. */
  function RStripChar(s: string, c: char): string
  {
    TrimEnd(s, x => x == c)
  }

  lemma StripFacts(s: string)
    ensures var r := Strip(s); |r| <= |s| && (r == [] || (!IsSpace(r[0]) && !IsSpace(r[|r| - 1])))
    ensures Strip(s) == s <==> (s == [] || (!IsSpace(s[0]) && !IsSpace(s[|s| - 1])))
  {
    var e := TrimEnd(s, IsSpace);
    var r := TrimStart(e, IsSpace);
    TrimEndFacts(s, IsSpace);
    TrimStartFacts(e, IsSpace);
    if r != [] {
      assert r[|r| - 1] == e[|e| - 1];
    }
    if s != [] && !IsSpace(s[0]) && !IsSpace(s[|s| - 1]) {
      assert e == s;
    }
  }

  /** Splits `s` at every character satisfying `isSep`, keeping empty fields. */
  function SplitWhere(s: string, isSep: char -> bool): (r: seq<string>)
    ensures |r| >= 1
  {
    if s == [] then [[]]
    else
      var rest := SplitWhere(s[1..], isSep);
      if isSep(s[0]) then [[]] + rest else [[s[0]] + rest[0]] + rest[1..]
  }

  /** Python's `s.split(c)` for a one-character separator: empty fields are kept. */
  function Split(s: string, c: char): seq<string>
  {
    SplitWhere(s, x => x == c)
  }

  /** Python's `sep.join(parts)`. */
  function Join(parts: seq<string>, sep: string): string
  {
    if |parts| == 0 then ""
    else if |parts| == 1 then parts[0]
    else parts[0] + sep + Join(parts[1..], sep)
  }

  function NonEmpty(parts: seq<string>): (r: seq<string>)
    ensures forall i :: 0 <= i < |r| ==> r[i] != []
    ensures forall w :: w in r <==> w in parts && w != []
  {
    if parts == [] then []
    else if parts[0] == [] then NonEmpty(parts[1..])
    else [parts[0]] + NonEmpty(parts[1..])
  }

  /** Python's `s.split()`: the maximal runs of non-whitespace characters. */
  function Words(s: string): seq<string>
  {
    NonEmpty(SplitWhere(s, IsSpace))
  }

  lemma {:induction false} SplitWhereFields(s: string, isSep: char -> bool)
    ensures forall i, k :: 0 <= i < |SplitWhere(s, isSep)| && 0 <= k < |SplitWhere(s, isSep)[i]| ==>
      !isSep(SplitWhere(s, isSep)[i][k])
  {
    if s != [] {
      SplitWhereFields(s[1..], isSep);
    }
  }

  /** No field of `s.split(c)` contains `c`. */
  lemma SplitFieldsLackSeparator(s: string, c: char)
    ensures forall i :: 0 <= i < |Split(s, c)| ==> c !in Split(s, c)[i]
  {
    SplitWhereFields(s, x => x == c);
    forall i | 0 <= i < |Split(s, c)| ensures c !in Split(s, c)[i] {
      var f := Split(s, c)[i];
      forall k | 0 <= k < |f| ensures f[k] != c {
        assert !(x => x == c)(f[k]);
      }
    }
  }

  /** No word of `s.split()` is empty or holds whitespace. */
  lemma WordsAreWords(s: string)
    ensures forall i :: 0 <= i < |Words(s)| ==> Words(s)[i] != [] && forall k :: 0 <= k < |Words(s)[i]| ==> !IsSpace(Words(s)[i][k])
  {
    SplitWhereFields(s, IsSpace);
    var parts := SplitWhere(s, IsSpace);
    forall i | 0 <= i < |Words(s)|
      ensures forall k :: 0 <= k < |Words(s)[i]| ==> !IsSpace(Words(s)[i][k])
    {
      var w := Words(s)[i];
      assert w in parts;
      var j :| 0 <= j < |parts| && parts[j] == w;
    }
  }

  /** Joining the fields of `s.split(c)` with `c` gives back `s`. */
  lemma {:induction false} JoinSplit(s: string, c: char)
    ensures Join(Split(s, c), [c]) == s
  {
    if s != [] {
      JoinSplit(s[1..], c);
      var rest := Split(s[1..], c);
      if s[0] == c {
        assert Split(s, c) == [[]] + rest;
      } else {
        assert Split(s, c) == [[s[0]] + rest[0]] + rest[1..];
        if |rest| == 1 {
          assert Join(rest, [c]) == rest[0];
        } else {
          assert Join(rest, [c]) == rest[0] + [c] + Join(rest[1..], [c]);
          assert ([[s[0]] + rest[0]] + rest[1..])[1..] == rest[1..];
        }
      }
    }
  }

  /** Splitting a `c`-join of fields free of `c` gives back the fields. */
  lemma {:induction false} SplitJoin(parts: seq<string>, c: char)
    requires |parts| >= 1
    requires forall i :: 0 <= i < |parts| ==> c !in parts[i]
    ensures Split(Join(parts, [c]), c) == parts
  {
    if |parts| == 1 {
      SplitNoSeparator(parts[0], c);
    } else {
      SplitJoin(parts[1..], c);
      SplitPrefix(parts[0], Join(parts[1..], [c]), c);
    }
  }

  lemma {:induction false} SplitNoSeparator(s: string, c: char)
    requires c !in s
    ensures Split(s, c) == [s]
  {
    if s != [] {
      SplitNoSeparator(s[1..], c);
      assert !(x => x == c)(s[0]);
      assert s == [s[0]] + s[1..];
    }
  }

  lemma {:induction false} SplitPrefix(a: string, b: string, c: char)
    requires c !in a
    ensures Split(a + [c] + b, c) == [a] + Split(b, c)
  {
    if a == [] {
      assert [c] + b == a + [c] + b;
      assert (a + [c] + b)[1..] == b;
    } else {
      assert (a + [c] + b)[1..] == a[1..] + [c] + b;
      SplitPrefix(a[1..], b, c);
      assert [a[0]] + a[1..] == a;
    }
  }

  /** The numeric value of an ASCII digit. */
  function DigitValue(c: char): nat
    requires IsDigit(c)
  {
    c as int - '0' as int
  }

  function DigitChar(d: nat): (c: char)
    requires d < 10
    ensures IsDigit(c) && DigitValue(c) == d
  {
    ('0' as int + d) as char
  }

  predicate AllDigits(s: string)
  {
    forall i :: 0 <= i < |s| ==> IsDigit(s[i])
  }

  /** Python's `str(n)` for a natural number. */
  function NatToString(n: nat): (r: string)
    ensures |r| >= 1 && AllDigits(r)
  {
    if n < 10 then [DigitChar(n)] else NatToString(n / 10) + [DigitChar(n % 10)]
  }

  /** The value of a string of ASCII digits read in base ten. */
  function DigitsValue(s: string): nat
    requires AllDigits(s)
  {
    if s == [] then 0 else DigitsValue(s[..|s| - 1]) * 10 + DigitValue(s[|s| - 1])
  }

  lemma {:induction false} NatToStringRoundTrip(n: nat)
    ensures DigitsValue(NatToString(n)) == n
  {
    if n >= 10 {
      NatToStringRoundTrip(n / 10);
      var s := NatToString(n);
      assert s[..|s| - 1] == NatToString(n / 10);
    }
  }

  lemma NatToStringInjective(m: nat, n: nat)
    requires NatToString(m) == NatToString(n)
    ensures m == n
  {
    NatToStringRoundTrip(m);
    NatToStringRoundTrip(n);
  }

  /** Python's `str(i)` for an integer. */
  function IntToString(i: int): string
  {
    if i < 0 then "-" + NatToString(-i) else NatToString(i)
  }

  /** Digits with an optional sign, without surrounding blanks. */
  function ParseSigned(s: string): Option<int>
  {
    if |s| >= 1 && (s[0] == '-' || s[0] == '+') then
      if |s| >= 2 && AllDigits(s[1..]) then
        var v: int := DigitsValue(s[1..]);
        Some(if s[0] == '-' then -v else v)
      else None
    else if |s| >= 1 && AllDigits(s) then Some(DigitsValue(s))
    else None
  }

  /**
   * Python's `int(s)` on a string; `None` where Python raises ValueError.
   * Underscores between digits, which Python accepts, are refused here.
   */
  function ParseInt(s: string): Option<int>
  {
    ParseSigned(Strip(s))
  }

  lemma StripUnchanged(s: string)
    requires s != [] && !IsSpace(s[0]) && !IsSpace(s[|s| - 1])
    ensures Strip(s) == s
  {
    assert TrimEnd(s, IsSpace) == s;
    assert TrimStart(s, IsSpace) == s;
  }

  lemma ParseIntRoundTrip(i: int)
    ensures ParseInt(IntToString(i)) == Some(i)
  {
    var s := IntToString(i);
    assert s[0] == '-' || IsDigit(s[0]);
    assert IsDigit(s[|s| - 1]);
    StripUnchanged(s);
    if i < 0 {
      NatToStringRoundTrip(-i);
      assert s[1..] == NatToString(-i);
    } else {
      NatToStringRoundTrip(i);
    }
  }

  /** ASCII lower-casing, as Python's `str.lower()` does on ASCII text. */
  function Lower(s: string): (r: string)
    ensures |r| == |s|
    ensures forall i :: 0 <= i < |s| ==> r[i] == if 'A' <= s[i] <= 'Z' then (s[i] as int + 32) as char else s[i]
  {
    if s == [] then []
    else [if 'A' <= s[0] <= 'Z' then (s[0] as int + 32) as char else s[0]] + Lower(s[1..])
  }

  /** Python's string ordering: code point by code point, a proper prefix first. */
  predicate StrLt(a: string, b: string)
  {
    if a == [] then b != []
    else if b == [] then false
    else if a[0] != b[0] then a[0] < b[0]
    else StrLt(a[1..], b[1..])
  }

  predicate StrLe(a: string, b: string)
  {
    a == b || StrLt(a, b)
  }

  lemma {:induction false} StrLtIrreflexive(a: string)
    ensures !StrLt(a, a)
  {
    if a != [] {
      StrLtIrreflexive(a[1..]);
    }
  }

  lemma {:induction false} StrLtTotal(a: string, b: string)
    ensures a == b || StrLt(a, b) || StrLt(b, a)
  {
    if a != [] && b != [] && a[0] == b[0] {
      StrLtTotal(a[1..], b[1..]);
      if a[1..] == b[1..] {
        assert a == [a[0]] + a[1..] && b == [b[0]] + b[1..];
      }
    }
  }

  lemma {:induction false} StrLtTransitive(a: string, b: string, c: string)
    requires StrLt(a, b) && StrLt(b, c)
    ensures StrLt(a, c)
  {
    if a != [] && b != [] && c != [] && a[0] == b[0] && b[0] == c[0] {
      StrLtTransitive(a[1..], b[1..], c[1..]);
    }
  }

  lemma StrLeTransitive(a: string, b: string, c: string)
    requires StrLe(a, b) && StrLe(b, c)
    ensures StrLe(a, c)
  {
    if a != b && b != c {
      StrLtTransitive(a, b, c);
    }
  }

  predicate Sorted(s: seq<string>)
  {
    forall i, j :: 0 <= i < j < |s| ==> StrLe(s[i], s[j])
  }

  function Insert(x: string, s: seq<string>): (r: seq<string>)
    requires Sorted(s)
    ensures Sorted(r) && multiset(r) == multiset(s) + multiset{x}
  {
    if s == [] then [x]
    else if StrLe(x, s[0]) then
      assert forall j :: 0 < j < |s| ==> StrLe(x, s[j]) by {
        forall j | 0 < j < |s| ensures StrLe(x, s[j]) { StrLeTransitive(x, s[0], s[j]); }
      }
      [x] + s
    else
      var t := Insert(x, s[1..]);
      assert s == [s[0]] + s[1..];
      StrLtTotal(x, s[0]);
      assert forall j :: 0 <= j < |t| ==> StrLe(s[0], t[j]) by {
        forall j | 0 <= j < |t| ensures StrLe(s[0], t[j]) {
          assert t[j] in multiset(t);
          assert t[j] == x || t[j] in multiset(s[1..]);
          if t[j] != x {
            var k :| 0 <= k < |s[1..]| && s[1..][k] == t[j];
            assert s[k + 1] == t[j];
          }
        }
      }
      [s[0]] + t
  }

  /** Python's `sorted(s)` on strings. */
  function SortStrings(s: seq<string>): (r: seq<string>)
    ensures Sorted(r) && multiset(r) == multiset(s)
  {
    if s == [] then [] else
      assert s == [s[0]] + s[1..];
      Insert(s[0], SortStrings(s[1..]))
  }

  /** A sorted arrangement of a multiset of strings is unique. */
  lemma {:induction false} SortedUnique(a: seq<string>, b: seq<string>)
    requires Sorted(a) && Sorted(b) && multiset(a) == multiset(b)
    ensures a == b
  {
    if a != [] {
      assert |b| == |multiset(b)| == |multiset(a)| == |a|;
      SortedHeadLeast(a, b[0]);
      SortedHeadLeast(b, a[0]);
      StrLeAntisymmetric(a[0], b[0]);
      TailMultiset(a, b);
      SortedTail(a);
      SortedTail(b);
      SortedUnique(a[1..], b[1..]);
      assert a == [a[0]] + a[1..] && b == [b[0]] + b[1..];
    }
  }

  /** The elements of a set, in some order. */
  ghost function SeqOfSet(s: set<string>): (r: seq<string>)
    ensures multiset(r) == multiset(s)
  {
    if s == {} then []
    else
      var x :| x in s;
      assert s == (s - {x}) + {x};
      [x] + SeqOfSet(s - {x})
  }

  /** `sorted(s)` of a set (or of a dict's keys). */
  ghost function SortedSet(s: set<string>): (r: seq<string>)
    ensures Sorted(r) && multiset(r) == multiset(s)
    ensures |r| == |s| && forall k :: k in r <==> k in s
  {
    var r := SortStrings(SeqOfSet(s));
    assert forall k :: k in r <==> k in multiset(r);
    assert |r| == |multiset(r)|;
    r
  }

  lemma SortedHeadLeast(a: seq<string>, x: string)
    requires Sorted(a) && x in multiset(a)
    ensures StrLe(a[0], x)
  {
    var i :| 0 <= i < |a| && a[i] == x;
    if i > 0 {
      assert StrLe(a[0], a[i]);
    }
  }

  lemma SortedTail(a: seq<string>)
    requires Sorted(a) && a != []
    ensures Sorted(a[1..])
  {
    forall i, j | 0 <= i < j < |a[1..]| ensures StrLe(a[1..][i], a[1..][j]) {
      assert a[1..][i] == a[i + 1] && a[1..][j] == a[j + 1];
    }
  }

  lemma StrLeAntisymmetric(x: string, y: string)
    requires StrLe(x, y) && StrLe(y, x)
    ensures x == y
  {
    if x != y {
      StrLtTransitive(x, y, x);
      StrLtIrreflexive(x);
    }
  }

  lemma TailMultiset<T>(a: seq<T>, b: seq<T>)
    requires a != [] && b != [] && a[0] == b[0] && multiset(a) == multiset(b)
    ensures multiset(a[1..]) == multiset(b[1..])
  {
    assert a == [a[0]] + a[1..] && b == [b[0]] + b[1..];
    assert multiset(a[1..]) == multiset(a) - multiset{a[0]};
    assert multiset(b[1..]) == multiset(b) - multiset{b[0]};
  }

  /** The distinct elements of `s`, each kept at its first occurrence. */
  function Dedup<T(==,!new)>(s: seq<T>): (r: seq<T>)
    ensures forall x :: x in r <==> x in s
    ensures forall i, j :: 0 <= i < j < |r| ==> r[i] != r[j]
  {
    if s == [] then []
    else
      var r := Dedup(s[..|s| - 1]);
      assert s == s[..|s| - 1] + [s[|s| - 1]];
      if s[|s| - 1] in r then r else r + [s[|s| - 1]]
  }

  /** Python's `os.path.join(a, b)` on POSIX paths. */
  function PathJoin(a: string, b: string): string
  {
    if StartsWith(b, "/") then b
    else if a == [] || a[|a| - 1] == '/' then a + b
    else a + "/" + b
  }

  /** An absolute second part replaces the first; otherwise the result starts with the first part and ends with the second. */
  lemma PathJoinFacts(a: string, b: string)
    ensures StartsWith(b, "/") ==> PathJoin(a, b) == b
    ensures !StartsWith(b, "/") ==> EndsWith(PathJoin(a, b), b) && StartsWith(PathJoin(a, b), a)
  {
    var r := PathJoin(a, b);
    if !StartsWith(b, "/") {
      assert r[|r| - |b|..] == b;
      assert r[..|a|] == a;
    }
  }

  /** Python's `os.path.basename(p)`: what follows the last '/'. */
  function Basename(p: string): (r: string)
    ensures '/' !in r && EndsWith(p, r)
  {
    p[RFind(p, '/') + 1..]
  }

  /**
   * Python's `os.path.splitext(p)`: the extension starts at the last '.' of
   * the last path component, unless only dots precede it in that component.
   */
  function SplitExt(p: string): (r: (string, string))
    ensures r.0 + r.1 == p
    ensures r.1 == [] || (r.1[0] == '.' && '/' !in r.1 && '.' !in r.1[1..])
  {
    var slash := RFind(p, '/');
    var dot := RFind(p, '.');
    if dot > slash && exists k | slash < k < dot :: p[k] != '.' then
      assert p[dot..][1..] == p[dot + 1..];
      (p[..dot], p[dot..])
    else (p, "")
  }
}
