/**
 * The Python string operations the modelled code relies on, stated over `seq<char>`:
 * `str(n)` for a non-negative int, code-point comparison and `sorted`, `endswith`,
 * prefix slicing, the truncation used for display, `strip`, `split(sep)` and `sep.join`.
 */
module Text {

  // ---------------------------------------------------------------------------
  // str(n)
  // ---------------------------------------------------------------------------

  function DigitChar(d: nat): (c: char)
    requires d < 10
    ensures '0' <= c <= '9' && c as int == 48 + d
  {
    (48 + d) as char
  }

  /** Decimal rendering without leading zeros, as Python's `str` gives for an int >= 0. */
  function NatToString(n: nat): (s: string)
    ensures 1 <= |s| && (10 <= n ==> 2 <= |s|)
    ensures forall i :: 0 <= i < |s| ==> '0' <= s[i] <= '9'
    decreases n
  {
    if n < 10 then [DigitChar(n)] else NatToString(n / 10) + [DigitChar(n % 10)]
  }

  /** Distinct numbers have distinct renderings. */
  lemma {:induction false} NatToStringInjective(a: nat, b: nat)
    requires NatToString(a) == NatToString(b)
    ensures a == b
    decreases a
  {
    if 10 <= a && 10 <= b {
      var sa, sb := NatToString(a / 10), NatToString(b / 10);
      var ca, cb := DigitChar(a % 10), DigitChar(b % 10);
      assert sa + [ca] == sb + [cb];
      assert |sa| == |sb|;
      assert sa == (sa + [ca])[..|sa|] && sb == (sb + [cb])[..|sb|];
      assert ca == (sa + [ca])[|sa|] && cb == (sb + [cb])[|sb|];
      NatToStringInjective(a / 10, b / 10);
    } else if a < 10 && b < 10 {
      assert DigitChar(a) == NatToString(a)[0] && DigitChar(b) == NatToString(b)[0];
    }
  }

  // ---------------------------------------------------------------------------
  // Code-point lexicographic order (Python's `<=` on str) and `sorted`
  // ---------------------------------------------------------------------------

  /** `a <= b` for Python strings: code point by code point; a proper prefix is smaller. */
  predicate StrLe(a: string, b: string)
  {
    a == [] || (b != [] && (a[0] < b[0] || (a[0] == b[0] && StrLe(a[1..], b[1..]))))
  }

  lemma {:induction false} StrLeReflexive(a: string)
    ensures StrLe(a, a)
  {
    if a != [] {
      StrLeReflexive(a[1..]);
    }
  }

  lemma {:induction false} StrLeTotal(a: string, b: string)
    ensures StrLe(a, b) || StrLe(b, a)
  {
    if a != [] && b != [] && a[0] == b[0] {
      StrLeTotal(a[1..], b[1..]);
    }
  }

  lemma {:induction false} StrLeTransitive(a: string, b: string, c: string)
    requires StrLe(a, b) && StrLe(b, c)
    ensures StrLe(a, c)
  {
    if a != [] && a[0] == b[0] && b[0] == c[0] {
      StrLeTransitive(a[1..], b[1..], c[1..]);
    }
  }

  lemma {:induction false} StrLeAntisymmetric(a: string, b: string)
    requires StrLe(a, b) && StrLe(b, a)
    ensures a == b
  {
    if a != [] {
      StrLeAntisymmetric(a[1..], b[1..]);
      assert a == [a[0]] + a[1..] && b == [b[0]] + b[1..];
    }
  }

  ghost predicate Sorted(s: seq<string>)
  {
    forall i, j :: 0 <= i < j < |s| ==> StrLe(s[i], s[j])
  }

  lemma {:induction false} BelowAll(h: string, x: string, s: seq<string>, t: seq<string>)
    requires forall k :: 0 <= k < |s| ==> StrLe(h, s[k])
    requires StrLe(h, x)
    requires multiset(t) == multiset(s) + multiset{x}
    ensures forall j :: 0 <= j < |t| ==> StrLe(h, t[j])
  {
    forall j | 0 <= j < |t|
      ensures StrLe(h, t[j])
    {
      assert t[j] in multiset(t);
      if t[j] != x {
        assert t[j] in multiset(s);
        var k :| 0 <= k < |s| && s[k] == t[j];
      }
    }
  }

  /** Inserts `x` into a sorted list, keeping it sorted. */
  function Insert(x: string, s: seq<string>): (r: seq<string>)
    requires Sorted(s)
    ensures Sorted(r) && multiset(r) == multiset(s) + multiset{x}
  {
    if s == [] then
      [x]
    else if StrLe(x, s[0]) then
      assert forall k :: 0 <= k < |s| ==> StrLe(x, s[k]) by {
        forall k | 0 <= k < |s| ensures StrLe(x, s[k]) {
          if k > 0 { StrLeTransitive(x, s[0], s[k]); }
        }
      }
      assert s == [s[0]] + s[1..];
      [x] + s
    else
      StrLeTotal(x, s[0]);
      var t := Insert(x, s[1..]);
      BelowAll(s[0], x, s[1..], t);
      assert s == [s[0]] + s[1..];
      [s[0]] + t
  }

  /** Python's `sorted` on a list of strings: a sorted permutation of its argument. */
  function Sort(s: seq<string>): (r: seq<string>)
    ensures Sorted(r) && multiset(r) == multiset(s)
  {
    if s == [] then [] else
      assert s == [s[0]] + s[1..];
      Insert(s[0], Sort(s[1..]))
  }

  lemma {:induction false} HeadIsLeast(s: seq<string>, x: string)
    requires Sorted(s) && x in s
    ensures StrLe(s[0], x)
  {
    var i :| 0 <= i < |s| && s[i] == x;
    if i == 0 { StrLeReflexive(x); }
  }

  lemma {:induction false} TailFacts(s: seq<string>)
    requires Sorted(s) && s != []
    ensures Sorted(s[1..])
    ensures multiset(s[1..]) == multiset(s) - multiset{s[0]}
  {
    assert s == [s[0]] + s[1..];
  }

  /** Two sorted permutations of one another start with the same string. */
  lemma {:induction false} HeadsEqual(r: seq<string>, t: seq<string>)
    requires Sorted(r) && Sorted(t) && multiset(r) == multiset(t) && r != []
    ensures t != [] && r[0] == t[0]
  {
    assert r[0] in multiset(r);
    assert r[0] in t;
    assert t[0] in multiset(t);
    assert t[0] in r;
    HeadIsLeast(t, r[0]);
    HeadIsLeast(r, t[0]);
    StrLeAntisymmetric(r[0], t[0]);
  }

  /** Two sorted lists with the same elements are equal, so `sorted` fixes the visiting order. */
  lemma {:induction false} SortedUnique(r: seq<string>, t: seq<string>)
    requires Sorted(r) && Sorted(t) && multiset(r) == multiset(t)
    ensures r == t
  {
    if r != [] {
      HeadsEqual(r, t);
      TailFacts(r);
      TailFacts(t);
      SortedUnique(r[1..], t[1..]);
      assert r == [r[0]] + r[1..];
      assert t == [t[0]] + t[1..];
    } else {
      assert |t| == |multiset(t)|;
    }
  }

  // ---------------------------------------------------------------------------
  // endswith, prefix slicing, display truncation
  // ---------------------------------------------------------------------------

  predicate EndsWith(s: string, suffix: string)
  {
    |suffix| <= |s| && s[|s| - |suffix|..] == suffix
  }

  /** Python's `s[:k]` for any int `k`; a negative `k` counts from the end. */
  function PrefixSlice<T>(s: seq<T>, k: int): (r: seq<T>)
    ensures r <= s
    ensures 0 <= k ==> |r| == if k < |s| then k else |s|
    ensures k < 0 ==> |r| == if |s| + k < 0 then 0 else |s| + k
  {
    if 0 <= k then (if k < |s| then s[..k] else s)
    else (if |s| + k < 0 then [] else s[..|s| + k])
  }

  /** The display rule `s[:limit] + "..." if len(s) > limit else s`. */
  function Shorten(s: string, limit: nat): string
  {
    if |s| > limit then s[..limit] + "..." else s
  }

  /** What a shortened string looks like: short strings are kept, long ones keep their first
      `limit` characters and end in "...". */
  lemma {:induction false} ShortenShape(s: string, limit: nat)
    ensures |s| <= limit ==> Shorten(s, limit) == s
    ensures limit < |s| ==> (|Shorten(s, limit)| == limit + 3
                             && Shorten(s, limit)[..limit] == s[..limit]
                             && Shorten(s, limit)[limit..] == "...")
  {
  }

  /** A string is left alone exactly when it is short, or already has the shortened shape. */
  lemma {:induction false} ShortenFixpoint(s: string, limit: nat)
    ensures Shorten(s, limit) == s <==> |s| <= limit || (|s| == limit + 3 && s[limit..] == "...")
  {
    if limit < |s| && Shorten(s, limit) == s {
      assert s[limit..] == Shorten(s, limit)[limit..];
    }
    if |s| == limit + 3 && s[limit..] == "..." {
      assert s == s[..limit] + s[limit..];
    }
  }

  lemma {:induction false} ShortenIdempotent(s: string, limit: nat)
    ensures Shorten(Shorten(s, limit), limit) == Shorten(s, limit)
  {
    ShortenShape(s, limit);
    if limit < |s| {
      ShortenFixpoint(Shorten(s, limit), limit);
    }
  }

  // ---------------------------------------------------------------------------
  // str.strip()
  // ---------------------------------------------------------------------------

  /** The characters Python's `str.isspace` accepts, which `strip()` removes. */
  predicate IsSpace(c: char)
  {
    || c == ' ' || ('\t' <= c <= '\r') || ('\U{1C}' <= c <= '\U{1F}')
    || c == '\U{85}' || c == '\U{A0}' || c == '\U{1680}'
    || ('\U{2000}' <= c <= '\U{200A}') || c == '\U{2028}' || c == '\U{2029}'
    || c == '\U{202F}' || c == '\U{205F}' || c == '\U{3000}'
  }

  predicate AllSpace(s: string)
  {
    forall i :: 0 <= i < |s| ==> IsSpace(s[i])
  }

  /** Neither end of `s` is whitespace. */
  predicate Stripped(s: string)
  {
    s == [] || (!IsSpace(s[0]) && !IsSpace(s[|s| - 1]))
  }

  /** `s` without its leading whitespace. */
  function TrimStart(s: string): (r: string)
    ensures |r| <= |s|
  {
    if s != [] && IsSpace(s[0]) then TrimStart(s[1..]) else s
  }

  /** `s` without its trailing whitespace. */
  function TrimEnd(s: string): (r: string)
    ensures |r| <= |s|
  {
    if s != [] && IsSpace(s[|s| - 1]) then TrimEnd(s[..|s| - 1]) else s
  }

  /** TrimStart drops a whitespace prefix and stops at the first other character. */
  lemma {:induction false} TrimStartShape(s: string)
    ensures var r := TrimStart(s);
            && r == s[|s| - |r|..] && (r == [] || !IsSpace(r[0])) && AllSpace(s[..|s| - |r|])
    decreases |s|
  {
    if s != [] && IsSpace(s[0]) {
      var u := s[1..];
      TrimStartShape(u);
      var r := TrimStart(u);
      assert TrimStart(s) == r;
      var k := |s| - |r|;
      assert r == u[|u| - |r|..] == s[k..];
      assert AllSpace(u[..k - 1]);
      forall i | 0 <= i < k ensures IsSpace(s[..k][i]) {
        if i == 0 {
          assert s[..k][i] == s[0];
        } else {
          assert s[..k][i] == u[..k - 1][i - 1];
        }
      }
    }
  }

  /** TrimEnd drops a whitespace suffix and stops at the last other character. */
  lemma {:induction false} TrimEndShape(s: string)
    ensures var r := TrimEnd(s);
            && r == s[..|r|] && (r == [] || !IsSpace(r[|r| - 1])) && AllSpace(s[|r|..])
    decreases |s|
  {
    if s != [] && IsSpace(s[|s| - 1]) {
      var t := s[..|s| - 1];
      TrimEndShape(t);
      var r := TrimEnd(s);
      assert r == t[..|r|] == s[..|r|];
      forall i | 0 <= i < |s| - |r| ensures IsSpace(s[|r|..][i]) {
        if i < |s| - 1 - |r| { assert s[|r|..][i] == t[|r|..][i]; }
      }
    }
  }

  /** Python's `s.strip()`: `s` with the whitespace at both ends removed. */
  function Strip(s: string): (r: string)
    ensures |r| <= |s|
  {
    TrimEnd(TrimStart(s))
  }

  /** What strip removes is whitespace at the two ends, and nothing else, and what it leaves
      has no whitespace at either end. */
  lemma {:induction false} StripInfix(s: string)
    ensures var i := |s| - |TrimStart(s)|;
            && i + |Strip(s)| <= |s| && Strip(s) == s[i..i + |Strip(s)|]
            && AllSpace(s[..i]) && AllSpace(s[i + |Strip(s)|..])
            && Stripped(Strip(s))
  {
    var t := TrimStart(s);
    var r := TrimEnd(t);
    var i := |s| - |t|;
    assert Strip(s) == r;
    assert t == s[i..] && AllSpace(s[..i]) && (t == [] || !IsSpace(t[0])) by {
      TrimStartShape(s);
    }
    assert r == t[..|r|] && AllSpace(t[|r|..]) && (r == [] || !IsSpace(r[|r| - 1])) by {
      TrimEndShape(t);
    }
    assert r == s[i..i + |r|];
    assert s[i + |r|..] == t[|r|..];
    if r != [] {
      assert r[0] == t[0];
    }
  }

  /** Strip gives the empty string exactly for all-whitespace text. */
  lemma {:induction false} StripEmpty(s: string)
    ensures Strip(s) == [] <==> AllSpace(s)
  {
    var t := TrimStart(s);
    var r := TrimEnd(t);
    var i := |s| - |t|;
    StripInfix(s);
    TrimStartShape(s);
    if r == [] {
      TrimEndShape(t);
      assert t[|r|..] == t;
      assert t == [];
      assert s[..i] == s;
    } else {
      assert s[i] == r[0];
    }
  }

  /** A string without whitespace at its ends strips to itself, and one leading blank goes. */
  lemma {:induction false} StripKeeps(t: string)
    requires Stripped(t) && t != []
    ensures Strip(t) == t && Strip(" " + t) == t
  {
    assert TrimStart(t) == t;
    assert TrimEnd(t) == t;
    assert (" " + t)[1..] == t;
    assert TrimStart(" " + t) == t;
  }

  // ---------------------------------------------------------------------------
  // str.split(sep) for a one-character separator, and sep.join
  // ---------------------------------------------------------------------------

  /** Python's `s.split(sep)`: the pieces between separators, empty ones included. */
  function Split(s: string, sep: char): (r: seq<string>)
    ensures 1 <= |r|
  {
    if s == [] then [""]
    else
      var rest := Split(s[1..], sep);
      if s[0] == sep then [""] + rest else [[s[0]] + rest[0]] + rest[1..]
  }

  /** No piece holds the separator. */
  lemma {:induction false} SplitPieces(s: string, sep: char)
    ensures forall i :: 0 <= i < |Split(s, sep)| ==> sep !in Split(s, sep)[i]
    decreases |s|
  {
    if s != [] {
      SplitPieces(s[1..], sep);
    }
  }

  /** Python's `sep.join(parts)`. */
  function Join(parts: seq<string>, sep: string): string
  {
    if |parts| == 0 then ""
    else if |parts| == 1 then parts[0]
    else parts[0] + sep + Join(parts[1..], sep)
  }

  /** Joining the pieces with the separator gives back the string. */
  lemma {:induction false} JoinSplit(s: string, sep: char)
    ensures Join(Split(s, sep), [sep]) == s
  {
    if s != [] {
      var rest := Split(s[1..], sep);
      JoinSplit(s[1..], sep);
      if s[0] == sep {
        assert Join([""] + rest, [sep]) == "" + [sep] + Join(rest, [sep]);
        assert s == [s[0]] + s[1..];
      } else if |rest| == 1 {
        assert s == [s[0]] + s[1..];
      } else {
        var parts := [[s[0]] + rest[0]] + rest[1..];
        assert parts[1..] == rest[1..];
        assert Join(rest, [sep]) == rest[0] + [sep] + Join(rest[1..], [sep]);
        assert s == [s[0]] + s[1..];
      }
    }
  }

  lemma {:induction false} SplitNoSeparator(s: string, sep: char)
    requires sep !in s
    ensures Split(s, sep) == [s]
  {
    if s != [] {
      SplitNoSeparator(s[1..], sep);
      assert s == [s[0]] + s[1..];
    }
  }

  /** A separator splits the text into the pieces of its left part followed by those of its right part. */
  lemma {:induction false} SplitAppend(a: string, b: string, sep: char)
    ensures Split(a + [sep] + b, sep) == Split(a, sep) + Split(b, sep)
  {
    var s := a + [sep] + b;
    SplitAt(s, |a|, sep);
    assert s[..|a|] == a && s[|a| + 1..] == b;
  }

  /** Splitting at the separator in position `k`. */
  lemma {:induction false} SplitAt(s: string, k: nat, sep: char)
    requires k < |s| && s[k] == sep
    ensures Split(s, sep) == Split(s[..k], sep) + Split(s[k + 1..], sep)
    decreases k
  {
    var right := Split(s[k + 1..], sep);
    SplitUnfold(s, sep);
    if k == 0 {
      assert s[1..] == s[k + 1..];
      assert Split(s[..k], sep) == [""];
    } else {
      var u, v := s[1..], s[..k];
      SplitAt(u, k - 1, sep);
      assert u[..k - 1] == v[1..] && u[k..] == s[k + 1..];
      SplitUnfold(v, sep);
      PrependAppend(s[0], sep, Split(v[1..], sep), right);
    }
  }

  /** The piece list of `s` is that of `s[1..]` with the first character put in front. */
  function Prepend(c: char, sep: char, pieces: seq<string>): (r: seq<string>)
    requires 1 <= |pieces|
    ensures 1 <= |r|
  {
    if c == sep then [""] + pieces else [[c] + pieces[0]] + pieces[1..]
  }

  lemma {:induction false} SplitUnfold(s: string, sep: char)
    requires s != []
    ensures Split(s, sep) == Prepend(s[0], sep, Split(s[1..], sep))
  {
  }

  lemma {:induction false} PrependAppend(c: char, sep: char, left: seq<string>, right: seq<string>)
    requires 1 <= |left|
    ensures Prepend(c, sep, left + right) == Prepend(c, sep, left) + right
  {
    if c != sep {
      assert (left + right)[0] == left[0];
      assert (left + right)[1..] == left[1..] + right;
    }
  }

  /** Splitting separator-free pieces joined by the separator gives the pieces back. */
  lemma {:induction false} SplitJoin(parts: seq<string>, sep: char)
    requires 1 <= |parts|
    requires forall i :: 0 <= i < |parts| ==> sep !in parts[i]
    ensures Split(Join(parts, [sep]), sep) == parts
  {
    SplitNoSeparator(parts[0], sep);
    if 2 <= |parts| {
      SplitJoin(parts[1..], sep);
      SplitAppend(parts[0], Join(parts[1..], [sep]), sep);
      assert parts == [parts[0]] + parts[1..];
    }
  }
}
