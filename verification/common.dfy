/** Values and helpers shared by every part of the model: optional values,
    error results, Python/pandas slicing, the stable ranking sort used by
    `sorted(..., reverse=True)`, and the few string built-ins the scripts call
    (`isdigit`, `int`, `lower`, `split`, `strip`, `in`). */
module Common {

  /** A value that may be missing (pandas NaN, `None`). */
  datatype Option<+T> = None | Some(value: T) {
    function GetOr(default: T): T {
      if Some? then value else default
    }
  }

  /** A computation that either returns a value or raises. */
  datatype Result<+T, +E> = Ok(value: T) | Err(error: E)

  // ---------------------------------------------------------------------------
  // Slicing
  // ---------------------------------------------------------------------------

  /** pandas `head(n)` and Python's `s[:n]`: the first n elements, or, for a
      negative n, everything except the last |n| elements. */
  function Head<T>(s: seq<T>, n: int): (r: seq<T>)
    ensures r <= s
    ensures 0 <= n ==> |r| == if n < |s| then n else |s|
    ensures n < 0 ==> |r| == if |s| + n > 0 then |s| + n else 0
  {
    if n >= 0 then (if n < |s| then s[..n] else s)
    else if |s| + n > 0 then s[..|s| + n]
    else []
  }

  // ---------------------------------------------------------------------------
  // Stable ranking
  // ---------------------------------------------------------------------------

  /** The elements of s whose key is k, in their order in s. A sort is stable
      exactly when it keeps WithKey of every k unchanged. */
  function WithKey<T>(s: seq<T>, key: T -> int, k: int): seq<T>
  {
    if s == [] then []
    else (if key(s[0]) == k then [s[0]] else []) + WithKey(s[1..], key, k)
  }

  predicate NonIncreasing<T>(s: seq<T>, key: T -> int)
  {
    forall i, j :: 0 <= i < j < |s| ==> key(s[i]) >= key(s[j])
  }

  predicate NonDecreasing<T>(s: seq<T>, key: T -> int)
  {
    forall i, j :: 0 <= i < j < |s| ==> key(s[i]) <= key(s[j])
  }

  /** Puts x in front of the first element whose key is not larger than x's. */
  function InsertDesc<T>(x: T, s: seq<T>, key: T -> int): seq<T>
  {
    if s == [] || key(s[0]) <= key(x) then [x] + s
    else [s[0]] + InsertDesc(x, s[1..], key)
  }

  /** Python's `sorted(s, key=key, reverse=True)`: largest key first, equal
      keys in their original order. */
  function SortDesc<T>(s: seq<T>, key: T -> int): seq<T>
  {
    if s == [] then [] else InsertDesc(s[0], SortDesc(s[1..], key), key)
  }

  /** Python's `sorted(s, key=key)`: smallest key first, equal keys in their
      original order. */
  function SortAsc<T>(s: seq<T>, key: T -> int): seq<T>
  {
    SortDesc(s, x => -key(x))
  }

  lemma {:induction false} InsertDescPerm<T>(x: T, s: seq<T>, key: T -> int)
    ensures multiset(InsertDesc(x, s, key)) == multiset(s) + multiset{x}
  {
    if !(s == [] || key(s[0]) <= key(x)) {
      InsertDescPerm(x, s[1..], key);
      assert s == [s[0]] + s[1..];
    }
  }

  /** Every element of InsertDesc(x, s) is x or an element of s. */
  lemma InsertDescElements<T>(x: T, s: seq<T>, key: T -> int, j: int)
    requires 0 <= j < |InsertDesc(x, s, key)|
    ensures InsertDesc(x, s, key)[j] == x || exists m :: 0 <= m < |s| && s[m] == InsertDesc(x, s, key)[j]
  {
    var r := InsertDesc(x, s, key);
    InsertDescPerm(x, s, key);
    assert r[j] in multiset(r);
    if r[j] != x {
      assert r[j] in multiset(s);
    }
  }

  lemma {:induction false} InsertDescOrdered<T>(x: T, s: seq<T>, key: T -> int)
    requires NonIncreasing(s, key)
    ensures NonIncreasing(InsertDesc(x, s, key), key)
  {
    var r := InsertDesc(x, s, key);
    if s == [] || key(s[0]) <= key(x) {
      assert r == [x] + s;
      forall i, j | 0 <= i < j < |r| ensures key(r[i]) >= key(r[j]) {
        assert r[j] == s[j - 1];
        if i > 0 {
          assert r[i] == s[i - 1];
        }
      }
    } else {
      var t := s[1..];
      assert NonIncreasing(t, key) by {
        forall i, j | 0 <= i < j < |t| ensures key(t[i]) >= key(t[j]) {
          assert t[i] == s[i + 1] && t[j] == s[j + 1];
        }
      }
      InsertDescOrdered(x, t, key);
      var rt := InsertDesc(x, t, key);
      assert r == [s[0]] + rt;
      forall j | 0 <= j < |rt| ensures key(s[0]) >= key(rt[j]) {
        InsertDescElements(x, t, key, j);
        if rt[j] != x {
          var m :| 0 <= m < |t| && t[m] == rt[j];
          assert t[m] == s[m + 1];
        }
      }
      forall i, j | 0 <= i < j < |r| ensures key(r[i]) >= key(r[j]) {
        assert r[j] == rt[j - 1];
        if i > 0 {
          assert r[i] == rt[i - 1];
        }
      }
    }
  }

  lemma {:induction false} InsertDescStable<T>(x: T, s: seq<T>, key: T -> int, k: int)
    ensures WithKey(InsertDesc(x, s, key), key, k)
            == (if key(x) == k then [x] else []) + WithKey(s, key, k)
  {
    var r := InsertDesc(x, s, key);
    if s == [] || key(s[0]) <= key(x) {
      assert r == [x] + s;
      assert r[1..] == s;
    } else {
      InsertDescStable(x, s[1..], key, k);
      var rt := InsertDesc(x, s[1..], key);
      assert r == [s[0]] + rt;
      assert r[1..] == rt;
    }
  }

  /** Python's stable descending sort: ordered, a permutation, and stable. */
  lemma {:induction false} SortDescSpec<T>(s: seq<T>, key: T -> int)
    ensures |SortDesc(s, key)| == |s|
    ensures NonIncreasing(SortDesc(s, key), key)
    ensures multiset(SortDesc(s, key)) == multiset(s)
    ensures forall k :: WithKey(SortDesc(s, key), key, k) == WithKey(s, key, k)
  {
    if s != [] {
      SortDescSpec(s[1..], key);
      InsertDescOrdered(s[0], SortDesc(s[1..], key), key);
      InsertDescPerm(s[0], SortDesc(s[1..], key), key);
      assert s == [s[0]] + s[1..];
      assert multiset(s) == multiset{s[0]} + multiset(s[1..]);
      assert |multiset(SortDesc(s, key))| == |multiset(s)|;
      forall k ensures WithKey(SortDesc(s, key), key, k) == WithKey(s, key, k) {
        InsertDescStable(s[0], SortDesc(s[1..], key), key, k);
        assert WithKey(s, key, k) == (if key(s[0]) == k then [s[0]] else []) + WithKey(s[1..], key, k);
      }
    }
  }

  lemma WithKeyNegated<T>(s: seq<T>, key: T -> int, k: int)
    ensures WithKey(s, x => -key(x), -k) == WithKey(s, key, k)
  {
    if s != [] {
      WithKeyNegated(s[1..], key, k);
    }
  }

  /** Python's stable ascending sort: ordered, a permutation, and stable. */
  lemma SortAscSpec<T>(s: seq<T>, key: T -> int)
    ensures |SortAsc(s, key)| == |s|
    ensures NonDecreasing(SortAsc(s, key), key)
    ensures multiset(SortAsc(s, key)) == multiset(s)
    ensures forall k :: WithKey(SortAsc(s, key), key, k) == WithKey(s, key, k)
  {
    var neg := x => -key(x);
    SortDescSpec(s, neg);
    var r := SortAsc(s, key);
    assert NonIncreasing(r, neg);
    forall i, j | 0 <= i < j < |r| ensures key(r[i]) <= key(r[j]) {
      assert neg(r[i]) >= neg(r[j]);
    }
    forall k ensures WithKey(r, key, k) == WithKey(s, key, k) {
      WithKeyNegated(r, key, k);
      WithKeyNegated(s, key, k);
    }
  }

  /** Every element of a prefix of a sequence is an element of the sequence. */
  lemma HeadSubMultiset<T>(s: seq<T>, n: int)
    ensures multiset(Head(s, n)) <= multiset(s)
  {
    var h := Head(s, n);
    assert s == h + s[|h|..];
  }

  /** A prefix of an ordered sequence is ordered. */
  lemma HeadNonIncreasing<T>(s: seq<T>, n: int, key: T -> int)
    requires NonIncreasing(s, key)
    ensures NonIncreasing(Head(s, n), key)
  {
    var h := Head(s, n);
    forall i, j | 0 <= i < j < |h| ensures key(h[i]) >= key(h[j]) {
      assert h[i] == s[i] && h[j] == s[j];
    }
  }

  lemma HeadNonDecreasing<T>(s: seq<T>, n: int, key: T -> int)
    requires NonDecreasing(s, key)
    ensures NonDecreasing(Head(s, n), key)
  {
    var h := Head(s, n);
    forall i, j | 0 <= i < j < |h| ensures key(h[i]) <= key(h[j]) {
      assert h[i] == s[i] && h[j] == s[j];
    }
  }

  /** The first n of a descending sort are a top n: none of the elements left
      out has a larger key than one kept, and kept plus left out is the input. */
  lemma HeadIsTop<T>(s: seq<T>, key: T -> int, n: int)
    ensures var t := SortDesc(s, key);
      && multiset(Head(t, n)) + multiset(t[|Head(t, n)|..]) == multiset(s)
      && forall x, y :: x in Head(t, n) && y in t[|Head(t, n)|..] ==> key(x) >= key(y)
  {
    var t := SortDesc(s, key);
    SortDescSpec(s, key);
    var h := Head(t, n);
    assert t == h + t[|h|..];
    SplitOrdered(t, |h|, key);
  }

  /** In an ordered sequence, nothing after a cut has a larger key than
      something before it. */
  lemma SplitOrdered<T>(t: seq<T>, m: int, key: T -> int)
    requires NonIncreasing(t, key) && 0 <= m <= |t|
    ensures forall x, y :: x in t[..m] && y in t[m..] ==> key(x) >= key(y)
  {
    forall x, y | x in t[..m] && y in t[m..] ensures key(x) >= key(y) {
      var i :| 0 <= i < m && t[..m][i] == x;
      var j :| 0 <= j < |t| - m && t[m..][j] == y;
      assert t[i] == x && t[m + j] == y;
    }
  }

  /** `sorted(s, key=key, reverse=True)[:n]` for n not negative: min(n, |s|)
      elements of s, ordered, with ties in their order in s. */
  lemma TopN<T>(s: seq<T>, key: T -> int, n: int)
    requires n >= 0
    ensures var r := Head(SortDesc(s, key), n);
      && |r| == (if n < |s| then n else |s|)
      && NonIncreasing(r, key)
      && (forall x :: x in r ==> x in s)
      && (forall x, y :: x in r && y in s && y !in r ==> key(x) >= key(y))
  {
    var t := SortDesc(s, key);
    SortDescSpec(s, key);
    var r := Head(t, n);
    HeadNonIncreasing(t, n, key);
    forall x | x in r ensures x in s {
      assert x in multiset(t);
    }
    TopNLeftOut(s, key, n);
  }

  /** A top n keeps tied elements in their order in s. */
  lemma TopNStable<T>(s: seq<T>, key: T -> int, n: int)
    ensures forall k :: WithKey(Head(SortDesc(s, key), n), key, k) <= WithKey(s, key, k)
  {
    var t := SortDesc(s, key);
    SortDescSpec(s, key);
    var r := Head(t, n);
    forall k ensures WithKey(r, key, k) <= WithKey(s, key, k) {
      WithKeyPrefix(t, |r|, key, k);
      assert t[..|r|] == r;
    }
  }

  /** Nothing a top n leaves out has a larger key than something it keeps. */
  lemma TopNLeftOut<T>(s: seq<T>, key: T -> int, n: int)
    ensures var r := Head(SortDesc(s, key), n);
      forall x, y :: x in r && y in s && y !in r ==> key(x) >= key(y)
  {
    var t := SortDesc(s, key);
    var r := Head(t, n);
    HeadIsTop(s, key, n);
    forall x, y | x in r && y in s && y !in r ensures key(x) >= key(y) {
      assert y in multiset(s);
      assert y !in multiset(r);
      assert y in multiset(t[|r|..]);
    }
  }

  /** A prefix keeps, for every key, a prefix of the elements with that key:
      cutting a stable sort keeps the original order among ties. */
  lemma {:induction false} WithKeyPrefix<T>(s: seq<T>, i: int, key: T -> int, k: int)
    requires 0 <= i <= |s|
    ensures WithKey(s[..i], key, k) <= WithKey(s, key, k)
  {
    if i > 0 {
      WithKeyPrefix(s[1..], i - 1, key, k);
      assert s[..i][0] == s[0] && s[..i][1..] == s[1..][..i - 1];
    }
  }

  /** Python's `max(s, key=key)` as a position: the first element whose key is
      maximal. */
  function ArgMaxFirst<T>(s: seq<T>, key: T -> int): (i: nat)
    requires s != []
    ensures i < |s|
    ensures forall j :: 0 <= j < |s| ==> key(s[j]) <= key(s[i])
    ensures forall j :: 0 <= j < i ==> key(s[j]) < key(s[i])
  {
    if |s| == 1 then 0
    else
      var m := ArgMaxFirst(s[..|s| - 1], key);
      if key(s[|s| - 1]) > key(s[m]) then |s| - 1 else m
  }

  // ---------------------------------------------------------------------------
  // Distinct sequences
  // ---------------------------------------------------------------------------

  /** No element occurs twice: each element is absent from what precedes it. */
  predicate Distinct<T(==)>(s: seq<T>)
  {
    s == [] || (Distinct(s[..|s| - 1]) && s[|s| - 1] !in s[..|s| - 1])
  }

  /** Distinct says that any two positions hold different elements. */
  lemma {:induction false} DistinctIndices<T>(s: seq<T>)
    ensures Distinct(s) <==> forall i, j :: 0 <= i < j < |s| ==> s[i] != s[j]
  {
    if s != [] {
      var t, last := s[..|s| - 1], s[|s| - 1];
      DistinctIndices(t);
      if Distinct(s) {
        forall i, j | 0 <= i < j < |s| ensures s[i] != s[j] {
          if j < |s| - 1 {
            assert s[i] == t[i] && s[j] == t[j];
          } else {
            assert s[i] == t[i];
          }
        }
      }
      if forall i, j :: 0 <= i < j < |s| ==> s[i] != s[j] {
        forall i, j | 0 <= i < j < |t| ensures t[i] != t[j] {
          assert t[i] == s[i] && t[j] == s[j];
        }
        forall i | 0 <= i < |t| ensures t[i] != last {
          assert t[i] == s[i];
        }
      }
    }
  }

  /** Appending an element that is not there keeps a sequence distinct. */
  lemma DistinctAppend<T>(s: seq<T>, x: T)
    requires Distinct(s) && x !in s
    ensures Distinct(s + [x])
  {
    assert (s + [x])[..|s|] == s;
  }

  /** In a sequence without repetitions every value occurs at most once. */
  lemma {:induction false} DistinctCount<T>(s: seq<T>, x: T)
    requires Distinct(s)
    ensures multiset(s)[x] <= 1
  {
    if s != [] {
      var t, last := s[..|s| - 1], s[|s| - 1];
      assert s == t + [last];
      DistinctCount(t, x);
    }
  }

  /** Dropping the last element of a + b drops the last element of b. */
  lemma ConcatDropLast<T>(a: seq<T>, b: seq<T>)
    requires b != []
    ensures (a + b)[..|a + b| - 1] == a + b[..|b| - 1]
    ensures (a + b)[|a + b| - 1] == b[|b| - 1]
  {
  }

  /** The elements of a non-empty sequence are those before its last one and
      the last one. */
  lemma InDropLast<T>(s: seq<T>)
    requires s != []
    ensures forall x :: x in s <==> x in s[..|s| - 1] || x == s[|s| - 1]
  {
    assert s == s[..|s| - 1] + [s[|s| - 1]];
  }

  /** A sequence is what comes before position i, the element there, and
      what comes after. */
  lemma SplitAt<T>(s: seq<T>, i: int)
    requires 0 <= i < |s|
    ensures s == s[..i] + [s[i]] + s[i + 1..]
    ensures s[..i] + [s[i]] == s[..i + 1]
  {
  }

  /** Only the empty sequence is a permutation of the empty sequence. */
  lemma PermEmpty<T>(a: seq<T>, b: seq<T>)
    requires multiset(a) == multiset(b) && a == []
    ensures b == []
  {
    assert |b| == |multiset(b)|;
  }

  /** Taking the last element of a out of a and one occurrence of it out of a
      permutation b leaves two permutations of each other. */
  lemma PermDropLast<T>(a: seq<T>, b: seq<T>, i: int)
    requires multiset(a) == multiset(b) && a != [] && 0 <= i < |b| && b[i] == a[|a| - 1]
    ensures multiset(a[..|a| - 1]) == multiset(b[..i] + b[i + 1..])
  {
    var a', x, b1, b2 := a[..|a| - 1], a[|a| - 1], b[..i], b[i + 1..];
    assert a == a' + [x];
    assert b == b1 + [x] + b2;
    assert multiset(a) == multiset(a') + multiset{x};
    assert multiset(b) == multiset(b1) + multiset{x} + multiset(b2);
    forall y ensures multiset(a')[y] == multiset(b1 + b2)[y] {
      assert multiset(b1 + b2)[y] == multiset(b1)[y] + multiset(b2)[y];
      assert multiset(a)[y] == multiset(a')[y] + multiset{x}[y];
      assert multiset(b)[y] == multiset(b1)[y] + multiset{x}[y] + multiset(b2)[y];
    }
  }

  /** A sequence without repetitions has as many elements as its set. */
  lemma {:induction false} DistinctCard<T>(s: seq<T>)
    requires Distinct(s)
    ensures |set x | x in s| == |s|
  {
    if s != [] {
      var t, last := s[..|s| - 1], s[|s| - 1];
      DistinctCard(t);
      assert (set x | x in s) == (set x | x in t) + {last} by {
        assert s == t + [last];
      }
    }
  }

  // ---------------------------------------------------------------------------
  // Strings
  // ---------------------------------------------------------------------------

  predicate IsDigit(c: char)
  {
    '0' <= c <= '9'
  }

  /** Python's `str.isdigit()` on ASCII text: non-empty and only digits. */
  predicate IsDigits(s: string)
  {
    |s| > 0 && forall i :: 0 <= i < |s| ==> IsDigit(s[i])
  }

  /** Python's `int(s)` on a string of decimal digits. */
  function DigitsValue(s: string): nat
    requires forall i :: 0 <= i < |s| ==> IsDigit(s[i])
  {
    if s == [] then 0
    else
      assert IsDigit(s[|s| - 1]);
      DigitsValue(s[..|s| - 1]) * 10 + (s[|s| - 1] as int - '0' as int)
  }

  /** Python's `str(n)` for a natural number: its decimal digits. */
  function Decimal(n: nat): string
  {
    (if n < 10 then [] else Decimal(n / 10)) + ['0' + (n % 10) as char]
  }

  /** Reading back what `str` writes gives the number: `int(str(n)) == n`,
      and `str(n).isdigit()` holds. */
  lemma {:induction false} DecimalValue(n: nat)
    ensures IsDigits(Decimal(n)) && DigitsValue(Decimal(n)) == n
  {
    var s := Decimal(n);
    if n >= 10 {
      DecimalValue(n / 10);
      assert s[..|s| - 1] == Decimal(n / 10);
    } else {
      assert s[..|s| - 1] == [];
    }
  }

  /** Python's `str.lower()` on ASCII letters. */
  function Lower(s: string): (r: string)
    ensures |r| == |s|
    ensures forall i :: 0 <= i < |s| ==> !('A' <= r[i] <= 'Z')
  {
    if s == [] then []
    else [if 'A' <= s[0] <= 'Z' then (s[0] as int + 32) as char else s[0]] + Lower(s[1..])
  }

  /** Python's `str.replace(old, new)` for one-character `old` and `new`. */
  function ReplaceChar(s: string, from: char, to: char): (r: string)
    ensures |r| == |s|
    ensures from != to ==> from !in r
    ensures forall x :: x in r ==> x in s || x == to
  {
    if s == [] then []
    else [if s[0] == from then to else s[0]] + ReplaceChar(s[1..], from, to)
  }

  /** Python's `str.replace(c, '')`. */
  function RemoveChar(s: string, c: char): (r: string)
    ensures c !in r
    ensures |r| <= |s|
    ensures forall x :: x in r ==> x in s
  {
    if s == [] then []
    else (if s[0] == c then [] else [s[0]]) + RemoveChar(s[1..], c)
  }

  /** Python's whitespace for `str.strip()`: tab to carriage return, the
      four separators 0x1C-0x1F, the space, and the Unicode spaces and line
      separators. */
  predicate IsSpace(c: char)
  {
    || c == ' ' || ('\t' <= c <= '\r') || ('\U{001C}' <= c <= '\U{001F}')
    || c == '\U{0085}' || c == '\U{00A0}' || c == '\U{1680}' || ('\U{2000}' <= c <= '\U{200A}')
    || c == '\U{2028}' || c == '\U{2029}' || c == '\U{202F}' || c == '\U{205F}' || c == '\U{3000}'
  }

  function TrimStart(s: string): string
  {
    if s != [] && IsSpace(s[0]) then TrimStart(s[1..]) else s
  }

  function TrimEnd(s: string): string
  {
    if s != [] && IsSpace(s[|s| - 1]) then TrimEnd(s[..|s| - 1]) else s
  }

  /** Python's `str.strip()`. */
  function Strip(s: string): string
  {
    TrimEnd(TrimStart(s))
  }

  /** Python's `str.split(sep)` for a one-character separator. */
  function Split(s: string, sep: char): (r: seq<string>)
    ensures |r| >= 1
  {
    if s == [] then [""]
    else
      var rest := Split(s[1..], sep);
      if s[0] == sep then [""] + rest else [[s[0]] + rest[0]] + rest[1..]
  }

  /** Python's `sub in s` on strings. */
  predicate Contains(s: string, sub: string)
  {
    sub <= s || (s != [] && Contains(s[1..], sub))
  }

  lemma SplitNoSep(s: string, sep: char)
    requires sep !in s
    ensures Split(s, sep) == [s]
  {
    if s != [] {
      SplitNoSep(s[1..], sep);
      assert [s[0]] + s[1..] == s;
    }
  }

  /** Splitting at the first separator: the text before it is the first field. */
  lemma {:induction false} SplitJoin(a: string, b: string, sep: char)
    requires sep !in a
    ensures Split(a + [sep] + b, sep) == [a] + Split(b, sep)
  {
    if a == [] {
      assert a + [sep] + b == [sep] + b;
      assert ([sep] + b)[1..] == b;
    } else {
      var s := a + [sep] + b;
      assert s[1..] == a[1..] + [sep] + b;
      SplitJoin(a[1..], b, sep);
      assert [a[0]] + a[1..] == a;
    }
  }

  /** A sequence in which nothing occurs twice is distinct. */
  lemma {:induction false} CountsDistinct<T>(s: seq<T>)
    requires forall x :: multiset(s)[x] <= 1
    ensures Distinct(s)
  {
    if s != [] {
      var t, last := s[..|s| - 1], s[|s| - 1];
      assert s == t + [last];
      assert multiset(s) == multiset(t) + multiset{last};
      assert forall x :: multiset(t)[x] <= multiset(s)[x];
      CountsDistinct(t);
      assert multiset(s)[last] == multiset(t)[last] + 1;
      assert last !in multiset(t);
    }
  }

  // ---------------------------------------------------------------------------
  // Pairs: two nested loops over the same list, keeping the pairs i < j
  // ---------------------------------------------------------------------------

  /** The pairs (ls[i], ls[j]) with i < j < k that the test accepts: what the
      inner loop adds for the outer position i after k steps. */
  function ParesDe<T>(ls: seq<T>, teste: (T, T) -> bool, i: nat, k: nat): seq<(T, T)>
    requires i < |ls| && k <= |ls|
    decreases k
  {
    if k == 0 then []
    else ParesDe(ls, teste, i, k - 1) + (if i < k - 1 && teste(ls[i], ls[k - 1]) then [(ls[i], ls[k - 1])] else [])
  }

  /** What the two loops add for the outer positions below i. */
  function ParesAte<T>(ls: seq<T>, teste: (T, T) -> bool, i: nat): seq<(T, T)>
    requires i <= |ls|
    decreases i
  {
    if i == 0 then [] else ParesAte(ls, teste, i - 1) + ParesDe(ls, teste, i - 1, |ls|)
  }

  function Pares<T>(ls: seq<T>, teste: (T, T) -> bool): seq<(T, T)>
  {
    ParesAte(ls, teste, |ls|)
  }

  /** `for i, a in enumerate(ls): for j, b in enumerate(ls): if i < j and
      teste(a, b): add_edge(a, b)`, the edges in the order they are added. */
  method Parear<T>(ls: seq<T>, teste: (T, T) -> bool) returns (pares: seq<(T, T)>)
    ensures pares == Pares(ls, teste)
  {
    pares := [];
    for i := 0 to |ls|
      invariant pares == ParesAte(ls, teste, i)
    {
      for j := 0 to |ls|
        invariant pares == ParesAte(ls, teste, i) + ParesDe(ls, teste, i, j)
      {
        if i < j && teste(ls[i], ls[j]) {
          pares := pares + [(ls[i], ls[j])];
        }
      }
    }
  }

  /** The pair (ls[a], ls[b]) is e, with a < b, and the test accepts it. */
  ghost predicate ParAceito<T>(ls: seq<T>, teste: (T, T) -> bool, a: int, b: int, e: (T, T))
  {
    0 <= a < b < |ls| && e == (ls[a], ls[b]) && teste(ls[a], ls[b])
  }

  /** Every pair the inner loop reports for i is an accepted pair (ls[i], ls[j]). */
  lemma {:induction false} ParesDeForma<T>(ls: seq<T>, teste: (T, T) -> bool, i: nat, k: nat, e: (T, T)) returns (j: int)
    requires i < |ls| && k <= |ls| && e in ParesDe(ls, teste, i, k)
    ensures j < k && ParAceito(ls, teste, i, j, e)
    decreases k
  {
    var p := ParesDe(ls, teste, i, k - 1);
    if e in p {
      j := ParesDeForma(ls, teste, i, k - 1, e);
    } else {
      j := k - 1;
    }
  }

  /** The inner loop for i reports every accepted pair (ls[i], ls[j]) with
      j < k, at position n of its output. */
  lemma {:induction false} ParesDePos<T>(ls: seq<T>, teste: (T, T) -> bool, i: nat, k: nat, j: int) returns (n: nat)
    requires i < j < k <= |ls| && teste(ls[i], ls[j])
    ensures n < |ParesDe(ls, teste, i, k)| && ParesDe(ls, teste, i, k)[n] == (ls[i], ls[j])
    decreases k
  {
    var p := ParesDe(ls, teste, i, k - 1);
    assert ParesDe(ls, teste, i, k) == p + (if i < k - 1 && teste(ls[i], ls[k - 1]) then [(ls[i], ls[k - 1])] else []);
    if j < k - 1 {
      n := ParesDePos(ls, teste, i, k - 1, j);
      assert ParesDe(ls, teste, i, k)[n] == p[n];
    } else {
      n := |p|;
    }
  }

  lemma ParesDeTem<T>(ls: seq<T>, teste: (T, T) -> bool, i: nat, k: nat, j: int)
    requires i < j < k <= |ls| && teste(ls[i], ls[j])
    ensures (ls[i], ls[j]) in ParesDe(ls, teste, i, k)
  {
    var n := ParesDePos(ls, teste, i, k, j);
  }

  lemma ParesDeSpec<T>(ls: seq<T>, teste: (T, T) -> bool, i: nat, k: nat, e: (T, T))
    requires i < |ls| && k <= |ls|
    ensures e in ParesDe(ls, teste, i, k) <==> exists j :: j < k && ParAceito(ls, teste, i, j, e)
  {
    if e in ParesDe(ls, teste, i, k) {
      var j := ParesDeForma(ls, teste, i, k, e);
    }
    forall j | j < k && ParAceito(ls, teste, i, j, e) ensures e in ParesDe(ls, teste, i, k) {
      ParesDeTem(ls, teste, i, k, j);
    }
  }

  /** Every pair the two loops report below i is an accepted pair. */
  lemma {:induction false} ParesAteForma<T>(ls: seq<T>, teste: (T, T) -> bool, i: nat, e: (T, T)) returns (a: int, b: int)
    requires i <= |ls| && e in ParesAte(ls, teste, i)
    ensures a < i && ParAceito(ls, teste, a, b, e)
  {
    var k :| 0 <= k < |ParesAte(ls, teste, i)| && ParesAte(ls, teste, i)[k] == e;
    a, b := ParesAteIndice(ls, teste, i, k);
  }

  lemma {:induction false} ParesAteIndice<T>(ls: seq<T>, teste: (T, T) -> bool, i: nat, k: nat) returns (a: int, b: int)
    requires i <= |ls| && k < |ParesAte(ls, teste, i)|
    ensures a < i && ParAceito(ls, teste, a, b, ParesAte(ls, teste, i)[k])
    decreases i
  {
    var q, r := ParesAte(ls, teste, i - 1), ParesDe(ls, teste, i - 1, |ls|);
    assert ParesAte(ls, teste, i) == q + r;
    if k < |q| {
      assert ParesAte(ls, teste, i)[k] == q[k];
      a, b := ParesAteIndice(ls, teste, i - 1, k);
    } else {
      assert ParesAte(ls, teste, i)[k] == r[k - |q|];
      a := i - 1;
      b := ParesDeForma(ls, teste, i - 1, |ls|, r[k - |q|]);
    }
  }

  /** What is reported below i - 1 or for i - 1 is reported below i. */
  lemma ParesAteInclui<T>(ls: seq<T>, teste: (T, T) -> bool, i: nat, x: (T, T))
    requires 0 < i <= |ls|
    ensures x in ParesAte(ls, teste, i - 1) || x in ParesDe(ls, teste, i - 1, |ls|) ==> x in ParesAte(ls, teste, i)
  {
  }

  /** The pairs reported below j are a prefix of those reported below any
      later i. */
  lemma {:induction false} ParesAteCresce<T>(ls: seq<T>, teste: (T, T) -> bool, j: nat, i: nat, k: nat)
    requires j <= i <= |ls| && k < |ParesAte(ls, teste, j)|
    ensures k < |ParesAte(ls, teste, i)| && ParesAte(ls, teste, i)[k] == ParesAte(ls, teste, j)[k]
    decreases i
  {
    if j < i {
      ParesAteCresce(ls, teste, j, i - 1, k);
      var q, r := ParesAte(ls, teste, i - 1), ParesDe(ls, teste, i - 1, |ls|);
      assert ParesAte(ls, teste, i) == q + r;
      assert |ParesAte(ls, teste, i)| == |q| + |r|;
      assert ParesAte(ls, teste, i)[k] == q[k];
    }
  }

  /** The two loops report below i every accepted pair whose first position
      is below i. */
  lemma ParesAteTem<T>(ls: seq<T>, teste: (T, T) -> bool, i: nat, a: int, b: int)
    requires 0 <= a < i <= |ls| && a < b < |ls| && teste(ls[a], ls[b])
    ensures (ls[a], ls[b]) in ParesAte(ls, teste, i)
  {
    var q, r := ParesAte(ls, teste, a), ParesDe(ls, teste, a, |ls|);
    var k := ParesDePos(ls, teste, a, |ls|, b);
    assert ParesAte(ls, teste, a + 1) == q + r;
    assert ParesAte(ls, teste, a + 1)[|q| + k] == r[k];
    ParesAteCresce(ls, teste, a + 1, i, |q| + k);
    assert ParesAte(ls, teste, i)[|q| + k] == (ls[a], ls[b]);
  }

  lemma ParesAteSpec<T>(ls: seq<T>, teste: (T, T) -> bool, i: nat, e: (T, T))
    requires i <= |ls|
    ensures e in ParesAte(ls, teste, i) <==> exists a, b :: a < i && ParAceito(ls, teste, a, b, e)
  {
    if e in ParesAte(ls, teste, i) {
      var a, b := ParesAteForma(ls, teste, i, e);
    }
    forall a, b | a < i && ParAceito(ls, teste, a, b, e) ensures e in ParesAte(ls, teste, i) {
      ParesAteTem(ls, teste, i, a, b);
    }
  }

  /** A pair is reported exactly when its first node comes before its second
      and the test accepts them; with distinct nodes, never a node with
      itself and never both orientations of one pair. */
  lemma ParesSpec<T>(ls: seq<T>, teste: (T, T) -> bool)
    ensures forall e :: e in Pares(ls, teste) <==>
      exists a, b :: 0 <= a < b < |ls| && e == (ls[a], ls[b]) && teste(ls[a], ls[b])
    ensures Distinct(ls) ==> forall e :: e in Pares(ls, teste) ==> e.0 != e.1 && (e.1, e.0) !in Pares(ls, teste)
  {
    forall e
      ensures e in Pares(ls, teste) <==>
        exists a, b :: 0 <= a < b < |ls| && e == (ls[a], ls[b]) && teste(ls[a], ls[b])
    {
      ParesAteSpec(ls, teste, |ls|, e);
      if e in Pares(ls, teste) {
        var a, b :| a < |ls| && ParAceito(ls, teste, a, b, e);
      }
      forall a, b | 0 <= a < b < |ls| && e == (ls[a], ls[b]) && teste(ls[a], ls[b])
        ensures e in Pares(ls, teste)
      {
        assert ParAceito(ls, teste, a, b, e);
      }
    }
    if Distinct(ls) {
      DistinctIndices(ls);
      forall e | e in Pares(ls, teste)
        ensures e.0 != e.1 && (e.1, e.0) !in Pares(ls, teste)
      {
        ParesAteSpec(ls, teste, |ls|, e);
        var a, b :| a < |ls| && ParAceito(ls, teste, a, b, e);
      }
    }
  }

  /** Before position i + 1 the inner loop has added nothing for i: the loop
      `for j in range(i + 1, n)` starts where this one's first pair is. */
  lemma {:induction false} ParesDeInicio<T>(ls: seq<T>, teste: (T, T) -> bool, i: nat, k: nat)
    requires i < |ls| && k <= i + 1
    ensures ParesDe(ls, teste, i, k) == []
    decreases k
  {
    if k > 0 {
      ParesDeInicio(ls, teste, i, k - 1);
    }
  }
}
