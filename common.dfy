/** Helpers shared by every module: an Option type, the abstract key type,
    the text operations the pages use (ASCII lower-casing, substring search,
    the regular-expression character classes) and the primary-key-order scan
    of a keyed table. */
module Common {

  datatype Option<T> = None | Some(value: T)

  /** One abstract key type for every record id: Dexie's auto-incremented
      integer keys, the Mirage server's ids and the drag library's
      `draggableId` are all taken to be values of this type. */
  type Id = nat

  // ---------------------------------------------------------------------
  // Text

  function LowerChar(c: char): char {
    if 'A' <= c <= 'Z' then (c as int + 32) as char else c
  }

  /** `toLowerCase`, restricted to ASCII letters. */
  function Lower(s: string): string {
    seq(|s|, i requires 0 <= i < |s| => LowerChar(s[i]))
  }

  predicate OccursAt(s: string, sub: string, i: nat) {
    i + |sub| <= |s| && s[i..i + |sub|] == sub
  }

  /** `s.includes(sub)`. */
  predicate Contains(s: string, sub: string) {
    exists i: nat :: i <= |s| && OccursAt(s, sub, i)
  }

  lemma ContainsEmpty(s: string)
    ensures Contains(s, "")
  {
    assert OccursAt(s, "", 0);
  }

  /** The regular-expression class `\w`: `[A-Za-z0-9_]`. */
  predicate IsWordChar(c: char) {
    'a' <= c <= 'z' || 'A' <= c <= 'Z' || '0' <= c <= '9' || c == '_'
  }

  /** The regular-expression class `\s`, which is also what `trim()`
      removes: ECMAScript's WhiteSpace and LineTerminator characters (tab,
      line feed, vertical tab, form feed, carriage return, space, no-break
      space, the Ogham space mark, U+2000 to U+200A, the line and paragraph
      separators, the narrow no-break space, the medium mathematical space,
      the ideographic space and the byte order mark). */
  predicate IsSpace(c: char) {
    var n := c as int;
    9 <= n <= 13 || n == 0x20 || n == 0xA0 || n == 0x1680 || 0x2000 <= n <= 0x200A ||
    n == 0x2028 || n == 0x2029 || n == 0x202F || n == 0x205F || n == 0x3000 || n == 0xFEFF
  }

  function DigitChar(d: nat): char
    requires d < 10
  {
    (('0' as int) + d) as char
  }

  /** Decimal rendering of a natural number, as a template literal shows it. */
  function NatToString(n: nat): string
    decreases n
  {
    if n < 10 then [DigitChar(n)] else NatToString(n / 10) + [DigitChar(n % 10)]
  }

  function IntToString(i: int): string {
    if i < 0 then "-" + NatToString(-i) else NatToString(i)
  }

  lemma {:induction false} NatToStringDigits(n: nat)
    ensures |NatToString(n)| > 0
    ensures forall k :: 0 <= k < |NatToString(n)| ==> '0' <= NatToString(n)[k] <= '9'
    decreases n
  {
    if n >= 10 {
      NatToStringDigits(n / 10);
    }
  }

  predicate IsDigitChar(c: char) {
    '0' <= c <= '9'
  }

  /** The value of a string of decimal digits, most significant first. */
  function DecimalValue(s: string): nat
    requires forall k :: 0 <= k < |s| ==> IsDigitChar(s[k])
  {
    if s == [] then 0
    else
      assert IsDigitChar(s[|s| - 1]);
      DecimalValue(s[..|s| - 1]) * 10 + (s[|s| - 1] as int - '0' as int) as nat
  }

  /** A route parameter read as a number, for the parameters this code base
      builds: a non-empty run of decimal digits has its value, anything else
      is NaN (`None`). */
  function ParseDecimal(s: string): Option<nat> {
    if s != [] && forall k :: 0 <= k < |s| ==> IsDigitChar(s[k]) then Some(DecimalValue(s)) else None
  }

  /** Reading back a rendered number gives the number. */
  lemma {:induction false} ParseNatToString(n: nat)
    ensures ParseDecimal(NatToString(n)) == Some(n)
    decreases n
  {
    NatToStringDigits(n);
    var s := NatToString(n);
    if n >= 10 {
      ParseNatToString(n / 10);
      assert s[..|s| - 1] == NatToString(n / 10);
      assert DecimalValue(s) == (n / 10) * 10 + n % 10;
    } else {
      assert s[..|s| - 1] == [];
      assert DecimalValue(s) == n;
    }
  }

  // ---------------------------------------------------------------------
  // Sequences

  /** The sequence without its element at `i`; unchanged when `i` is out of
      range. This is both `splice(i, 1)` and `filter((_, k) => k !== i)`. */
  function RemoveAt<T>(s: seq<T>, i: nat): seq<T> {
    if i < |s| then s[..i] + s[i + 1..] else s
  }

  lemma RemoveAtProperties<T>(s: seq<T>, i: nat)
    ensures i < |s| ==> |RemoveAt(s, i)| == |s| - 1
    ensures i < |s| ==> forall k :: 0 <= k < i ==> RemoveAt(s, i)[k] == s[k]
    ensures i < |s| ==> forall k :: i <= k < |s| - 1 ==> RemoveAt(s, i)[k] == s[k + 1]
    ensures i >= |s| ==> RemoveAt(s, i) == s
  {
  }

  /** `s` is in ascending `key` order. */
  ghost predicate SortedByKey<T>(s: seq<T>, key: T -> int) {
    forall i, j :: 0 <= i < j < |s| ==> key(s[i]) <= key(s[j])
  }

  function InsertByKey<T>(x: T, sorted: seq<T>, key: T -> int): seq<T> {
    if sorted == [] || key(x) <= key(sorted[0]) then [x] + sorted
    else [sorted[0]] + InsertByKey(x, sorted[1..], key)
  }

  /** A stable sort on `key`, as `Array.prototype.sort` with a comparator
      that subtracts the keys: elements with equal keys keep their order. */
  function SortByKey<T>(s: seq<T>, key: T -> int): seq<T> {
    if s == [] then [] else InsertByKey(s[0], SortByKey(s[1..], key), key)
  }

  lemma {:induction false} InsertByKeyBound<T>(x: T, sorted: seq<T>, key: T -> int, b: int)
    requires b <= key(x) && forall k :: 0 <= k < |sorted| ==> b <= key(sorted[k])
    ensures forall k :: 0 <= k < |InsertByKey(x, sorted, key)| ==> b <= key(InsertByKey(x, sorted, key)[k])
  {
    if sorted != [] && key(x) > key(sorted[0]) {
      InsertByKeyBound(x, sorted[1..], key, b);
      var r := InsertByKey(x, sorted[1..], key);
      assert InsertByKey(x, sorted, key) == [sorted[0]] + r;
    }
  }

  lemma {:induction false} InsertByKeyMultiset<T>(x: T, sorted: seq<T>, key: T -> int)
    ensures multiset(InsertByKey(x, sorted, key)) == multiset(sorted) + multiset{x}
    ensures |InsertByKey(x, sorted, key)| == |sorted| + 1
  {
    if sorted != [] && key(x) > key(sorted[0]) {
      InsertByKeyMultiset(x, sorted[1..], key);
      assert sorted == [sorted[0]] + sorted[1..];
    }
  }

  lemma {:induction false} InsertByKeyProperties<T>(x: T, sorted: seq<T>, key: T -> int)
    requires SortedByKey(sorted, key)
    ensures SortedByKey(InsertByKey(x, sorted, key), key)
    ensures multiset(InsertByKey(x, sorted, key)) == multiset(sorted) + multiset{x}
    ensures |InsertByKey(x, sorted, key)| == |sorted| + 1
  {
    InsertByKeyMultiset(x, sorted, key);
    if sorted != [] && key(x) > key(sorted[0]) {
      var tail := sorted[1..];
      assert SortedByKey(tail, key) by {
        forall i, j | 0 <= i < j < |tail|
          ensures key(tail[i]) <= key(tail[j])
        {
          assert tail[i] == sorted[i + 1] && tail[j] == sorted[j + 1];
        }
      }
      InsertByKeyProperties(x, tail, key);
      forall k | 0 <= k < |tail|
        ensures key(sorted[0]) <= key(tail[k])
      {
        assert tail[k] == sorted[k + 1];
      }
      InsertByKeyBound(x, tail, key, key(sorted[0]));
      var r := InsertByKey(x, tail, key);
      var res := [sorted[0]] + r;
      assert InsertByKey(x, sorted, key) == res;
      forall i, j | 0 <= i < j < |res|
        ensures key(res[i]) <= key(res[j])
      {
        if i > 0 {
          assert res[i] == r[i - 1] && res[j] == r[j - 1];
        }
      }
    } else if sorted != [] {
      var res := [x] + sorted;
      forall i, j | 0 <= i < j < |res|
        ensures key(res[i]) <= key(res[j])
      {
        if i > 0 {
          assert res[i] == sorted[i - 1] && res[j] == sorted[j - 1];
        } else {
          assert key(sorted[0]) <= key(res[j]);
        }
      }
    }
  }

  lemma {:induction false} SortByKeyMultiset<T>(s: seq<T>, key: T -> int)
    ensures multiset(SortByKey(s, key)) == multiset(s)
    ensures |SortByKey(s, key)| == |s|
  {
    if s != [] {
      var rest := SortByKey(s[1..], key);
      SortByKeyMultiset(s[1..], key);
      InsertByKeyMultiset(s[0], rest, key);
      assert s == [s[0]] + s[1..];
    }
  }

  /** The sort orders by `key` and is a permutation of its input. */
  lemma {:induction false} SortByKeyProperties<T>(s: seq<T>, key: T -> int)
    ensures SortedByKey(SortByKey(s, key), key)
    ensures multiset(SortByKey(s, key)) == multiset(s)
    ensures |SortByKey(s, key)| == |s|
  {
    SortByKeyMultiset(s, key);
    if s != [] {
      var rest := SortByKey(s[1..], key);
      SortByKeyProperties(s[1..], key);
      InsertByKeyProperties(s[0], rest, key);
    }
  }

  /** An already ordered sequence is left as it is. */
  lemma {:induction false} SortedUnchanged<T>(s: seq<T>, key: T -> int)
    requires SortedByKey(s, key)
    ensures SortByKey(s, key) == s
  {
    if s != [] {
      assert SortedByKey(s[1..], key) by {
        forall i, j | 0 <= i < j < |s[1..]|
          ensures key(s[1..][i]) <= key(s[1..][j])
        {
          assert s[1..][i] == s[i + 1] && s[1..][j] == s[j + 1];
        }
      }
      SortedUnchanged(s[1..], key);
      assert s == [s[0]] + s[1..];
    }
  }

  // ---------------------------------------------------------------------
  // Keyed tables

  /** The records of `m` whose keys lie in [lo, hi), in ascending key order:
      what a table scan in primary-key order returns. */
  function Rows<T>(m: map<nat, T>, lo: nat, hi: nat): seq<T>
    decreases hi - lo
  {
    if lo >= hi then [] else (if lo in m then [m[lo]] else []) + Rows(m, lo + 1, hi)
  }

  lemma {:induction false} RowsMember<T>(m: map<nat, T>, lo: nat, hi: nat, k: nat)
    requires k in m && lo <= k < hi
    ensures m[k] in Rows(m, lo, hi)
    decreases hi - lo
  {
    if lo < k {
      RowsMember(m, lo + 1, hi, k);
    }
  }

  lemma {:induction false} RowsSource<T>(m: map<nat, T>, lo: nat, hi: nat, x: T)
    requires x in Rows(m, lo, hi)
    ensures exists k :: k in m && lo <= k < hi && m[k] == x
    decreases hi - lo
  {
    if lo < hi && !(lo in m && m[lo] == x) {
      RowsSource(m, lo + 1, hi, x);
    }
  }

  lemma {:induction false} RowsSplit<T>(m: map<nat, T>, lo: nat, mid: nat, hi: nat)
    requires lo <= mid <= hi
    ensures Rows(m, lo, hi) == Rows(m, lo, mid) + Rows(m, mid, hi)
    decreases mid - lo
  {
    if lo < mid {
      RowsSplit(m, lo + 1, mid, hi);
    }
  }

  /** Storing under a key outside [lo, hi) does not change the scan. */
  lemma {:induction false} RowsIgnoresOutside<T>(m: map<nat, T>, k: nat, v: T, lo: nat, hi: nat)
    requires !(lo <= k < hi)
    ensures Rows(m[k := v], lo, hi) == Rows(m, lo, hi)
    decreases hi - lo
  {
    if lo < hi {
      RowsIgnoresOutside(m, k, v, lo + 1, hi);
    }
  }

  /** A map that never stores one value under two keys scans to a
      sequence without repeats. */
  lemma {:induction false} RowsDistinct<T>(m: map<nat, T>, lo: nat, hi: nat)
    requires forall a, b :: a in m && b in m && m[a] == m[b] ==> a == b
    ensures forall p, q :: 0 <= p < q < |Rows(m, lo, hi)| ==> Rows(m, lo, hi)[p] != Rows(m, lo, hi)[q]
    decreases hi - lo
  {
    if lo < hi {
      RowsDistinct(m, lo + 1, hi);
      var rest := Rows(m, lo + 1, hi);
      if lo in m {
        forall q | 0 <= q < |rest|
          ensures rest[q] != m[lo]
        {
          RowsSource(m, lo + 1, hi, rest[q]);
        }
        var r := Rows(m, lo, hi);
        assert r == [m[lo]] + rest;
        forall p, q | 0 <= p < q < |r|
          ensures r[p] != r[q]
        {
          assert r[q] == rest[q - 1];
          if p > 0 {
            assert r[p] == rest[p - 1];
          }
        }
      }
    }
  }

  /** A sequence without repeats holds each value at most once. */
  lemma {:induction false} AtMostOnce<T>(s: seq<T>, x: T)
    requires forall p, q :: 0 <= p < q < |s| ==> s[p] != s[q]
    ensures multiset(s)[x] <= 1
  {
    if s != [] {
      var tail := s[1..];
      forall p, q | 0 <= p < q < |tail|
        ensures tail[p] != tail[q]
      {
        assert tail[p] == s[p + 1] && tail[q] == s[q + 1];
      }
      AtMostOnce(tail, x);
      assert s == [s[0]] + tail;
      forall q | 0 <= q < |tail|
        ensures tail[q] != s[0]
      {
        assert tail[q] == s[q + 1];
      }
      assert s[0] !in tail;
    }
  }

  /** A value at two positions occurs at least twice. */
  lemma TwoPositions<T>(s: seq<T>, p: nat, q: nat)
    requires p < q < |s| && s[p] == s[q]
    ensures multiset(s)[s[p]] >= 2
  {
    assert s == s[..p] + [s[p]] + s[p + 1..q] + [s[q]] + s[q + 1..];
  }

  /** A permutation of a sequence without repeats has no repeats. */
  lemma NoRepeatsTransfer<T>(s: seq<T>, r: seq<T>)
    requires multiset(s) == multiset(r)
    requires forall p, q :: 0 <= p < q < |r| ==> r[p] != r[q]
    ensures forall p, q :: 0 <= p < q < |s| ==> s[p] != s[q]
  {
    forall p, q | 0 <= p < q < |s|
      ensures s[p] != s[q]
    {
      AtMostOnce(r, s[p]);
      if s[p] == s[q] {
        TwoPositions(s, p, q);
      }
    }
  }

  lemma {:induction false} RowsOfNoKeys<T>(m: map<nat, T>, lo: nat, hi: nat)
    requires forall k :: k in m ==> !(lo <= k < hi)
    ensures Rows(m, lo, hi) == []
    decreases hi - lo
  {
    if lo < hi {
      RowsOfNoKeys(m, lo + 1, hi);
    }
  }

  /** `m` extended with `ns`, the i-th of which is stored under key `next + i`
      and built by `make`: what `bulkAdd` does to an auto-incremented table. */
  function Appended<N, R>(m: map<nat, R>, next: nat, ns: seq<N>, make: (nat, N) -> R): map<nat, R>
    decreases |ns|
  {
    if ns == [] then m
    else Appended(m, next, ns[..|ns| - 1], make)[next + |ns| - 1 := make(next + |ns| - 1, ns[|ns| - 1])]
  }

  lemma {:induction false} AppendedAt<N, R>(m: map<nat, R>, next: nat, ns: seq<N>, make: (nat, N) -> R)
    requires forall k :: k in m ==> k < next
    ensures forall k :: k in Appended(m, next, ns, make) <==> k in m || next <= k < next + |ns|
    ensures forall k :: k in m ==> Appended(m, next, ns, make)[k] == m[k]
    ensures forall i :: 0 <= i < |ns| ==> Appended(m, next, ns, make)[next + i] == make(next + i, ns[i])
    decreases |ns|
  {
    if ns != [] {
      var init := ns[..|ns| - 1];
      AppendedAt(m, next, init, make);
      forall i | 0 <= i < |ns| - 1
        ensures init[i] == ns[i]
      {
      }
    }
  }

  /** A whole table scan of a table filled by one `bulkAdd` returns the new
      records in the order they were given. */
  lemma {:induction false} RowsOfAppended<N, R>(next: nat, ns: seq<N>, make: (nat, N) -> R)
    requires next >= 1
    ensures Rows(Appended(map[], next, ns, make), 1, next + |ns|)
         == seq(|ns|, i requires 0 <= i < |ns| => make(next + i, ns[i]))
    decreases |ns|
  {
    var m := Appended(map[], next, ns, make);
    AppendedAt(map[], next, ns, make);
    RowsSplit(m, 1, next, next + |ns|);
    RowsOfNoKeys(m, 1, next);
    RowsFrom(m, next, ns, make, 0);
  }

  lemma {:induction false} RowsFrom<N, R>(m: map<nat, R>, next: nat, ns: seq<N>, make: (nat, N) -> R, j: nat)
    requires j <= |ns|
    requires forall k :: k in m <==> next <= k < next + |ns|
    requires forall i :: 0 <= i < |ns| ==> m[next + i] == make(next + i, ns[i])
    ensures Rows(m, next + j, next + |ns|)
         == seq(|ns| - j, i requires 0 <= i < |ns| - j => make(next + j + i, ns[j + i]))
    decreases |ns| - j
  {
    var want := seq(|ns| - j, i requires 0 <= i < |ns| - j => make(next + j + i, ns[j + i]));
    if j < |ns| {
      RowsFrom(m, next, ns, make, j + 1);
      var rest := seq(|ns| - (j + 1), i requires 0 <= i < |ns| - (j + 1) => make(next + (j + 1) + i, ns[(j + 1) + i]));
      assert next + j in m && m[next + j] == make(next + j, ns[j]);
      assert Rows(m, next + j, next + |ns|) == [m[next + j]] + rest;
      assert want == [make(next + j, ns[j])] + rest by {
        forall i | 0 <= i < |want|
          ensures want[i] == ([make(next + j, ns[j])] + rest)[i]
        {
          if i > 0 {
            assert rest[i - 1] == make(next + (j + 1) + (i - 1), ns[(j + 1) + (i - 1)]);
          }
        }
      }
    } else {
      assert want == [];
    }
  }
}
