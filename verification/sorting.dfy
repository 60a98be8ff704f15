/** Stable sorting by keys that are tuples of strings, as Python's sorted(items, key=...) does it. */
module Sorting {

  /** Strings by code points, a prefix first. */
  predicate StrLeq(a: string, b: string) {
    a == "" || (b != "" && (a[0] < b[0] || (a[0] == b[0] && StrLeq(a[1..], b[1..]))))
  }

  lemma {:induction false} StrTotal(a: string, b: string)
    ensures StrLeq(a, b) || StrLeq(b, a)
    ensures StrLeq(a, b) && StrLeq(b, a) ==> a == b
  {
    if a == "" || b == "" || a[0] != b[0] {
    } else {
      StrTotal(a[1..], b[1..]);
      assert a == [a[0]] + a[1..] && b == [b[0]] + b[1..];
    }
  }

  lemma {:induction false} StrReflexive(a: string)
    ensures StrLeq(a, a)
  {
    if a == "" {
    } else {
      StrReflexive(a[1..]);
    }
  }

  lemma {:induction false} StrTransitive(a: string, b: string, c: string)
    requires StrLeq(a, b) && StrLeq(b, c)
    ensures StrLeq(a, c)
  {
    if a == "" || !(a[0] == b[0] == c[0]) {
    } else {
      StrTransitive(a[1..], b[1..], c[1..]);
    }
  }

  /** Equal up to position `k`, where the first string has ended or has the smaller character. */
  predicate BeforeAt(a: string, b: string, k: nat) {
    && k < |b| && k <= |a| && a[..k] == b[..k]
    && (k == |a| || a[k] < b[k])
  }

  /** The order of strings is the lexicographic one. */
  lemma {:induction false} StrLeqIsLexicographic(a: string, b: string)
    ensures StrLeq(a, b) <==> a == b || exists k: nat :: BeforeAt(a, b, k)
  {
    if a == "" {
      assert b != "" ==> BeforeAt(a, b, 0);
    } else if b == "" || a[0] != b[0] {
      if b != "" {
        assert BeforeAt(a, b, 0) <==> a[0] < b[0];
        forall k: nat | k > 0 ensures !BeforeAt(a, b, k) {
          assert k <= |a| && k <= |b| ==> a[..k][0] != b[..k][0];
        }
      }
    } else {
      StrLeqIsLexicographic(a[1..], b[1..]);
      assert a == [a[0]] + a[1..] && b == [b[0]] + b[1..];
      forall k: nat ensures BeforeAt(a[1..], b[1..], k) <==> BeforeAt(a, b, k + 1) {
        OneMoreChar(a, b, k);
      }
      assert !BeforeAt(a, b, 0);
      forall k: nat | BeforeAt(a, b, k) ensures BeforeAt(a[1..], b[1..], k - 1) {
      }
    }
  }

  lemma OneMoreChar(a: string, b: string, k: nat)
    requires a != "" && b != "" && a[0] == b[0]
    ensures k < |a| && k < |b| ==> (a[..k + 1] == b[..k + 1] <==> a[1..][..k] == b[1..][..k])
  {
    if k < |a| && k < |b| {
      assert a[..k + 1] == [a[0]] + a[1..][..k] && b[..k + 1] == [b[0]] + b[1..][..k];
      assert a[..k + 1][1..] == a[1..][..k] && b[..k + 1][1..] == b[1..][..k];
    }
  }

  /** Tuples component by component. */
  predicate KeyLeq(a: seq<string>, b: seq<string>) {
    a == [] || (b != [] && (if a[0] == b[0] then KeyLeq(a[1..], b[1..]) else StrLeq(a[0], b[0])))
  }

  lemma {:induction false} KeyTotal(a: seq<string>, b: seq<string>)
    ensures KeyLeq(a, b) || KeyLeq(b, a)
    ensures KeyLeq(a, b) && KeyLeq(b, a) ==> a == b
  {
    if a == [] || b == [] {
    } else {
      StrTotal(a[0], b[0]);
      KeyTotal(a[1..], b[1..]);
      assert a == [a[0]] + a[1..] && b == [b[0]] + b[1..];
    }
  }

  lemma {:induction false} KeyTransitive(a: seq<string>, b: seq<string>, c: seq<string>)
    requires KeyLeq(a, b) && KeyLeq(b, c)
    ensures KeyLeq(a, c)
  {
    if a == [] {
    } else {
      if a[0] == b[0] == c[0] {
        KeyTransitive(a[1..], b[1..], c[1..]);
      } else {
        StrReflexive(a[0]);
        StrReflexive(c[0]);
        StrTransitive(a[0], b[0], c[0]);
        StrTotal(a[0], b[0]);
      }
    }
  }

  predicate Sorted<T>(s: seq<T>, key: T -> seq<string>) {
    forall i, j :: 0 <= i < j < |s| ==> KeyLeq(key(s[i]), key(s[j]))
  }

  /** Before the first element that is not smaller, so equal keys keep their order. */
  function Insert<T>(x: T, s: seq<T>, key: T -> seq<string>): seq<T> {
    if s == [] || KeyLeq(key(x), key(s[0])) then [x] + s
    else [s[0]] + Insert(x, s[1..], key)
  }

  function Sort<T>(s: seq<T>, key: T -> seq<string>): seq<T> {
    if s == [] then [] else Insert(s[0], Sort(s[1..], key), key)
  }

  lemma {:induction false} InsertContents<T>(x: T, s: seq<T>, key: T -> seq<string>)
    ensures multiset(Insert(x, s, key)) == multiset(s) + multiset{x}
  {
    if s == [] || KeyLeq(key(x), key(s[0])) {
    } else {
      InsertContents(x, s[1..], key);
      assert s == [s[0]] + s[1..];
    }
  }

  lemma {:induction false} InsertSorted<T>(x: T, s: seq<T>, key: T -> seq<string>)
    requires Sorted(s, key)
    ensures Sorted(Insert(x, s, key), key)
  {
    if s == [] {
    } else if KeyLeq(key(x), key(s[0])) {
      forall j | 0 <= j < |s| ensures KeyLeq(key(x), key(s[j])) {
        if j > 0 { KeyTransitive(key(x), key(s[0]), key(s[j])); }
      }
    } else {
      var rest := Insert(x, s[1..], key);
      InsertSorted(x, s[1..], key);
      InsertContents(x, s[1..], key);
      KeyTotal(key(x), key(s[0]));
      forall j | 0 <= j < |rest| ensures KeyLeq(key(s[0]), key(rest[j])) {
        assert rest[j] in multiset(rest);
        if rest[j] in s[1..] {
          var k :| 0 <= k < |s[1..]| && s[1..][k] == rest[j];
          assert s[k + 1] == rest[j];
        }
      }
    }
  }

  lemma {:induction false} SortContents<T>(s: seq<T>, key: T -> seq<string>)
    ensures multiset(Sort(s, key)) == multiset(s)
  {
    if s == [] {
    } else {
      SortContents(s[1..], key);
      InsertContents(s[0], Sort(s[1..], key), key);
      assert s == [s[0]] + s[1..];
    }
  }

  lemma {:induction false} SortIsSorted<T>(s: seq<T>, key: T -> seq<string>)
    ensures Sorted(Sort(s, key), key) && multiset(Sort(s, key)) == multiset(s)
  {
    SortContents(s, key);
    if s == [] {
    } else {
      SortIsSorted(s[1..], key);
      InsertSorted(s[0], Sort(s[1..], key), key);
    }
  }

  /** Sorted contents determine the sequence when equal keys mean equal elements. */
  lemma {:induction false} SortedIsUnique<T>(s: seq<T>, t: seq<T>, key: T -> seq<string>)
    requires Sorted(s, key) && Sorted(t, key) && multiset(s) == multiset(t)
    requires KeyIsUnique(s, key)
    ensures s == t
  {
    SameLength(s, t);
    if s == [] {
    } else {
      SameFirst(s, t, key);
      SameRest(s, t);
      SortedIsUnique(s[1..], t[1..], key);
      assert s == [s[0]] + s[1..] && t == [t[0]] + t[1..];
    }
  }

  ghost predicate KeyIsUnique<T>(s: seq<T>, key: T -> seq<string>) {
    forall i, j | 0 <= i < |s| && 0 <= j < |s| && key(s[i]) == key(s[j]) :: s[i] == s[j]
  }

  lemma SameLength<T>(s: seq<T>, t: seq<T>)
    requires multiset(s) == multiset(t)
    ensures |s| == |t|
  {
    assert |multiset(s)| == |s| && |multiset(t)| == |t|;
  }

  /** The least element is first in both. */
  lemma SameFirst<T>(s: seq<T>, t: seq<T>, key: T -> seq<string>)
    requires Sorted(s, key) && Sorted(t, key) && multiset(s) == multiset(t) && s != [] && t != []
    requires KeyIsUnique(s, key)
    ensures s[0] == t[0]
  {
    var i := PlaceOf(s[0], t);
    var j := PlaceOf(t[0], s);
    KeyTotal(key(s[0]), key(t[0]));
    assert KeyLeq(key(s[0]), key(s[j])) && KeyLeq(key(t[0]), key(t[i]));
  }

  lemma PlaceOf<T>(x: T, s: seq<T>) returns (i: nat)
    requires x in multiset(s)
    ensures i < |s| && s[i] == x
  {
    i :| i < |s| && s[i] == x;
  }

  lemma SameRest<T>(s: seq<T>, t: seq<T>)
    requires s != [] && t != [] && s[0] == t[0] && multiset(s) == multiset(t)
    ensures multiset(s[1..]) == multiset(t[1..])
  {
    Rest(s);
    Rest(t);
  }

  lemma Rest<T>(s: seq<T>)
    requires s != []
    ensures multiset(s[1..]) == multiset(s) - multiset{s[0]}
  {
    assert s == [s[0]] + s[1..];
  }
}
