/** `sorted`, by a string key, as Python orders strings. */
module Ordering {
  import opened Keyed

  predicate Below(a: string, b: string) {
    a == "" || (b != "" && (a[0] < b[0] || (a[0] == b[0] && Below(a[1..], b[1..]))))
  }

  /** They are the same before `i`, and `a` is smaller there. */
  predicate LessAt(a: string, b: string, i: nat) {
    i < |a| && i < |b| && a[..i] == b[..i] && a[i] < b[i]
  }

  lemma LessAtNext(a: string, b: string, i: nat)
    requires a != "" && b != ""
    ensures LessAt(a, b, i + 1) <==> a[0] == b[0] && LessAt(a[1..], b[1..], i)
    ensures LessAt(a, b, 0) <==> a[0] < b[0]
  {
    if i < |a| - 1 && i < |b| - 1 {
      assert a[..i + 1] == [a[0]] + a[1..][..i] && b[..i + 1] == [b[0]] + b[1..][..i];
    }
  }

  /** A prefix comes first; else the first place where they differ decides. */
  lemma {:induction false} BelowIs(a: string, b: string)
    ensures Below(a, b) <==> a <= b || exists i: nat :: LessAt(a, b, i)
  {
    if a != "" && b != "" {
      BelowIs(a[1..], b[1..]);
      LessAtNext(a, b, 0);
      forall i: nat {
        LessAtNext(a, b, i);
      }
      if i: nat :| LessAt(a, b, i) {
        if i > 0 {
          assert LessAt(a[1..], b[1..], i - 1);
        }
      }
      if i: nat :| a[0] == b[0] && LessAt(a[1..], b[1..], i) {
        assert LessAt(a, b, i + 1);
      }
      assert a == [a[0]] + a[1..] && b == [b[0]] + b[1..];
    }
  }

  lemma {:induction false} BelowTotal(a: string, b: string)
    ensures Below(a, b) || Below(b, a)
    ensures Below(a, b) && Below(b, a) ==> a == b
  {
    if a != "" && b != "" && a[0] == b[0] {
      BelowTotal(a[1..], b[1..]);
      assert a == [a[0]] + a[1..] && b == [b[0]] + b[1..];
    }
  }

  lemma {:induction false} BelowTransitive(a: string, b: string, c: string)
    requires Below(a, b) && Below(b, c)
    ensures Below(a, c)
  {
    if a != "" && a[0] == b[0] == c[0] {
      BelowTransitive(a[1..], b[1..], c[1..]);
    }
  }

  /** Before the first element that is not smaller: equal keys stay in the order they came. */
  function Insert<T>(key: T -> string, x: T, s: seq<T>): (r: seq<T>)
    ensures multiset(r) == multiset(s) + multiset{x}
  {
    if s == [] || Below(key(x), key(s[0])) then
      assert [x] + s == [x] + s && multiset([x]) == multiset{x};
      [x] + s
    else
      assert s == [s[0]] + s[1..];
      [s[0]] + Insert(key, x, s[1..])
  }

  function Sort<T>(key: T -> string, s: seq<T>): (r: seq<T>)
    ensures multiset(r) == multiset(s)
  {
    if s == [] then []
    else
      assert s == [s[0]] + s[1..];
      Insert(key, s[0], Sort(key, s[1..]))
  }

  predicate Sorted<T>(key: T -> string, s: seq<T>) {
    forall i, j | 0 <= i < j < |s| :: Below(key(s[i]), key(s[j]))
  }

  lemma SortedFirst<T>(key: T -> string, x: T, s: seq<T>)
    requires Sorted(key, s) && forall y | y in s :: Below(key(x), key(y))
    ensures Sorted(key, [x] + s)
  {
  }

  lemma {:induction false} InsertSorts<T>(key: T -> string, x: T, s: seq<T>)
    requires Sorted(key, s)
    ensures Sorted(key, Insert(key, x, s))
  {
    if s != [] {
      BelowTotal(key(x), key(s[0]));
      if Below(key(x), key(s[0])) {
        forall y | y in s ensures Below(key(x), key(y)) {
          if y != s[0] { BelowTransitive(key(x), key(s[0]), key(y)); }
        }
        SortedFirst(key, x, s);
      } else {
        var r := Insert(key, x, s[1..]);
        InsertSorts(key, x, s[1..]);
        forall y | y in r ensures Below(key(s[0]), key(y)) {
          assert y in multiset(r);
          assert y == x || y in s[1..];
        }
        SortedFirst(key, s[0], r);
      }
    }
  }

  lemma {:induction false} SortSorts<T>(key: T -> string, s: seq<T>)
    ensures Sorted(key, Sort(key, s))
  {
    if s != [] {
      SortSorts(key, s[1..]);
      InsertSorts(key, s[0], Sort(key, s[1..]));
    }
  }

  lemma SameMembers<T>(s: seq<T>, t: seq<T>)
    requires multiset(s) == multiset(t)
    ensures |s| == |t| && forall x :: x in s <==> x in t
  {
    assert |multiset(s)| == |multiset(t)|;
    forall x ensures x in s <==> x in t {
      assert x in s <==> x in multiset(s);
      assert x in t <==> x in multiset(t);
    }
  }

  function Itself(s: string): string { s }

  lemma FirstOut(s: seq<string>)
    requires s != []
    ensures multiset(s[1..]) == multiset(s) - multiset{s[0]}
  {
    assert s == [s[0]] + s[1..];
  }

  lemma SameFirst(s: seq<string>, t: seq<string>)
    requires Sorted(Itself, s) && Sorted(Itself, t) && s != [] && t != [] && s[0] in t && t[0] in s
    ensures s[0] == t[0]
  {
    BelowTotal(s[0], t[0]);
    var i :| 0 <= i < |t| && t[i] == s[0];
    var j :| 0 <= j < |s| && s[j] == t[0];
    assert i > 0 ==> Below(Itself(t[0]), Itself(t[i]));
    assert j > 0 ==> Below(Itself(s[0]), Itself(s[j]));
  }

  /** A collection of strings has one sorted form. */
  lemma {:induction false} SortedUnique(s: seq<string>, t: seq<string>)
    requires Sorted(Itself, s) && Sorted(Itself, t) && multiset(s) == multiset(t)
    ensures s == t
  {
    SameMembers(s, t);
    if s != [] {
      SameFirst(s, t);
      FirstOut(s);
      FirstOut(t);
      SortedUnique(s[1..], t[1..]);
      assert s == [s[0]] + s[1..] && t == [t[0]] + t[1..];
    }
  }

  /** Comparing sorted lists compares what is in them, however it was ordered. */
  lemma SortedEqual(s: seq<string>, t: seq<string>)
    ensures Sort(Itself, s) == Sort(Itself, t) <==> multiset(s) == multiset(t)
  {
    SortSorts(Itself, s);
    SortSorts(Itself, t);
    if multiset(s) == multiset(t) {
      SortedUnique(Sort(Itself, s), Sort(Itself, t));
    }
  }

  // ---- keys that occur once ----

  lemma {:induction false} InsertDistinct<T(!new)>(key: T -> string, x: T, s: seq<T>)
    requires DistinctBy(key, s) && forall y | y in s :: key(y) != key(x)
    ensures DistinctBy(key, Insert(key, x, s))
  {
    if s == [] || Below(key(x), key(s[0])) {
      assert ([x] + s)[1..] == s;
    } else {
      var r := Insert(key, x, s[1..]);
      InsertDistinct(key, x, s[1..]);
      SameMembers(r, s[1..] + [x]);
      assert ([s[0]] + r)[1..] == r;
    }
  }

  lemma {:induction false} SortDistinct<T(!new)>(key: T -> string, s: seq<T>)
    requires DistinctBy(key, s)
    ensures DistinctBy(key, Sort(key, s))
  {
    if s != [] {
      SortDistinct(key, s[1..]);
      SameMembers(s[1..], Sort(key, s[1..]));
      InsertDistinct(key, s[0], Sort(key, s[1..]));
    }
  }
}
