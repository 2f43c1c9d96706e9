/** The elements of a list that pass a test, in order. */
module Selection {
  import opened Keyed
  import opened Ordering

  function Select<T(!new)>(s: seq<T>, keep: T -> bool): seq<T> {
    if s == [] then []
    else if keep(s[0]) then [s[0]] + Select(s[1..], keep)
    else Select(s[1..], keep)
  }

  lemma {:induction false} SelectMembers<T(!new)>(s: seq<T>, keep: T -> bool)
    ensures forall x :: x in Select(s, keep) <==> x in s && keep(x)
  {
    if s != [] {
      SelectMembers(s[1..], keep);
      assert s == [s[0]] + s[1..];
    }
  }

  lemma {:induction false} SelectAppend<T(!new)>(s: seq<T>, x: T, keep: T -> bool)
    ensures Select(s + [x], keep) == Select(s, keep) + (if keep(x) then [x] else [])
  {
    if s == [] {
      assert [x][1..] == [];
    } else {
      assert (s + [x])[1..] == s[1..] + [x];
      SelectAppend(s[1..], x, keep);
    }
  }

  lemma {:induction false} SelectTwice<T(!new)>(s: seq<T>, a: T -> bool, b: T -> bool, both: T -> bool)
    requires forall x | x in s :: both(x) == (a(x) && b(x))
    ensures Select(Select(s, a), b) == Select(s, both)
  {
    if s != [] {
      SelectTwice(s[1..], a, b, both);
      if a(s[0]) {
        assert ([s[0]] + Select(s[1..], a))[1..] == Select(s[1..], a);
      }
    }
  }

  /** Splitting a list by a test loses and doubles nothing. */
  lemma {:induction false} SelectSplits<T(!new)>(s: seq<T>, all: T -> bool, a: T -> bool, b: T -> bool)
    requires forall x | x in s :: all(x) == (a(x) || b(x)) && !(a(x) && b(x))
    ensures multiset(Select(s, a)) + multiset(Select(s, b)) == multiset(Select(s, all))
  {
    if s != [] {
      SelectSplits(s[1..], all, a, b);
    }
  }

  lemma {:induction false} SelectInsert<T(!new)>(key: T -> string, x: T, s: seq<T>, keep: T -> bool)
    requires Sorted(key, s)
    ensures Select(Insert(key, x, s), keep) == if keep(x) then Insert(key, x, Select(s, keep)) else Select(s, keep)
  {
    if s == [] {
      assert [x][1..] == [];
    } else if Below(key(x), key(s[0])) {
      assert ([x] + s)[1..] == s;
      forall y | y in s ensures Below(key(x), key(y)) {
        if y != s[0] { BelowTransitive(key(x), key(s[0]), key(y)); }
      }
      SelectMembers(s, keep);
      assert Select(s, keep) != [] ==> Select(s, keep)[0] in Select(s, keep);
      assert Insert(key, x, Select(s, keep)) == [x] + Select(s, keep);
    } else {
      SelectInsert(key, x, s[1..], keep);
      assert ([s[0]] + Insert(key, x, s[1..]))[1..] == Insert(key, x, s[1..]);
    }
  }

  /** Sorting is stable, so it does not matter whether it comes before or after selecting. */
  lemma {:induction false} SelectSort<T(!new)>(key: T -> string, s: seq<T>, keep: T -> bool)
    ensures Select(Sort(key, s), keep) == Sort(key, Select(s, keep))
  {
    if s != [] {
      SelectSort(key, s[1..], keep);
      SortSorts(key, s[1..]);
      SelectInsert(key, s[0], Sort(key, s[1..]), keep);
    }
  }

  lemma SelectSwap<T(!new)>(s: seq<T>, a: T -> bool, b: T -> bool, c: T -> bool)
    requires forall x | x in s && a(x) :: b(x) == c(x)
    ensures Select(Select(s, a), b) == Select(Select(s, c), a)
  {
    var both := x => a(x) && b(x);
    SelectTwice(s, a, b, both);
    SelectTwice(s, c, a, both);
  }

  lemma SelectNone<T(!new)>(s: seq<T>, keep: T -> bool)
    requires forall x | x in s :: !keep(x)
    ensures Select(s, keep) == []
  {
  }

  lemma {:induction false} SelectAll<T(!new)>(s: seq<T>, keep: T -> bool)
    requires forall x | x in s :: keep(x)
    ensures Select(s, keep) == s
  {
    if s != [] {
      SelectAll(s[1..], keep);
    }
  }

  lemma {:induction false} SelectDistinct<T(!new)>(key: T -> string, s: seq<T>, keep: T -> bool)
    requires DistinctBy(key, s)
    ensures DistinctBy(key, Select(s, keep))
  {
    if s != [] {
      SelectDistinct(key, s[1..], keep);
      SelectMembers(s[1..], keep);
      if keep(s[0]) {
        assert ([s[0]] + Select(s[1..], keep))[1..] == Select(s[1..], keep);
      }
    }
  }
}
