/** Lists whose entries know their own key: keys that occur once, and a Python dict by the order of its keys. */
module Keyed {
  ghost predicate DistinctBy<T(!new), K>(key: T -> K, s: seq<T>) {
    s == [] || ((forall y | y in s[1..] :: key(y) != key(s[0])) && DistinctBy(key, s[1..]))
  }

  lemma {:induction false} DistinctPairs<T(!new), K>(key: T -> K, s: seq<T>)
    ensures DistinctBy(key, s) <==> forall i, j | 0 <= i < j < |s| :: key(s[i]) != key(s[j])
  {
    if s != [] {
      var t := s[1..];
      DistinctPairs(key, t);
      if forall i, j | 0 <= i < j < |s| :: key(s[i]) != key(s[j]) {
        forall i, j | 0 <= i < j < |t| ensures key(t[i]) != key(t[j]) {
          assert t[i] == s[i + 1] && t[j] == s[j + 1];
        }
      }
      if DistinctBy(key, s) {
        forall i, j | 0 <= i < j < |s| ensures key(s[i]) != key(s[j]) {
          assert s[j] == t[j - 1];
          if i > 0 { assert s[i] == t[i - 1]; }
        }
      }
    }
  }

  lemma {:induction false} DistinctSame<T(!new), K>(key: T -> K, s: seq<T>, x: T, y: T)
    requires DistinctBy(key, s) && x in s && y in s && key(x) == key(y)
    ensures x == y
  {
    if x != s[0] && y != s[0] {
      DistinctSame(key, s[1..], x, y);
    }
  }

  // ---- assignment to a dict ----

  /** A key already there keeps its place and takes the later entry. */
  function Put<T, K(==)>(key: T -> K, dict: seq<T>, entry: T): seq<T> {
    if dict == [] then [entry]
    else if key(dict[0]) == key(entry) then [entry] + dict[1..]
    else [dict[0]] + Put(key, dict[1..], entry)
  }

  /** Afterwards the entry is in, and so are all those with another key. */
  lemma {:induction false} PutMembers<T(!new), K>(key: T -> K, dict: seq<T>, entry: T)
    ensures entry in Put(key, dict, entry) && forall x | x in Put(key, dict, entry) :: x == entry || x in dict
    ensures forall x | x in dict && key(x) != key(entry) :: x in Put(key, dict, entry)
  {
    if dict != [] && key(dict[0]) != key(entry) {
      PutMembers(key, dict[1..], entry);
    }
  }

  /** No key comes twice by assigning, and a new one goes to the end. */
  lemma {:induction false} PutDistinct<T(!new), K>(key: T -> K, dict: seq<T>, entry: T)
    requires DistinctBy(key, dict)
    ensures DistinctBy(key, Put(key, dict, entry))
    ensures (forall x | x in dict :: key(x) != key(entry)) ==> Put(key, dict, entry) == dict + [entry]
  {
    if dict != [] {
      var rest := dict[1..];
      assert dict == [dict[0]] + rest;
      if key(dict[0]) != key(entry) {
        PutDistinct(key, rest, entry);
        PutMembers(key, rest, entry);
        assert ([dict[0]] + Put(key, rest, entry))[1..] == Put(key, rest, entry);
      } else {
        assert ([entry] + rest)[1..] == rest;
      }
    }
  }

  /** An entry with the key of the one at `i` takes its place, and nothing else moves. */
  lemma {:induction false} PutInPlace<T(!new), K>(key: T -> K, dict: seq<T>, entry: T, i: nat)
    requires DistinctBy(key, dict) && i < |dict| && key(dict[i]) == key(entry)
    ensures Put(key, dict, entry) == dict[i := entry]
  {
    assert dict == [dict[0]] + dict[1..];
    if key(dict[0]) != key(entry) {
      PutInPlace(key, dict[1..], entry, i - 1);
    } else {
      DistinctPairs(key, dict);
    }
  }

  lemma {:induction false} DistinctBefore<T(!new), K>(key: T -> K, before: seq<T>, entry: T)
    requires DistinctBy(key, before + [entry])
    ensures DistinctBy(key, before) && forall x | x in before :: key(x) != key(entry)
  {
    if before != [] {
      assert (before + [entry])[1..] == before[1..] + [entry] && entry in before[1..] + [entry];
      DistinctBefore(key, before[1..], entry);
      assert before == [before[0]] + before[1..];
    }
  }
}
