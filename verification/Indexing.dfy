/** Turning groups of keys into an index from each key to its group, refusing a key that comes twice. */
module Indexing {
  import opened Values
  import opened Sequences

  datatype Group<K, V> = Group(value: V, keys: seq<K>)

  function Paired<K, V>(keys: seq<K>, value: V): seq<(K, V)> {
    seq(|keys|, i requires 0 <= i < |keys| => (keys[i], value))
  }

  function Pairs<K, V>(groups: seq<Group<K, V>>): seq<(K, V)> {
    if groups == [] then []
    else Pairs(groups[..|groups| - 1]) + Paired(groups[|groups| - 1].keys, groups[|groups| - 1].value)
  }

  ghost predicate KeysOnce<K(!new), V(!new)>(pairs: seq<(K, V)>) {
    forall i, j | 0 <= i < j < |pairs| :: pairs[i].0 != pairs[j].0
  }

  ghost predicate Indexes<K(!new), V(!new)>(index: map<K, V>, pairs: seq<(K, V)>) {
    && KeysOnce(pairs)
    && (forall p | p in pairs :: p.0 in index && index[p.0] == p.1)
    && (forall k | k in index :: (k, index[k]) in pairs)
  }

  /** A new key goes in; a key that is there already makes the list refused, whatever follows. */
  lemma IndexStep<K(!new), V(!new)>(index: map<K, V>, pairs: seq<(K, V)>, k: K, v: V)
    requires Indexes(index, pairs)
    ensures k in index ==> !KeysOnce(pairs + [(k, v)])
    ensures k !in index ==> Indexes(index[k := v], pairs + [(k, v)])
  {
    var grown := pairs + [(k, v)];
    if k in index {
      var i :| 0 <= i < |pairs| && pairs[i] == (k, index[k]);
      assert grown[i].0 == grown[|pairs|].0;
    } else {
      forall i | 0 <= i < |pairs| ensures pairs[i].0 != k {
        assert pairs[i] in pairs;
      }
      assert grown[|pairs|] == (k, v) && (k, v) in grown;
      forall j | j in index ensures (j, index[j]) in grown {
        assert (j, index[j]) in pairs;
      }
    }
  }

  lemma PrefixOnce<K(!new), V(!new)>(a: seq<(K, V)>, b: seq<(K, V)>)
    requires KeysOnce(a + b)
    ensures KeysOnce(a)
  {
    forall i, j | 0 <= i < j < |a| ensures a[i].0 != a[j].0 {
      assert (a + b)[i] == a[i] && (a + b)[j] == a[j];
    }
  }

  /** `before` and the first `i` keys of a group. */
  ghost function UpTo<K, V>(before: seq<(K, V)>, group: Group<K, V>, i: nat): seq<(K, V)>
    requires i <= |group.keys|
  {
    before + Paired(group.keys[..i], group.value)
  }

  lemma UpToNext<K, V>(before: seq<(K, V)>, group: Group<K, V>, i: nat)
    requires i < |group.keys|
    ensures UpTo(before, group, i) + [(group.keys[i], group.value)] == UpTo(before, group, i + 1)
  {
    assert Paired(group.keys[..i + 1], group.value)
        == Paired(group.keys[..i], group.value) + [(group.keys[i], group.value)];
  }

  lemma UpToEnds<K, V>(before: seq<(K, V)>, group: Group<K, V>)
    ensures UpTo(before, group, 0) == before
    ensures UpTo(before, group, |group.keys|) == before + Paired(group.keys, group.value)
  {
    assert Paired(group.keys[..0], group.value) == [];
    TakeAll(group.keys);
  }

  /** A key refused half way is refused of the whole. */
  lemma UpToOnce<K(!new), V(!new)>(before: seq<(K, V)>, group: Group<K, V>, i: nat)
    requires i <= |group.keys| && KeysOnce(before + Paired(group.keys, group.value))
    ensures KeysOnce(UpTo(before, group, i))
  {
    var rest := Paired(group.keys[i..], group.value);
    assert Paired(group.keys, group.value) == Paired(group.keys[..i], group.value) + rest;
    assert before + Paired(group.keys, group.value) == UpTo(before, group, i) + rest;
    PrefixOnce(UpTo(before, group, i), rest);
  }

  /** The inner loop: the keys of one group, none of them forbidden. */
  method AddGroup<K(!new, ==), V(!new)>(index: map<K, V>, group: Group<K, V>, forbidden: K -> bool,
        ghost before: seq<(K, V)>)
    returns (r: Option<map<K, V>>)
    requires Indexes(index, before)
    ensures r.Some? <==>
        KeysOnce(before + Paired(group.keys, group.value)) && forall k | k in group.keys :: !forbidden(k)
    ensures r.Some? ==> Indexes(r.value, before + Paired(group.keys, group.value))
  {
    var grown := index;
    UpToEnds(before, group);
    for i := 0 to |group.keys|
      invariant forall j | 0 <= j < i :: !forbidden(group.keys[j])
      invariant Indexes(grown, UpTo(before, group, i))
    {
      var k := group.keys[i];
      if forbidden(k) {
        return None;
      }
      IndexStep(grown, UpTo(before, group, i), k, group.value);
      UpToNext(before, group, i);
      if k in grown {
        if KeysOnce(before + Paired(group.keys, group.value)) {
          UpToOnce(before, group, i + 1);
        }
        return None;
      }
      grown := grown[k := group.value];
    }
    r := Some(grown);
  }

  lemma {:induction false} PairsPrefix<K(!new), V(!new)>(groups: seq<Group<K, V>>, i: nat)
    requires i <= |groups| && KeysOnce(Pairs(groups))
    ensures KeysOnce(Pairs(groups[..i]))
    decreases |groups|
  {
    if i < |groups| {
      var last := groups[|groups| - 1];
      PrefixOnce(Pairs(groups[..|groups| - 1]), Paired(last.keys, last.value));
      PairsPrefix(groups[..|groups| - 1], i);
      assert groups[..|groups| - 1][..i] == groups[..i];
    } else {
      assert groups[..i] == groups;
    }
  }

  lemma {:induction false} PairsMember<K(!new), V(!new)>(groups: seq<Group<K, V>>, k: K, v: V)
    ensures (k, v) in Pairs(groups) <==> exists g | g in groups :: k in g.keys && g.value == v
  {
    if groups != [] {
      var init, last := groups[..|groups| - 1], groups[|groups| - 1];
      PairsMember(init, k, v);
      assert groups == init + [last];
      if k in last.keys && last.value == v {
        var i :| 0 <= i < |last.keys| && last.keys[i] == k;
        assert Paired(last.keys, last.value)[i] == (k, v);
      }
    }
  }

  /** The keys of two lists of pairs come once exactly when each list's do and none is in both. */
  lemma OnceJoined<K(!new), V(!new)>(a: seq<(K, V)>, b: seq<(K, V)>)
    ensures KeysOnce(a + b) <==>
            KeysOnce(a) && KeysOnce(b) && forall p, q | p in a && q in b :: p.0 != q.0
  {
    var ab := a + b;
    if KeysOnce(ab) {
      PrefixOnce(a, b);
      forall i, j | 0 <= i < j < |b| ensures b[i].0 != b[j].0 {
        assert ab[|a| + i] == b[i] && ab[|a| + j] == b[j];
      }
      forall p, q | p in a && q in b ensures p.0 != q.0 {
        var i :| 0 <= i < |a| && a[i] == p;
        var j :| 0 <= j < |b| && b[j] == q;
        assert ab[i] == p && ab[|a| + j] == q;
      }
    } else {
      var i, j :| 0 <= i < j < |ab| && ab[i].0 == ab[j].0;
      if i < |a| <= j {
        assert a[i] in a && b[j - |a|] in b;
      }
    }
  }

  /** No key twice within one list, and none in two. */
  ghost predicate OnceEach<K(!new)>(lists: seq<seq<K>>) {
    && (forall g | 0 <= g < |lists| :: NoneTwice(lists[g]))
    && (forall g, h, k | 0 <= g < h < |lists| && k in lists[g] :: k !in lists[h])
  }

  ghost predicate NoneTwice<K(!new)>(keys: seq<K>) {
    forall i, j | 0 <= i < j < |keys| :: keys[i] != keys[j]
  }

  function KeysOf<K, V>(groups: seq<Group<K, V>>): seq<seq<K>> {
    seq(|groups|, i requires 0 <= i < |groups| => groups[i].keys)
  }

  lemma OnceEachNext<K(!new)>(lists: seq<seq<K>>, last: seq<K>)
    ensures OnceEach(lists + [last]) <==>
            OnceEach(lists) && NoneTwice(last) && forall g, k | 0 <= g < |lists| && k in lists[g] :: k !in last
  {
    var more := lists + [last];
    assert more[|lists|] == last;
    if OnceEach(more) {
      forall g | 0 <= g < |lists| ensures NoneTwice(lists[g]) {
        assert more[g] == lists[g];
      }
      forall g, h, k | 0 <= g < h < |lists| && k in lists[g] ensures k !in lists[h] {
        assert more[g] == lists[g] && more[h] == lists[h];
      }
      forall g, k | 0 <= g < |lists| && k in lists[g] ensures k !in last {
        assert more[g] == lists[g];
      }
    }
  }

  /** What a list of groups loads without a refusal. */
  lemma {:induction false} OnceIs<K(!new), V(!new)>(groups: seq<Group<K, V>>)
    ensures KeysOnce(Pairs(groups)) <==> OnceEach(KeysOf(groups))
  {
    if groups != [] {
      var init, last := groups[..|groups| - 1], groups[|groups| - 1];
      OnceIs(init);
      OnceJoined(Pairs(init), Paired(last.keys, last.value));
      assert KeysOf(groups) == KeysOf(init) + [last.keys];
      OnceEachNext(KeysOf(init), last.keys);
      PairedOnce(last.keys, last.value);
      SharedKeys(init, last);
      assert (forall g, k | 0 <= g < |KeysOf(init)| && k in KeysOf(init)[g] :: k !in last.keys) <==>
        forall g, k | g in init && k in g.keys :: k !in last.keys by {
        assert forall g | 0 <= g < |init| :: KeysOf(init)[g] == init[g].keys && init[g] in init;
      }
    }
  }

  lemma PairedOnce<K(!new), V(!new)>(keys: seq<K>, value: V)
    ensures KeysOnce(Paired(keys, value)) <==> NoneTwice(keys)
  {
    assert forall i | 0 <= i < |keys| :: Paired(keys, value)[i].0 == keys[i];
  }

  lemma SharedKeys<K(!new), V(!new)>(init: seq<Group<K, V>>, last: Group<K, V>)
    ensures (forall p, q | p in Pairs(init) && q in Paired(last.keys, last.value) :: p.0 != q.0) <==>
            forall g, k | g in init && k in g.keys :: k !in last.keys
  {
    var tail := Paired(last.keys, last.value);
    forall k ensures k in last.keys <==> (k, last.value) in tail {
      if k in last.keys {
        var i :| 0 <= i < |last.keys| && last.keys[i] == k;
        assert tail[i] == (k, last.value);
      }
    }
    forall g, k | g in init && k in g.keys ensures (k, g.value) in Pairs(init) {
      PairsMember(init, k, g.value);
    }
    forall p | p in Pairs(init) ensures exists g | g in init :: p.0 in g.keys && g.value == p.1 {
      PairsMember(init, p.0, p.1);
    }
    if g, k :| g in init && k in g.keys && k in last.keys {
      assert (k, g.value) in Pairs(init) && (k, last.value) in tail && (k, g.value).0 == (k, last.value).0;
    }
    if p, q :| p in Pairs(init) && q in tail && p.0 == q.0 {
      var g :| g in init && p.0 in g.keys && g.value == p.1;
      var i :| 0 <= i < |tail| && tail[i] == q;
      assert last.keys[i] == q.0;
    }
  }

  /** `index` sends each key to the group that lists it, and knows no other key. */
  ghost predicate Inverts<K(!new), V(!new)>(index: map<K, V>, groups: seq<Group<K, V>>) {
    && (forall g, k | g in groups && k in g.keys :: k in index && index[k] == g.value)
    && (forall k | k in index :: exists g | g in groups :: k in g.keys && g.value == index[k])
  }

  lemma IndexesInverts<K(!new), V(!new)>(index: map<K, V>, groups: seq<Group<K, V>>)
    requires Indexes(index, Pairs(groups))
    ensures Inverts(index, groups)
  {
    forall g, k | g in groups && k in g.keys ensures k in index && index[k] == g.value {
      PairsMember(groups, k, g.value);
      assert (k, g.value).0 in index;
    }
    forall k | k in index ensures exists g | g in groups :: k in g.keys && g.value == index[k] {
      PairsMember(groups, k, index[k]);
    }
  }
}
