/** credentials.py `_partition_secrets`, on values: what each part holds, and the laws of the split. */
module Partition {
  import opened Values
  import opened Layers
  import opened Configuration
  import opened DottedKeys

  const SHARED_TOP_KEYS: set<string> := {"dockerhub", "hetzner", "cloudflare", "webhooks"}

  const SHARED_NESTED: seq<Path> := [
    ["apps", "platform", "api", "email"],
    ["apps", "platform", "api", "zoho"],
    ["apps", "platform", "api", "beehiiv"],
    ["apps", "services", "automation"]
  ]

  /** `p` is one of the places whose contents all environments share. */
  predicate SharedPlace(p: Path) {
    (|p| == 1 && p[0] in SHARED_TOP_KEYS) || p in SHARED_NESTED
  }

  /** The places under the given top-level keys, and the first `n` nested ones. */
  function Places(tops: set<string>, n: nat): set<Path>
    requires n <= |SHARED_NESTED|
  {
    (set k | k in tops :: [k]) + (set i | 0 <= i < n :: SHARED_NESTED[i])
  }

  const SHARED: set<Path> := Places(SHARED_TOP_KEYS, |SHARED_NESTED|)

  /** The places, one by one. */
  lemma SharedPlacesAre(p: Path)
    ensures p in SHARED <==>
            || p == ["dockerhub"] || p == ["hetzner"] || p == ["cloudflare"] || p == ["webhooks"]
            || p == ["apps", "platform", "api", "email"] || p == ["apps", "platform", "api", "zoho"]
            || p == ["apps", "platform", "api", "beehiiv"] || p == ["apps", "services", "automation"]
  {
    assert SHARED_NESTED[0] in SHARED && SHARED_NESTED[1] in SHARED && SHARED_NESTED[2] in SHARED
        && SHARED_NESTED[3] in SHARED;
    if p in SHARED && p !in SHARED_NESTED {
      assert |p| == 1 && p == [p[0]];
    }
  }

  /** No shared place lies inside another. */
  predicate Apart(ps: set<Path>) {
    forall p, q | p in ps && q in ps :: p != [] && !(p < q)
  }

  lemma SharedApart()
    ensures Apart(SHARED)
  {
    NextNested(|SHARED_NESTED| - 1);
  }

  lemma PlacesStart()
    ensures Places({}, 0) == {}
  {
  }

  lemma NextTop(tops: set<string>, k: string)
    requires tops <= SHARED_TOP_KEYS && k in SHARED_TOP_KEYS - tops
    ensures Places(tops, 0) + {[k]} == Places(tops + {k}, 0)
    ensures [k] !in Places(tops, 0) && Apart(Places(tops + {k}, 0))
  {
    forall p | p in Places(tops + {k}, 0) ensures SharedPlace(p) {
    }
    AllApart(Places(tops + {k}, 0));
  }

  lemma NextNested(n: nat)
    requires n < |SHARED_NESTED|
    ensures Places(SHARED_TOP_KEYS, n) + {SHARED_NESTED[n]} == Places(SHARED_TOP_KEYS, n + 1)
    ensures SHARED_NESTED[n] !in Places(SHARED_TOP_KEYS, n) && Apart(Places(SHARED_TOP_KEYS, n + 1))
  {
    forall p | p in Places(SHARED_TOP_KEYS, n + 1) ensures SharedPlace(p) {
    }
    assert forall i | 0 <= i < n ::
        SHARED_NESTED[i][|SHARED_NESTED[i]| - 1] != SHARED_NESTED[n][|SHARED_NESTED[n]| - 1];
    AllApart(Places(SHARED_TOP_KEYS, n + 1));
  }

  lemma AllApart(ps: set<Path>)
    requires forall p | p in ps :: SharedPlace(p)
    ensures Apart(ps)
  {
    forall p, q | p in ps && q in ps ensures p != [] && !(p < q) {
      SharedPlacesApart(p, q);
    }
  }

  lemma SharedShape(p: Path)
    requires SharedPlace(p)
    ensures p != [] && (|p| == 1 ==> p[0] != "apps")
    ensures |p| > 1 ==> p[0] == "apps" && ((|p| == 3 && p[1] == "services") || (|p| == 4 && p[1] == "platform"))
  {
    if p in SHARED_NESTED {
      assert p == SHARED_NESTED[0] || p == SHARED_NESTED[1] || p == SHARED_NESTED[2] || p == SHARED_NESTED[3];
    } else {
      assert p[0] in SHARED_TOP_KEYS && |p| == 1;
    }
  }

  lemma SharedPlacesApart(p: Path, q: Path)
    requires SharedPlace(p) && SharedPlace(q)
    ensures p != [] && !(p < q)
  {
    SharedShape(p);
    SharedShape(q);
    assert p <= q ==> p[0] == q[0] && (|p| > 1 ==> p[1] == q[1]);
  }

  ghost predicate Under(ps: set<Path>, q: Path) {
    exists p | p in ps :: p <= q
  }

  // ---- the two parts ----

  /** `s` holds what `t` has at the places `ps`, on otherwise bare mappings. */
  ghost predicate Holds(s: Value, t: Value, ps: set<Path>) {
    && s.Map?
    && (forall p, q | p in ps && p <= q && Get(t, p).Some? :: Get(s, q) == Get(t, q))
    && (forall p, q | p in ps && q < p && Get(t, p).Some? :: Get(s, q).Some? && Get(s, q).value.Map?)
    && (forall q | q != [] && Get(s, q).Some? :: exists p | p in ps :: Get(t, p).Some? && (p <= q || q < p))
  }

  /** `e` reads as `t` everywhere but at the places `ps` and below. */
  ghost predicate Lacks(e: Value, t: Value, ps: set<Path>) {
    e.Map? && forall q :: Resolve(e, q) == if Under(ps, q) then None else Resolve(t, q)
  }

  lemma {:induction false} GetThrough(t: Value, p: Path, q: Path)
    requires p <= q
    ensures Get(t, q) == if Get(t, p).Some? then Get(Get(t, p).value, q[|p|..]) else None
    decreases |p|
  {
    if p == [] {
      assert q[0..] == q;
    } else {
      PrefixTail(p, q);
      assert q[1..][|p| - 1..] == q[|p|..];
      if t.Map? && p[0] in t.m {
        GetThrough(t.m[p[0]], p[1..], q[1..]);
      }
    }
  }

  /** Moving one more place over meets no leaf on the way. */
  lemma HoldsClearWay(s: Value, t: Value, ps: set<Path>, p: Path, i: nat)
    requires Holds(s, t, ps) && Apart(ps + {p}) && 0 < i < |p|
    ensures Get(s, p[..i]).Some? ==> Get(s, p[..i]).value.Map?
  {
    if Get(s, p[..i]).Some? {
      var q := p[..i];
      assert q < p;
      var p' :| p' in ps && Get(t, p').Some? && (p' <= q || q < p');
      assert !(p' < p);
    }
  }

  lemma HoldsNone(s: Value, t: Value, ps: set<Path>, p: Path)
    requires Holds(s, t, ps) && Get(t, p) == None
    ensures Holds(s, t, ps + {p})
  {
  }

  lemma HoldsMore(s: Value, t: Value, ps: set<Path>, p: Path)
    requires Holds(s, t, ps) && Apart(ps + {p}) && p !in ps && Get(t, p).Some?
    ensures Holds(SetAt(s, p, Get(t, p).value), t, ps + {p})
  {
    var v := Get(t, p).value;
    var s' := SetAt(s, p, v);
    forall p', q | p' in ps + {p} && p' <= q && Get(t, p').Some? ensures Get(s', q) == Get(t, q) {
      SetAtGets(s, p, v, q);
      GetThrough(t, p', q);
      if p' != p {
        Incomparable(p, p', q);
      }
    }
    forall p', q | p' in ps + {p} && q < p' && Get(t, p').Some?
      ensures Get(s', q).Some? && Get(s', q).value.Map?
    {
      SetAtGets(s, p, v, q);
      assert p <= q ==> p < p';
    }
    forall q | q != [] && Get(s', q).Some?
      ensures exists p' | p' in ps + {p} :: Get(t, p').Some? && (p' <= q || q < p')
    {
      SetAtGets(s, p, v, q);
      assert p in ps + {p};
    }
  }

  lemma Incomparable(p: Path, p': Path, q: Path)
    requires p' <= q && p != p' && !(p < p') && !(p' < p)
    ensures !(p <= q) && !(q < p)
  {
  }

  /** Two places that `q` meets meet each other. */
  lemma Comparable(p: Path, p': Path, q: Path)
    requires p' <= q && (p <= q || q < p)
    ensures p <= p' || p' < p
  {
  }

  function RemoveAt(t: Value, keys: Path): (r: Value)
    requires keys != []
    ensures t.Map? ==> r.Map?
    decreases |keys|
  {
    if !t.Map? || keys[0] !in t.m then t
    else if |keys| == 1 then Map(t.m - {keys[0]})
    else Map(t.m[keys[0] := RemoveAt(t.m[keys[0]], keys[1..])])
  }

  lemma {:induction false} RemoveAtResolves(t: Value, keys: Path, q: Path)
    requires t.Map? && keys != []
    ensures Resolve(RemoveAt(t, keys), q) == if keys <= q then None else Resolve(t, q)
    decreases |keys|
  {
    if q != [] && q[0] == keys[0] {
      PrefixTail(keys, q);
      if q[0] in t.m && |keys| > 1 {
        if t.m[q[0]].Map? {
          RemoveAtResolves(t.m[q[0]], keys[1..], q[1..]);
        }
        assert Get(RemoveAt(t, keys), q) == Get(RemoveAt(t.m[q[0]], keys[1..]), q[1..]);
      }
    }
  }

  lemma LacksMore(e: Value, t: Value, ps: set<Path>, p: Path)
    requires Lacks(e, t, ps) && p != []
    ensures Lacks(RemoveAt(e, p), t, ps + {p})
  {
    forall q ensures Resolve(RemoveAt(e, p), q) == if Under(ps + {p}, q) then None else Resolve(t, q) {
      RemoveAtResolves(e, p, q);
      if Under(ps + {p}, q) && !(p <= q) {
        var p' :| p' in ps + {p} && p' <= q;
        assert p' in ps;
      }
      assert Under(ps, q) ==> Under(ps + {p}, q);
    }
  }

  lemma LacksNone(e: Value, t: Value, ps: set<Path>, p: Path)
    requires Lacks(e, t, ps) && Get(t, p) == None
    ensures Lacks(e, t, ps + {p})
  {
    forall q ensures Resolve(e, q) == if Under(ps + {p}, q) then None else Resolve(t, q) {
      if Under(ps + {p}, q) {
        var p' :| p' in ps + {p} && p' <= q;
        if p' == p { GetThrough(t, p, q); }
      } else {
        assert forall p' | p' in ps :: p' in ps + {p};
      }
    }
  }

  lemma PartsStart(t: Value)
    requires t.Map?
    ensures Holds(EMPTY, t, {}) && Lacks(t, t, {})
  {
  }

  lemma PruneLacks(e: Value, t: Value, ps: set<Path>)
    requires Lacks(e, t, ps)
    ensures Lacks(Prune(e), t, ps)
  {
    forall q { PruneResolves(e, q); }
  }

  // ---- the laws of the split ----

  /** What `_partition_secrets` returns for `t`. */
  ghost predicate Parts(t: Value, shared: Value, envOnly: Value) {
    Holds(shared, t, SHARED) && Lacks(envOnly, t, SHARED) && NoEmpty(envOnly)
  }

  /** The shared part has exactly the leaves at or below a shared place. */
  lemma SharedResolves(t: Value, s: Value, ps: set<Path>, q: Path)
    requires Holds(s, t, ps) && Apart(ps)
    ensures Resolve(s, q) == if Under(ps, q) then Resolve(t, q) else None
  {
    if Under(ps, q) {
      var p :| p in ps && p <= q;
      GetThrough(t, p, q);
      if Get(t, p) == None && Get(s, q).Some? {
        var p' :| p' in ps && Get(t, p').Some? && (p' <= q || q < p');
        Comparable(p', p, q);
        assert false;
      }
    } else if Get(s, q).Some? && q != [] {
      var p :| p in ps && Get(t, p).Some? && (p <= q || q < p);
    }
  }

  /** Where a value speaks: it has something there, or a leaf on the way. */
  lemma {:induction false} SpeaksHow(v: Value, q: Path) returns (i: nat)
    requires Speaks(v, q)
    ensures i <= |q| && Get(v, q[..i]).Some? && (i < |q| ==> !Get(v, q[..i]).value.Map?)
    decreases |q|
  {
    if q == [] || !v.Map? {
      i := 0;
    } else {
      var j := SpeaksHow(v.m[q[0]], q[1..]);
      i := j + 1;
      assert q[..i] == [q[0]] + q[1..][..j];
    }
  }

  lemma LeafAbove(v: Value, q: Path, i: nat)
    requires i < |q| && Get(v, q[..i]).Some? && !Get(v, q[..i]).value.Map?
    ensures Get(v, q) == None
  {
    GetThrough(v, q[..i], q);
  }

  /** Where the shared part speaks it reads as the whole did. */
  lemma SharedSpeaks(t: Value, s: Value, ps: set<Path>, q: Path)
    requires Holds(s, t, ps) && Apart(ps) && Speaks(s, q) && q != []
    ensures Speaks(t, q) && Resolve(s, q) == Resolve(t, q)
  {
    var i := SpeaksHow(s, q);
    var r := q[..i];
    SharedResolves(t, s, ps, q);
    if i < |q| {
      SharedResolves(t, s, ps, r);
      LeafAbove(t, q, i);
      LeafAbove(s, q, i);
      LeafSpeaks(t, q, i);
    } else {
      assert r == q;
      var p :| p in ps && Get(t, p).Some? && (p <= q || q < p);
      if q < p {
        GetThrough(t, q, p);
      }
      GotSpeaks(t, q);
    }
  }

  lemma {:induction false} GotSpeaks(v: Value, q: Path)
    requires Get(v, q).Some?
    ensures Speaks(v, q)
    decreases |q|
  {
    if q != [] {
      GotSpeaks(v.m[q[0]], q[1..]);
    }
  }

  lemma {:induction false} LeafSpeaks(v: Value, q: Path, i: nat)
    requires i < |q| && Get(v, q[..i]).Some? && !Get(v, q[..i]).value.Map?
    ensures Speaks(v, q)
    decreases i
  {
    if i > 0 {
      assert q[..i][1..] == q[1..][..i - 1];
      LeafSpeaks(v.m[q[0]], q[1..], i - 1);
    }
  }

  /** So does the other part. */
  lemma EnvSpeaks(t: Value, e: Value, ps: set<Path>, q: Path)
    requires Lacks(e, t, ps) && NoEmpty(e) && Speaks(e, q) && t.Map?
    ensures Speaks(t, q) && Resolve(e, q) == Resolve(t, q)
  {
    var i := SpeaksHow(e, q);
    var r := q[..i];
    if i < |q| {
      assert Resolve(e, r).Some?;
      LeafAbove(t, q, i);
      LeafAbove(e, q, i);
      LeafSpeaks(t, q, i);
    } else {
      assert r == q;
      if Resolve(e, q) == None && q != [] {
        var below := LeafBelow(e, q);
        assert q <= q + below;
        GetThrough(t, q, q + below);
      }
      GotSpeaks(t, q);
    }
  }

  /** A mapping in a pruned tree has a leaf below it. */
  lemma LeafBelow(e: Value, q: Path) returns (r: Path)
    requires NoEmpty(e) && q != [] && Get(e, q).Some? && Get(e, q).value.Map?
    ensures r != [] && Resolve(e, q + r).Some?
  {
    NoEmptyAt(e, q);
    r := SomeLeaf(Get(e, q).value);
    GetThrough(e, q, q + r);
  }

  lemma {:induction false} NoEmptyAt(e: Value, q: Path)
    requires NoEmpty(e) && q != [] && Get(e, q).Some?
    ensures NoEmpty(Get(e, q).value) && Get(e, q).value != EMPTY
    decreases |q|
  {
    if |q| > 1 {
      NoEmptyAt(e.m[q[0]], q[1..]);
    } else {
      assert q[1..] == [];
    }
  }

  /** At and below a shared place the shared part is what was there, mappings without leaves and all. */
  lemma {:induction false} SharedKept(t: Value, shared: Value, envOnly: Value, q: Path)
    requires Parts(t, shared, envOnly) && Under(SHARED, q)
    ensures Get(shared, q) == Get(t, q)
  {
    SharedApart();
    var p :| p in SHARED && p <= q;
    GetThrough(t, p, q);
    if Get(t, p) == None && Get(shared, q).Some? {
      var p' :| p' in SHARED && Get(t, p').Some? && (p' <= q || q < p');
      Comparable(p', p, q);
      assert false;
    }
  }

  /** Leaves fall in exactly one part, by place alone; merged either way the parts have all of them. */
  lemma PartitionSplits(t: Value, shared: Value, envOnly: Value, q: Path)
    requires Parts(t, shared, envOnly) && t.Map?
    ensures Resolve(shared, q) == if Under(SHARED, q) then Resolve(t, q) else None
    ensures Resolve(envOnly, q) == if Under(SHARED, q) then None else Resolve(t, q)
    ensures Resolve(Merge(envOnly, shared), q) == Resolve(t, q)
    ensures Resolve(Merge(shared, envOnly), q) == Resolve(t, q)
  {
    SharedApart();
    Splits(t, shared, envOnly, SHARED, q);
  }

  lemma Splits(t: Value, s: Value, e: Value, ps: set<Path>, q: Path)
    requires Holds(s, t, ps) && Lacks(e, t, ps) && NoEmpty(e) && Apart(ps) && t.Map?
    ensures Resolve(s, q) == if Under(ps, q) then Resolve(t, q) else None
    ensures Resolve(Merge(e, s), q) == Resolve(t, q)
    ensures Resolve(Merge(s, e), q) == Resolve(t, q)
  {
    SharedResolves(t, s, ps, q);
    MergeResolves(e, s, q);
    MergeResolves(s, e, q);
    assert Resolve(e, q) == if Under(ps, q) then None else Resolve(t, q);
    if q != [] {
      if Speaks(s, q) {
        SharedSpeaks(t, s, ps, q);
      } else {
        SilentResolvesNothing(s, q);
      }
      if Speaks(e, q) {
        EnvSpeaks(t, e, ps, q);
      } else {
        SilentResolvesNothing(e, q);
      }
    }
  }

  // ---- the split is a function of its input ----

  /** Trees with the same leaves and the same mappings are the same tree. */
  lemma {:induction false} SameGets(a: Value, b: Value)
    requires forall q :: Get(a, q) == Get(b, q) || BothMappings(a, b, q)
    ensures a == b
    decreases a
  {
    assert Get(a, []) == Some(a) && Get(b, []) == Some(b);
    if a.Map? && b.Map? {
      forall k ensures k in a.m <==> k in b.m {
        assert [k][1..] == [];
        assert Get(a, [k]).Some? <==> k in a.m;
        assert Get(b, [k]).Some? <==> k in b.m;
        assert Get(a, [k]) == Get(b, [k]) || BothMappings(a, b, [k]);
      }
      forall k | k in a.m ensures a.m[k] == b.m[k] {
        forall q ensures Get(a.m[k], q) == Get(b.m[k], q) || BothMappings(a.m[k], b.m[k], q) {
          assert ([k] + q)[1..] == q;
          assert Get(a, [k] + q) == Get(b, [k] + q) || BothMappings(a, b, [k] + q);
        }
        SameGets(a.m[k], b.m[k]);
      }
    }
  }

  predicate BothMappings(a: Value, b: Value, q: Path) {
    Get(a, q).Some? && Get(b, q).Some? && Get(a, q).value.Map? && Get(b, q).value.Map?
  }

  lemma HeldAlike(s: Value, s': Value, t: Value, ps: set<Path>, q: Path)
    requires Holds(s, t, ps) && Holds(s', t, ps) && Get(s, q).Some?
    ensures Get(s, q) == Get(s', q) || BothMappings(s, s', q)
  {
    if q != [] {
      var p :| p in ps && Get(t, p).Some? && (p <= q || q < p);
      if p <= q {
        assert Get(s, q) == Get(t, q) == Get(s', q);
      }
    }
  }

  lemma {:induction false} PartsUnique(t: Value, s: Value, e: Value, s': Value, e': Value)
    requires Parts(t, s, e) && Parts(t, s', e')
    ensures s == s' && e == e'
  {
    forall q ensures Get(s, q) == Get(s', q) || BothMappings(s, s', q) {
      if Get(s, q).Some? {
        HeldAlike(s, s', t, SHARED, q);
      } else if Get(s', q).Some? {
        HeldAlike(s', s, t, SHARED, q);
      }
    }
    SameGets(s, s');
    LeavesDecide(e, e');
  }

  /** Nothing shared is left in the own part: splitting it again takes nothing out of it. */
  lemma {:induction false} PartsAgain(t: Value, s: Value, e: Value, s': Value, e': Value)
    requires Parts(t, s, e) && Parts(e, s', e')
    ensures s' == EMPTY && e' == e
  {
    SharedApart();
    forall p | p in SHARED ensures Get(e, p) == None {
      NothingLeftAt(t, e, p);
    }
    forall k ensures k !in s'.m {
      assert [k][1..] == [];
      assert Get(s', [k]) == None;
    }
    LeavesDecide(e, e');
  }

  lemma NothingLeftAt(t: Value, e: Value, p: Path)
    requires Lacks(e, t, SHARED) && NoEmpty(e) && p in SHARED && p != []
    ensures Get(e, p) == None
  {
    forall r ensures Resolve(e, p + r) == None {
      assert p <= p + r && Under(SHARED, p + r);
    }
    assert p + [] == p && Resolve(e, p + []) == None;
    if Get(e, p).Some? && Get(e, p).value.Map? {
      var r := LeafBelow(e, p);
    }
  }
}
