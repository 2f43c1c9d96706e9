/** configuration.py: the operations that write nested dictionaries in place. */
module Configuration {
  import opened Values
  import opened Layers
  import opened PyDicts

  // ---- configuration.py: _deep_update ----

  /** `base` with the keys of `done` already merged. */
  ghost function Merged(base: Value, over: Value, done: set<string>): Value
    requires base.Map? && over.Map? && done <= over.m.Keys
  {
    Map(map k | k in base.m.Keys + done ::
          if k in done then Merge(Child(base, k), over.m[k]) else base.m[k])
  }

  lemma MergedStep(base: Value, over: Value, done: set<string>, key: string)
    requires base.Map? && over.Map? && done <= over.m.Keys && key in over.m.Keys - done
    ensures Child(Merged(base, over, done), key) == Child(base, key)
    ensures Map(Merged(base, over, done).m[key := Merge(Child(base, key), over.m[key])])
         == Merged(base, over, done + {key})
  {
  }

  lemma MergedAll(base: Value, over: Value)
    requires base.Map? && over.Map?
    ensures Merged(base, over, {}) == base
    ensures Merged(base, over, over.m.Keys) == Merge(base, over)
  {
  }

  method DeepUpdate(source: PyDict, overrides: PyDict)
    requires source.Valid() && overrides.Valid() && source.Repr !! overrides.Repr
    modifies source.Repr
    ensures source.Valid() && fresh(source.Repr - old(source.Repr)) && source.Repr >= old(source.Repr)
    ensures source.Tree == Merge(old(source.Tree), overrides.Tree)
    decreases overrides.Repr, 1
  {
    var todo := overrides.items.Keys;
    ghost var base, over := source.Tree, overrides.Tree;
    ghost var done := {};
    MergedAll(base, over);
    while todo != {}
      invariant todo !! done && todo + done == over.m.Keys == overrides.items.Keys
      invariant source.Valid() && fresh(source.Repr - old(source.Repr)) && source.Repr >= old(source.Repr)
      invariant source.Tree == Merged(base, over, done)
      decreases todo
    {
      var key :| key in todo;
      MergedStep(base, over, done, key);
      MergeKey(source, key, overrides);
      todo, done := todo - {key}, done + {key};
    }
  }

  /** One turn of the loop of `DeepUpdate`. */
  method MergeKey(source: PyDict, key: string, overrides: PyDict)
    requires source.Valid() && overrides.Valid() && source.Repr !! overrides.Repr
    requires key in overrides.items
    modifies source.Repr
    ensures source.Valid() && fresh(source.Repr - old(source.Repr)) && source.Repr >= old(source.Repr)
    ensures source.Tree
         == Map(old(source.Tree).m[key := Merge(Child(old(source.Tree), key), overrides.Tree.m[key])])
    decreases overrides.Repr, 0
  {
    if overrides.items[key].Atom? {
      SetAtom(source, key, overrides.items[key].v);
    } else {
      var value := overrides.items[key].d;
      var base, rest := Nested(source, key);
      MergeOntoLeaf(Child(source.Tree, key), value.Tree);
      ghost var own := base.Repr;
      DeepUpdate(base, value);
      assert fresh(base.Repr - own);
      Attach(source, key, base, rest);
    }
  }

  // ---- configuration.py: _set_nested_key ----

  /** `t` with `v` at the end of `keys`; whatever is not a mapping on the way becomes one. */
  function SetAt(t: Value, keys: Path, v: Value): (r: Value)
    requires keys != []
    ensures r.Map?
    decreases |keys|
  {
    var m := if t.Map? then t.m else map[];
    Map(m[keys[0] := if |keys| == 1 then v else SetAt(Nest(t, keys[0]), keys[1..], v)])
  }

  lemma PrefixTail(p: Path, q: Path)
    requires p != [] && q != [] && p[0] == q[0]
    ensures p <= q <==> p[1..] <= q[1..]
    ensures p < q <==> p[1..] < q[1..]
  {
    assert p == [p[0]] + p[1..] && q == [q[0]] + q[1..];
  }

  /** Along the first key, a write is the write of the rest one level down. */
  lemma SetAtBelow(t: Value, keys: Path, v: Value, q: Path)
    requires t.Map? && |keys| > 1 && q != [] && q[0] == keys[0]
    ensures Get(SetAt(t, keys, v), q) == Get(SetAt(Nest(t, q[0]), keys[1..], v), q[1..])
    ensures keys <= q ==> q[1..][|keys[1..]|..] == q[|keys|..]
    ensures q[1..] != [] ==> Get(Nest(t, q[0]), q[1..]) == Get(t, q)
  {
    assert SetAt(t, keys, v).m[q[0]] == SetAt(Nest(t, q[0]), keys[1..], v);
    if q[1..] != [] && !(q[0] in t.m && t.m[q[0]].Map?) {
      assert Get(EMPTY, q[1..]) == None;
    }
  }

  lemma SetAtHere(t: Value, keys: Path, v: Value, q: Path)
    requires t.Map? && keys != [] && (q == [] || q[0] != keys[0] || |keys| == 1)
    ensures keys <= q ==> Get(SetAt(t, keys, v), q) == Get(v, q[|keys|..])
    ensures q < keys ==> q == [] && SetAt(t, keys, v).Map?
    ensures !(keys <= q) && !(q < keys) ==> Get(SetAt(t, keys, v), q) == Get(t, q)
  {
  }

  /** A write shows at its path and below, makes mappings above, and leaves every other path alone. */
  lemma {:induction false} SetAtGets(t: Value, keys: Path, v: Value, q: Path)
    requires t.Map? && keys != []
    ensures keys <= q ==> Get(SetAt(t, keys, v), q) == Get(v, q[|keys|..])
    ensures q < keys ==> Get(SetAt(t, keys, v), q).Some? && Get(SetAt(t, keys, v), q).value.Map?
    ensures !(keys <= q) && !(q < keys) ==> Get(SetAt(t, keys, v), q) == Get(t, q)
    decreases |keys|
  {
    if q == [] || q[0] != keys[0] || |keys| == 1 {
      SetAtHere(t, keys, v, q);
    } else {
      PrefixTail(keys, q);
      PrefixTail(q, keys);
      SetAtBelow(t, keys, v, q);
      SetAtGets(Nest(t, q[0]), keys[1..], v, q[1..]);
    }
  }

  lemma SetAtThrough(tree: Value, keys: Path, i: nat, v: Value)
    requires i + 1 < |keys|
    ensures Map((if tree.Map? then tree.m else map[])[keys[i] := SetAt(Nest(tree, keys[i]), keys[i + 1..], v)]) ==
            SetAt(tree, keys[i..], v)
  {
    assert keys[i..][1..] == keys[i + 1..];
  }

  lemma {:induction false} RebuiltSetAt(stops: seq<Stop>, keys: Path, data: PyDict, to: PyDict, span: set<PyDict>,
        tree: Value, v: Value)
    requires |stops| < |keys| && Trail(stops, keys, data, to, span, tree)
    ensures Rebuilt(stops, SetAt(tree, keys[|stops|..], v))
        == SetAt(if stops == [] then tree else stops[0].tree, keys, v)
    decreases |stops|
  {
    if stops == [] {
      assert keys[0..] == keys;
    } else {
      var last := |stops| - 1;
      TrailPop(stops, keys, data, to, span, tree);
      SetAtThrough(stops[last].tree, keys, last, v);
      RebuiltSetAt(stops[..last], keys, data, stops[last].d, stops[last].span + span, stops[last].tree, v);
    }
  }

  /** One step of a walk that makes the mappings it needs: `current = current[key]`. */
  method Enter(d: PyDict, key: string, ghost stops: seq<Stop>) returns (next: PyDict, ghost rest: set<PyDict>)
    requires d.Valid()
    requires forall s | s in stops :: Passed(s) && s.d != d && d !in s.rest
    modifies d`items
    ensures Passed(Stop(d, key, next, rest, d.Repr, d.Tree))
    ensures forall s | s in stops :: Passed(s)
    ensures forall s | s in stops && s.d !in old(d.Repr) && s.rest !! old(d.Repr) ::
        s.d !in next.Repr && s.rest !! next.Repr
    ensures next.Valid() && next.Tree == Nest(d.Tree, key)
    ensures d !in next.Repr && rest !! next.Repr && fresh(next.Repr - d.Repr)
    ensures if old(key in d.items && d.items[key].Ref?) then d.items == old(d.items)
            else fresh(next) && next.Repr == {next} && next.items == map[] && d.items == old(d.items)[key := Ref(next)]
  {
    next, rest := Nested(d, key);
    if !(key in d.items && d.items[key].Ref?) {
      ghost var m := d.items - {key};
      d.items := d.items[key := Ref(next)];
      assert d.items - {key} == m;
    }
  }

  /** A walk from `data`, which read as `origin`, has come to `current`; `all` holds everything met. */
  ghost predicate Walked(keys: Path, stops: seq<Stop>, data: PyDict, current: PyDict, span: set<PyDict>, tree: Value,
      all: set<PyDict>, origin: Value)
    requires |stops| < |keys|
  {
    && Trail(stops, keys, data, current, span, tree) && (forall s | s in stops :: s.span <= all)
    && span <= all && (if stops == [] then tree else stops[0].tree) == origin
  }

  lemma WalkedNext(keys: Path, stops: seq<Stop>, data: PyDict, stop: Stop, span: set<PyDict>, tree: Value,
      all: set<PyDict>, origin: Value)
    requires |stops| < |keys| - 1 && Walked(keys, stops, data, stop.d, stop.span, stop.tree, all, origin)
    requires stop.key == keys[|stops|] && tree == Nest(stop.tree, stop.key)
    requires stop.d !in span && stop.rest !! span
    requires forall s | s in stops :: s.d !in span && s.rest !! span
    ensures Walked(keys, stops + [stop], data, stop.next, span, tree, all + span, origin)
  {
    TrailPush(stops, keys, data, stop, span, tree);
  }

  /** One step of such a walk. */
  method WalkOn(data: PyDict, keys: Path, i: nat, current: PyDict, ghost stops: seq<Stop>, ghost all: set<PyDict>,
      ghost origin: Value)
    returns (next: PyDict, ghost stops': seq<Stop>)
    requires i == |stops| < |keys| - 1 && current.Valid() && forall s | s in stops :: Passed(s)
    requires Walked(keys, stops, data, current, current.Repr, current.Tree, all, origin)
    modifies current`items
    ensures next.Valid() && |stops'| == |stops| + 1 && forall s | s in stops' :: Passed(s)
    ensures Walked(keys, stops', data, next, next.Repr, next.Tree, all + next.Repr, origin)
    ensures next.Tree == Nest(current.Tree, keys[i]) && forall o | o in next.Repr :: o in all || fresh(o)
  {
    ghost var span, tree := current.Repr, current.Tree;
    TrailClear(stops, keys, data, current, span, tree);
    ghost var rest;
    next, rest := Enter(current, keys[i], stops);
    ghost var stop := Stop(current, keys[i], next, rest, span, tree);
    WalkedNext(keys, stops, data, stop, next.Repr, next.Tree, all, origin);
    stops' := stops + [stop];
  }

  method Walk(data: PyDict, keys: Path) returns (current: PyDict, ghost stops: seq<Stop>, ghost all: set<PyDict>)
    requires data.Valid() && keys != []
    modifies data.Repr
    ensures current.Valid() && |stops| == |keys| - 1
    ensures forall s | s in stops :: Passed(s)
    ensures Walked(keys, stops, data, current, current.Repr, current.Tree, all, old(data.Tree))
    ensures forall o | o in all :: o in old(data.Repr) || fresh(o)
  {
    current, stops, all := data, [], data.Repr;
    var i := 0;
    while i < |keys| - 1
      invariant 0 <= i == |stops| < |keys| && current.Valid()
      invariant forall s | s in stops :: Passed(s)
      invariant Walked(keys, stops, data, current, current.Repr, current.Tree, all, old(data.Tree))
      invariant forall o | o in all :: o in old(data.Repr) || fresh(o)
    {
      ghost var stops';
      current, stops' := WalkOn(data, keys, i, current, stops, all, old(data.Tree));
      stops, all := stops', all + current.Repr;
      i := i + 1;
    }
  }

  lemma WritesAtEnd(stops: seq<Stop>, keys: Path, data: PyDict, to: PyDict, span: set<PyDict>, tree: Value, v: Value,
        below: set<PyDict>)
    requires |stops| == |keys| - 1 && Trail(stops, keys, data, to, span, tree) && tree.Map? && to in span
    requires forall s | s in stops :: s.d !in below && s.rest !! below
    ensures Trail(stops, keys, data, to, span + below, tree)
    ensures Rebuilt(stops, Map(tree.m[keys[|keys| - 1] := v]))
        == SetAt(if stops == [] then tree else stops[0].tree, keys, v)
    ensures forall s | s in stops :: s.d != to && to !in s.rest
  {
    TrailClear(stops, keys, data, to, span, tree);
    TrailGrow(stops, keys, data, to, span, tree, below);
    RebuiltSetAt(stops, keys, data, to, span, tree, v);
    assert keys[|stops|..] == [keys[|keys| - 1]];
  }

  /** `d[key] = cell`, seen by the stops of a walk that came to `d`. */
  method PutCell(d: PyDict, key: string, cell: Cell, ghost stops: seq<Stop>)
    requires forall s | s in stops :: Passed(s) && s.d != d && d !in s.rest
    requires d.Valid() && (cell.Atom? ==> !cell.v.Map?)
    requires cell.Ref? ==> cell.d.Valid() && cell.d.Repr !! d.Repr
    modifies d
    ensures d.Valid() && d.Repr == old(d.Repr) + old(Below(cell))
    ensures d.Tree == Map(old(d.Tree).m[key := old(Reads(cell))])
    ensures d.items == old(d.items)[key := cell]
    ensures forall s | s in stops :: Passed(s)
  {
    if cell.Atom? {
      SetAtom(d, key, cell.v);
    } else {
      ghost var rest := Opened(d, key);
      Attach(d, key, cell.d, rest);
    }
  }

  /** Any value: a leaf, or a mapping of its own. */
  method SetNestedKey(data: PyDict, keys: Path, cell: Cell)
    requires data.Valid() && keys != [] && (cell.Atom? ==> !cell.v.Map?)
    requires cell.Ref? ==> cell.d.Valid() && cell.d.Repr !! data.Repr
    modifies data.Repr
    ensures data.Valid() && forall o | o in data.Repr :: o in old(data.Repr) || fresh(o) || o in old(Below(cell))
    ensures data.Tree == SetAt(old(data.Tree), keys, old(Reads(cell)))
  {
    ghost var v, below, last := Reads(cell), Below(cell), keys[|keys| - 1];
    var current, stops, all := Walk(data, keys);
    ghost var tree := current.Tree;
    TrailClear(stops, keys, data, current, current.Repr, tree);
    WritesAtEnd(stops, keys, data, current, current.Repr, tree, v, below);
    PutCell(current, keys[|keys| - 1], cell, stops);
    SettleAll(stops, keys, data, current, tree, all + below);
  }
}
