/** credentials.py `_partition_secrets` and `_prune_empty_dicts` on the dictionaries themselves: one part
    borrows subtrees of the input, the other is a deep copy that keys are removed from. */
module PartitionDicts {
  import opened Values
  import opened Sequences
  import opened PyDicts
  import opened Configuration
  import opened DottedKeys
  import opened Partition

  // ---- copy.deepcopy ----

  ghost function Copied(t: Value, done: set<string>): Value
    requires t.Map? && done <= t.m.Keys
  {
    Map(map k | k in done :: t.m[k])
  }

  lemma CopiedStep(t: Value, done: set<string>, key: string)
    requires t.Map? && done <= t.m.Keys && key in t.m.Keys - done
    ensures Map(Copied(t, done).m[key := t.m[key]]) == Copied(t, done + {key})
  {
  }

  lemma CopiedAll(t: Value)
    requires t.Map?
    ensures Copied(t, {}) == EMPTY && Copied(t, t.m.Keys) == t
  {
  }

  lemma OneMoved(todo: set<string>, done: set<string>, key: string)
    requires key in todo && todo !! done
    ensures (todo - {key}) + (done + {key}) == todo + done && todo - {key} !! done + {key}
  {
  }

  method DeepCopy(d: PyDict) returns (c: PyDict)
    requires d.Valid()
    ensures c.Valid() && fresh(c.Repr) && c.Tree == d.Tree
    decreases d.Repr, 1
  {
    c := new PyDict();
    var todo := d.items.Keys;
    ghost var t, done := d.Tree, {};
    CopiedAll(t);
    while todo != {}
      invariant todo !! done && todo + done == t.m.Keys == d.items.Keys
      invariant c.Valid() && fresh(c.Repr) && c.Tree == Copied(t, done)
      decreases todo
    {
      var key :| key in todo;
      CopiedStep(t, done, key);
      CopyKey(d, key, c);
      OneMoved(todo, done, key);
      todo, done := todo - {key}, done + {key};
    }
  }

  method CopyKey(d: PyDict, key: string, c: PyDict)
    requires d.Valid() && c.Valid() && d.Repr !! c.Repr && key in d.items
    modifies c
    ensures c.Valid() && fresh(c.Repr - old(c.Repr)) && c.Tree == Map(old(c.Tree).m[key := d.Tree.m[key]])
    decreases d.Repr, 0
  {
    if d.items[key].Ref? {
      ghost var aside := Opened(d, key);
      var sub := DeepCopy(d.items[key].d);
      ghost var rest := Opened(c, key);
      Attach(c, key, sub, rest);
    } else {
      SetAtom(c, key, d.items[key].v);
    }
  }

  // ---- _prune_empty_dicts ----

  /** `t` with the mappings under `done` pruned in place, none removed yet. */
  ghost function PrunedUnder(t: Value, done: set<string>): Value
    requires t.Map?
  {
    Map(map k | k in t.m :: if k in done then Prune(t.m[k]) else t.m[k])
  }

  /** The keys of `done` that pruning leaves empty. */
  ghost function Hollow(t: Value, done: set<string>): set<string>
    requires t.Map?
  {
    set k | k in done && k in t.m && Prune(t.m[k]) == EMPTY
  }

  lemma PrunedStep(t: Value, done: set<string>, key: string)
    requires t.Map? && key in t.m && key !in done
    ensures PrunedUnder(t, done).m[key] == t.m[key]
    ensures Map(PrunedUnder(t, done).m[key := Prune(t.m[key])]) == PrunedUnder(t, done + {key})
    ensures !t.m[key].Map? ==> PrunedUnder(t, done) == PrunedUnder(t, done + {key}) && Prune(t.m[key]) != EMPTY
    ensures PrunedUnder(t, done).m.Keys == t.m.Keys
  {
  }

  lemma HollowStep(t: Value, done: set<string>, key: string)
    requires t.Map? && key in t.m && key !in done
    ensures Hollow(t, done + {key}) == if Prune(t.m[key]) == EMPTY then Hollow(t, done) + {key} else Hollow(t, done)
  {
  }

  lemma PrunedAll(t: Value)
    requires t.Map?
    ensures PrunedUnder(t, {}) == t && Hollow(t, {}) == {}
    ensures PrunedUnder(t, t.m.Keys).m - Hollow(t, t.m.Keys) == Prune(t).m
  {
  }

  method PruneEmptyDicts(d: PyDict)
    requires d.Valid()
    modifies d.Repr
    ensures d.Valid() && d.Repr == old(d.Repr)
    ensures d.Tree == Prune(old(d.Tree))
    decreases d.Repr, 1
  {
    var todo, doomed := d.items.Keys, {};
    ghost var t, done := d.Tree, {};
    PrunedAll(t);
    while todo != {}
      invariant d.Valid() && d.Repr == old(d.Repr)
      invariant todo !! done && todo + done == t.m.Keys == d.items.Keys
      invariant d.Tree == PrunedUnder(t, done) && doomed == Hollow(t, done)
      decreases todo
    {
      var key :| key in todo;
      PrunedStep(t, done, key);
      HollowStep(t, done, key);
      ghost var slots := d.items;
      assert slots[key].Atom? ==> !t.m[key].Map? by {
        assert Slots(slots, d.Tree.m, d.Repr - {d});
      }
      if d.items[key].Ref? {
        var empty := PruneUnder(d, key);
        if empty {
          doomed := doomed + {key};
        }
      }
      assert d.items == slots;
      OneMoved(todo, done, key);
      todo, done := todo - {key}, done + {key};
    }
    DeleteAll(d, doomed);
  }

  lemma OneLess(m: map<string, Value>, doomed: set<string>, todo: set<string>, key: string)
    requires key in todo && todo <= doomed
    ensures m - (doomed - todo) - {key} == m - (doomed - (todo - {key}))
  {
    assert doomed - (todo - {key}) == doomed - todo + {key};
  }

  /** `for k in keys_to_delete: del d[k]`. */
  method DeleteAll(d: PyDict, doomed: set<string>)
    requires d.Valid()
    modifies d
    ensures d.Valid() && d.Repr == old(d.Repr)
    ensures d.Tree == Map(old(d.Tree).m - doomed)
  {
    var todo := doomed;
    while todo != {}
      invariant d.Valid() && d.Repr == old(d.Repr) && todo <= doomed
      invariant d.Tree == Map(old(d.Tree).m - (doomed - todo))
      decreases todo
    {
      var key :| key in todo;
      Delete(d, key);
      OneLess(old(d.Tree).m, doomed, todo, key);
      todo := todo - {key};
    }
  }

  method PruneUnder(d: PyDict, key: string) returns (empty: bool)
    requires d.Valid() && key in d.items && d.items[key].Ref?
    modifies d.Repr
    ensures d.Valid() && d.Repr == old(d.Repr) && d.items == old(d.items)
    ensures d.Tree == Map(old(d.Tree).m[key := Prune(old(d.Tree).m[key])])
    ensures empty <==> Prune(old(d.Tree).m[key]) == EMPTY
    decreases d.Repr, 0
  {
    ghost var rest := Opened(d, key);
    var v := d.items[key].d;
    PruneEmptyDicts(v);
    empty := v.items == map[];
    Settle(d, key, v, rest);
  }

  // ---- the cursors of _partition_secrets ----

  /** `current_src`: reads along `keys`, stopping where there is no mapping or no such key. */
  method Find(data: PyDict, keys: Path) returns (r: Option<Cell>)
    requires data.Valid() && keys != []
    ensures r == Lookup(data, keys)
  {
    var current, i := data, 0;
    while i < |keys| - 1
      invariant 0 <= i < |keys| && current.Valid()
      invariant Lookup(data, keys) == Lookup(current, keys[i..])
    {
      assert Slots(current.items, current.Tree.m, current.Repr - {current});
      if keys[i] !in current.items || current.items[keys[i]].Atom? {
        return None;
      }
      current, i := current.items[keys[i]].d, i + 1;
    }
    r := if keys[i] in current.items then Some(current.items[keys[i]]) else None;
  }

  lemma RebuiltPush(stops: seq<Stop>, stop: Stop, t: Value)
    requires stop.tree.Map? && stop.key in stop.tree.m
    ensures Rebuilt(stops + [stop], t) == Rebuilt(stops, Map(stop.tree.m[stop.key := t]))
    ensures Rebuilt(stops + [stop], stop.tree.m[stop.key]) == Rebuilt(stops, stop.tree)
  {
    assert (stops + [stop])[..|stops|] == stops;
    assert stop.tree.m[stop.key := stop.tree.m[stop.key]] == stop.tree.m;
  }

  lemma RebuiltRemove(stops: seq<Stop>, stop: Stop, keys: Path)
    requires stop.tree.Map? && stop.key in stop.tree.m && |keys| > 1 && keys[0] == stop.key
    ensures var next := stop.tree.m[stop.key];
            && Rebuilt(stops + [stop], next) == Rebuilt(stops, stop.tree)
            && Rebuilt(stops + [stop], RemoveAt(next, keys[1..])) == Rebuilt(stops, RemoveAt(stop.tree, keys))
  {
    RebuiltPush(stops, stop, RemoveAt(stop.tree.m[stop.key], keys[1..]));
  }

  lemma RemoveNothing(t: Value, keys: Path)
    requires t.Map? && |keys| > 1 && (keys[0] in t.m ==> !t.m[keys[0]].Map?)
    ensures RemoveAt(t, keys) == t
  {
    if keys[0] in t.m {
      assert t.m[keys[0] := t.m[keys[0]]] == t.m;
    }
  }

  /** A walk along `keys` that has come to `at`. */
  ghost predicate Went(data: PyDict, keys: Path, stops: seq<Stop>, at: PyDict)
    requires |stops| < |keys|
    reads data, at
  {
    && at in data.Repr && at.Repr <= data.Repr
    && (forall s | s in stops :: s.span <= data.Repr)
    && Trail(stops, keys, data, at, at.Repr, at.Tree)
    && Rebuilt(stops, at.Tree) == data.Tree
    && Rebuilt(stops, RemoveAt(at.Tree, keys[|stops|..])) == RemoveAt(data.Tree, keys)
  }

  lemma WentOn(data: PyDict, keys: Path, stops: seq<Stop>, at: PyDict, next: PyDict, rest: set<PyDict>)
    requires |stops| < |keys| - 1 && Went(data, keys, stops, at) && at.Valid()
    requires var key := keys[|stops|];
             && key in at.items && at.items[key] == Ref(next) && next.Valid()
             && next.Repr <= at.Repr - {at} && next.Repr !! rest && next.Tree == Nest(at.Tree, key)
             && Slots(at.items - {key}, at.Tree.m - {key}, rest) && rest <= at.Repr - {at}
    ensures Went(data, keys, stops + [Stop(at, keys[|stops|], next, rest, at.Repr, at.Tree)], next)
  {
    var stop := Stop(at, keys[|stops|], next, rest, at.Repr, at.Tree);
    TrailClear(stops, keys, data, at, at.Repr, at.Tree);
    TrailPush(stops, keys, data, stop, next.Repr, next.Tree);
    RebuiltRemove(stops, stop, keys[|stops|..]);
    assert keys[|stops|..][1..] == keys[|stops| + 1..];
  }

  /** `current_rm` down to the mapping that should hold the last key; null when the way is missing. */
  method Descend(data: PyDict, keys: Path) returns (current: PyDict?, ghost stops: seq<Stop>)
    requires data.Valid() && keys != []
    ensures current == null ==> RemoveAt(data.Tree, keys) == data.Tree
    ensures current != null ==> current.Valid() && |stops| == |keys| - 1 && Went(data, keys, stops, current)
    ensures forall s | s in stops :: Passed(s)
  {
    var at, i := data, 0;
    stops := [];
    assert keys[0..] == keys;
    while i < |keys| - 1
      invariant 0 <= i == |stops| < |keys| && at.Valid() && Went(data, keys, stops, at)
      invariant forall s | s in stops :: Passed(s)
    {
      ghost var rest := Opened(at, keys[i]);
      assert Slots(at.items, at.Tree.m, at.Repr - {at});
      if keys[i] !in at.items || at.items[keys[i]].Atom? {
        RemoveNothing(at.Tree, keys[i..]);
        return null, stops;
      }
      var next := at.items[keys[i]].d;
      WentOn(data, keys, stops, at, next, rest);
      stops := stops + [Stop(at, keys[i], next, rest, at.Repr, at.Tree)];
      at, i := next, i + 1;
    }
    current := at;
  }

  method PopPath(data: PyDict, keys: Path)
    requires data.Valid() && keys != []
    modifies data.Repr
    ensures data.Valid() && data.Repr <= old(data.Repr)
    ensures data.Tree == RemoveAt(old(data.Tree), keys)
  {
    var current, stops := Descend(data, keys);
    if current != null && keys[|keys| - 1] in current.items {
      ghost var tree, all := current.Tree, data.Repr;
      TrailClear(stops, keys, data, current, current.Repr, tree);
      Delete(current, keys[|keys| - 1]);
      SettleAll(stops, keys, data, current, tree, all);
    }
  }

  // ---- current_dst ----

  /** The dictionaries `at` were made here, each at its place; only at `lent` does one refer to another's. */
  ghost predicate Skeleton(at: map<PyDict, Path>, lent: set<Path>)
    reads at.Keys
  {
    forall o, k | o in at && k in o.items && o.items[k].Ref? ::
      at[o] + [k] in lent || (o.items[k].d in at && at[o.items[k].d] == at[o] + [k])
  }

  /** `current_dst = current_dst.setdefault(key, {})`, at a place where nothing was lent. */
  method SetDefault(d: PyDict, key: string, ghost at: map<PyDict, Path>, ghost lent: set<Path>, ghost stops: seq<Stop>)
    returns (next: PyDict, ghost rest: set<PyDict>, ghost at': map<PyDict, Path>)
    requires forall s | s in stops :: Passed(s) && s.d != d && d !in s.rest
    requires d.Valid() && d in at && Skeleton(at, lent) && at[d] + [key] !in lent
    modifies d`items
    ensures Passed(Stop(d, key, next, rest, d.Repr, d.Tree))
    ensures forall s | s in stops :: Passed(s)
    ensures forall s | s in stops && s.d !in old(d.Repr) && s.rest !! old(d.Repr) ::
        s.d !in next.Repr && s.rest !! next.Repr
    ensures next.Valid() && next.Tree == Nest(d.Tree, key)
    ensures d !in next.Repr && rest !! next.Repr && fresh(next.Repr - d.Repr)
    ensures Skeleton(at', lent) && next in at' && at'[next] == at[d] + [key]
    ensures at'.Keys >= at.Keys && fresh(at'.Keys - at.Keys) && forall o | o in at :: at'[o] == at[o]
    ensures next.Repr <= d.Repr + at'.Keys
  {
    var had := key in d.items && d.items[key].Ref?;
    next, rest := Enter(d, key, stops);
    at' := if had then at else at[next := at[d] + [key]];
  }

  /** The walk down `shared` has come to `current`, through dictionaries made here. */
  ghost predicate Reached(keys: Path, stops: seq<Stop>, shared: PyDict, current: PyDict, span: set<PyDict>, tree: Value,
      all: set<PyDict>, base: set<PyDict>, at: map<PyDict, Path>, origin: Value)
    requires |stops| < |keys|
  {
    && Walked(keys, stops, shared, current, span, tree, all, origin)
    && (forall s | s in stops :: s.d in at) && all <= base + at.Keys
    && current in at && at[current] == keys[..|stops|] && shared in at && at[shared] == []
  }

  lemma ReachedNext(keys: Path, stops: seq<Stop>, shared: PyDict, stop: Stop, span: set<PyDict>, tree: Value,
      all: set<PyDict>, base: set<PyDict>, at: map<PyDict, Path>, at': map<PyDict, Path>, origin: Value)
    requires |stops| < |keys| - 1 && Reached(keys, stops, shared, stop.d, stop.span, stop.tree, all, base, at, origin)
    requires stop.key == keys[|stops|] && tree == Nest(stop.tree, stop.key)
    requires stop.d !in span && stop.rest !! span && span <= stop.span + at'.Keys
    requires forall s | s in stops :: s.d !in span && s.rest !! span
    requires at.Keys <= at'.Keys && forall o | o in at :: at'[o] == at[o]
    requires stop.next in at' && at'[stop.next] == at[stop.d] + [stop.key]
    ensures Reached(keys, stops + [stop], shared, stop.next, span, tree, all + span, base, at', origin)
  {
    WalkedNext(keys, stops, shared, stop, span, tree, all, origin);
    assert keys[..|stops|] + [keys[|stops|]] == keys[..|stops| + 1];
  }

  /** One turn of that walk. */
  method DefaultNext(shared: PyDict, keys: Path, i: nat, current: PyDict, ghost stops: seq<Stop>,
        ghost all: set<PyDict>, ghost base: set<PyDict>, ghost at: map<PyDict, Path>, ghost lent: set<Path>,
        ghost origin: Value)
    returns (next: PyDict, ghost stops': seq<Stop>, ghost all': set<PyDict>, ghost at': map<PyDict, Path>)
    requires i == |stops| < |keys| - 1 && current.Valid() && Skeleton(at, lent) && keys[..i + 1] !in lent
    requires forall s | s in stops :: Passed(s)
    requires Reached(keys, stops, shared, current, current.Repr, current.Tree, all, base, at, origin)
    modifies current`items
    ensures |stops'| == i + 1 && next.Valid()
    ensures forall s | s in stops' :: Passed(s)
    ensures Reached(keys, stops', shared, next, next.Repr, next.Tree, all', base, at', origin)
    ensures Skeleton(at', lent) && at'.Keys >= at.Keys && fresh(at'.Keys - at.Keys)
  {
    ghost var span, tree := current.Repr, current.Tree;
    TrailClear(stops, keys, shared, current, span, tree);
    OnTheWay(keys, i);
    ghost var rest;
    next, rest, at' := SetDefault(current, keys[i], at, lent, stops);
    ghost var stop := Stop(current, keys[i], next, rest, span, tree);
    ReachedNext(keys, stops, shared, stop, next.Repr, next.Tree, all, base, at, at', origin);
    stops', all' := stops + [stop], all + next.Repr;
  }

  /** Walks `shared` down to the mapping that takes the last of `keys`. */
  method DefaultDown(shared: PyDict, keys: Path, ghost at: map<PyDict, Path>, ghost lent: set<Path>)
    returns (current: PyDict, ghost stops: seq<Stop>, ghost all: set<PyDict>, ghost at': map<PyDict, Path>)
    requires shared.Valid() && keys != [] && shared in at && at[shared] == [] && Skeleton(at, lent)
    requires forall i | 0 < i < |keys| :: keys[..i] !in lent
    modifies at.Keys
    ensures current.Valid() && |stops| == |keys| - 1
    ensures forall s | s in stops :: Passed(s)
    ensures forall s | s in stops :: s.span <= all && s.d in at'
    ensures Trail(stops, keys, shared, current, current.Repr, current.Tree)
    ensures current.Repr <= all <= old(shared.Repr) + at'.Keys
    ensures (if stops == [] then current.Tree else stops[0].tree) == old(shared.Tree)
    ensures Skeleton(at', lent) && current in at' && at'[current] == keys[..|keys| - 1]
    ensures at'.Keys >= at.Keys && fresh(at'.Keys - at.Keys) && at'[shared] == []
  {
    current, stops, all, at' := shared, [], shared.Repr, at;
    var i := 0;
    while i < |keys| - 1
      invariant 0 <= i == |stops| < |keys| && current.Valid()
      invariant forall s | s in stops :: Passed(s)
      invariant Reached(keys, stops, shared, current, current.Repr, current.Tree, all, old(shared.Repr), at',
          old(shared.Tree))
      invariant Skeleton(at', lent) && at'.Keys >= at.Keys && fresh(at'.Keys - at.Keys)
    {
      current, stops, all, at' :=
        DefaultNext(shared, keys, i, current, stops, all, old(shared.Repr), at', lent, old(shared.Tree));
      i := i + 1;
    }
  }

  lemma OnTheWay(keys: Path, i: nat)
    requires i < |keys|
    ensures keys[..i] + [keys[i]] == keys[..i + 1]
  {
  }

  /** `d[key] = cell`. */
  method Store(d: PyDict, key: string, cell: Cell, ghost stops: seq<Stop>, ghost at: map<PyDict, Path>,
        ghost lent: set<Path>)
    requires d in at && Skeleton(at, lent)
    requires forall s | s in stops :: Passed(s) && s.d != d && d !in s.rest
    requires d.Valid() && (cell.Atom? ==> !cell.v.Map?)
    requires cell.Ref? ==> cell.d.Valid() && cell.d.Repr !! d.Repr
    modifies d
    ensures d.Valid() && d.Repr == old(d.Repr) + old(Below(cell))
    ensures d.Tree == Map(old(d.Tree).m[key := old(Reads(cell))])
    ensures d.items == old(d.items)[key := cell]
    ensures forall s | s in stops :: Passed(s)
    ensures Skeleton(at, lent + {at[d] + [key]})
  {
    PutCell(d, key, cell, stops);
  }

  /** Puts a cell of another dictionary at `keys`; only dictionaries made here are written. No leaf stands
      on the way, so `setdefault` always hands back a mapping. */
  method Lend(shared: PyDict, keys: Path, cell: Cell, ghost at: map<PyDict, Path>, ghost lent: set<Path>)
    returns (ghost at': map<PyDict, Path>)
    requires shared.Valid() && keys != [] && shared in at && at[shared] == [] && Skeleton(at, lent)
    requires forall i | 0 < i < |keys| :: keys[..i] !in lent
    requires forall i | 0 < i < |keys| && Get(shared.Tree, keys[..i]).Some? :: Get(shared.Tree, keys[..i]).value.Map?
    requires cell.Atom? ==> !cell.v.Map?
    requires cell.Ref? ==> cell.d.Valid() && cell.d.Repr !! shared.Repr + at.Keys
    modifies at.Keys
    ensures shared.Valid() && shared.Tree == SetAt(old(shared.Tree), keys, old(Reads(cell)))
    ensures shared.Repr <= old(shared.Repr) + at'.Keys + old(Below(cell))
    ensures Skeleton(at', lent + {keys}) && shared in at' && at'[shared] == []
    ensures at'.Keys >= at.Keys && fresh(at'.Keys - at.Keys)
  {
    ghost var v, below := Reads(cell), Below(cell);
    var current, stops, all, at1 := DefaultDown(shared, keys, at, lent);
    at' := at1;
    ghost var tree, span, last := current.Tree, current.Repr, keys[|keys| - 1];
    WritesAtEnd(stops, keys, shared, current, span, tree, v, below);
    Store(current, keys[|keys| - 1], cell, stops, at', lent);
    OnTheWay(keys, |keys| - 1);
    TakeAll(keys);
    SettleAll(stops, keys, shared, current, tree, all + below);
  }

  // ---- _partition_secrets ----

  /** Everything of `data` at and below the places `ps`. */
  ghost function Lent(data: PyDict, ps: set<Path>): set<PyDict>
    requires data.Valid() && forall p | p in ps :: p != []
    reads data, data.Repr
  {
    set p, o | p in ps && Lookup(data, p).Some? && o in Below(Lookup(data, p).value) :: o
  }

  lemma LentApart(data: PyDict, ps: set<Path>, p: Path)
    requires data.Valid() && Apart(ps + {p}) && p !in ps
    requires Lookup(data, p).Some? && Lookup(data, p).value.Ref?
    ensures Lookup(data, p).value.d.Repr !! Lent(data, ps)
  {
    forall q | q in ps && Lookup(data, q).Some? && Lookup(data, q).value.Ref?
      ensures Lookup(data, p).value.d.Repr !! Lookup(data, q).value.d.Repr
    {
      assert p != q && p in ps + {p} && q in ps + {p};
      assert !(p < q) && !(q < p);
      assert !(p <= q) && !(q <= p);
      LookupApart(data, p, q);
    }
  }

  lemma LentMore(data: PyDict, ps: set<Path>, p: Path)
    requires data.Valid() && p != [] && forall q | q in ps :: q != []
    ensures Lent(data, ps + {p}) ==
            Lent(data, ps) + if Lookup(data, p).Some? then Below(Lookup(data, p).value) else {}
  {
  }

  /** The shared part once the places `ps` are dealt with. */
  ghost predicate SharedSide(data: PyDict, shared: PyDict, at: map<PyDict, Path>, ps: set<Path>)
    reads data, data.Repr, shared, shared.Repr, at.Keys
  {
    && data.Valid() && shared.Valid() && Apart(ps)
    && shared in at && at[shared] == [] && Skeleton(at, ps)
    && at.Keys !! data.Repr && shared.Repr <= at.Keys + Lent(data, ps)
    && Holds(shared.Tree, data.Tree, ps)
  }

  /** Lends one more place, if the input has it. */
  method LendPlace(data: PyDict, shared: PyDict, place: Path, ghost at: map<PyDict, Path>, ghost ps: set<Path>)
    returns (found: bool, ghost at': map<PyDict, Path>)
    requires SharedSide(data, shared, at, ps) && Apart(ps + {place}) && place !in ps
    modifies at.Keys
    ensures SharedSide(data, shared, at', ps + {place})
    ensures found <==> Get(data.Tree, place).Some?
    ensures at'.Keys >= at.Keys && fresh(at'.Keys - at.Keys)
  {
    at' := at;
    var src := Find(data, place);
    found := src.Some?;
    if found {
      Prepared(data, shared, at, ps, place, src.value);
      at' := LendFound(data, shared, place, src.value, at, ps);
    } else {
      NothingThere(data, shared, at, ps, place);
    }
  }

  method LendFound(data: PyDict, shared: PyDict, place: Path, cell: Cell, ghost at: map<PyDict, Path>,
        ghost ps: set<Path>)
    returns (ghost at': map<PyDict, Path>)
    requires data.Valid() && shared.Valid() && Apart(ps + {place})
    requires shared in at && at[shared] == [] && Skeleton(at, ps)
    requires forall i | 0 < i < |place| :: place[..i] !in ps
    requires forall i | 0 < i < |place| && Get(shared.Tree, place[..i]).Some? :: Get(shared.Tree, place[..i]).value.Map?
    requires cell.Atom? ==> !cell.v.Map?
    requires cell.Ref? ==> cell.d.Valid() && cell.d.Repr !! shared.Repr + at.Keys
    requires at.Keys !! data.Repr && shared.Repr <= at.Keys + Lent(data, ps)
    requires Lent(data, ps + {place}) == Lent(data, ps) + Below(cell)
    requires Holds(SetAt(shared.Tree, place, Reads(cell)), data.Tree, ps + {place})
    modifies at.Keys
    ensures SharedSide(data, shared, at', ps + {place}) && data.Tree == old(data.Tree)
    ensures at'.Keys >= at.Keys && fresh(at'.Keys - at.Keys)
  {
    at' := LendBeside(data, shared, place, cell, at, ps);
  }

  /** Lending leaves alone what the input has of any places. */
  method LendBeside(data: PyDict, shared: PyDict, keys: Path, cell: Cell, ghost at: map<PyDict, Path>,
        ghost ps: set<Path>)
    returns (ghost at': map<PyDict, Path>)
    requires shared.Valid() && keys != [] && shared in at && at[shared] == [] && Skeleton(at, ps)
    requires forall i | 0 < i < |keys| :: keys[..i] !in ps
    requires forall i | 0 < i < |keys| && Get(shared.Tree, keys[..i]).Some? :: Get(shared.Tree, keys[..i]).value.Map?
    requires cell.Atom? ==> !cell.v.Map?
    requires cell.Ref? ==> cell.d.Valid() && cell.d.Repr !! shared.Repr + at.Keys
    requires data.Valid() && at.Keys !! data.Repr && forall p | p in ps + {keys} :: p != []
    modifies at.Keys
    ensures shared.Valid() && shared.Tree == SetAt(old(shared.Tree), keys, old(Reads(cell)))
    ensures shared.Repr <= old(shared.Repr) + at'.Keys + old(Below(cell))
    ensures Skeleton(at', ps + {keys}) && shared in at' && at'[shared] == []
    ensures at'.Keys >= at.Keys && fresh(at'.Keys - at.Keys)
    ensures data.Valid() && data.Tree == old(data.Tree) && data.Repr == old(data.Repr)
    ensures Lent(data, ps + {keys}) == old(Lent(data, ps + {keys}))
  {
    at' := Lend(shared, keys, cell, at, ps);
  }

  lemma NothingThere(data: PyDict, shared: PyDict, at: map<PyDict, Path>, ps: set<Path>, place: Path)
    requires SharedSide(data, shared, at, ps) && Apart(ps + {place}) && Lookup(data, place) == None
    ensures Get(data.Tree, place) == None && SharedSide(data, shared, at, ps + {place})
  {
    LookupGets(data, place);
    LentMore(data, ps, place);
    HoldsNone(shared.Tree, data.Tree, ps, place);
  }

  /** Lends a place to the shared part and pops it from the copy. */
  method MoveOver(data: PyDict, shared: PyDict, envOnly: PyDict, place: Path, ghost at: map<PyDict, Path>,
        ghost ps: set<Path>)
    returns (ghost at': map<PyDict, Path>)
    requires SharedSide(data, shared, at, ps) && Apart(ps + {place}) && place !in ps
    requires envOnly.Valid() && envOnly.Repr !! data.Repr + at.Keys && Lacks(envOnly.Tree, data.Tree, ps)
    modifies at.Keys, envOnly.Repr
    ensures SharedSide(data, shared, at', ps + {place})
    ensures envOnly.Valid() && envOnly.Repr !! data.Repr + at'.Keys && Lacks(envOnly.Tree, data.Tree, ps + {place})
    ensures at'.Keys >= at.Keys && fresh(at'.Keys - at.Keys) && envOnly.Repr <= old(envOnly.Repr)
  {
    var found, at1 := LendPlace(data, shared, place, at, ps);
    at' := at1;
    if found {
      LacksMore(envOnly.Tree, data.Tree, ps, place);
      LentInside(data, ps + {place});
      PopPath(envOnly, place);
    } else {
      LacksNone(envOnly.Tree, data.Tree, ps, place);
    }
  }

  lemma LentInside(data: PyDict, ps: set<Path>)
    requires data.Valid() && forall p | p in ps :: p != []
    ensures Lent(data, ps) <= data.Repr
  {
  }

  lemma Prepared(data: PyDict, shared: PyDict, at: map<PyDict, Path>, ps: set<Path>, place: Path, cell: Cell)
    requires data.Valid() && shared.Valid() && Apart(ps + {place}) && place !in ps && Holds(shared.Tree, data.Tree, ps)
    requires at.Keys !! data.Repr && shared.Repr <= at.Keys + Lent(data, ps) && Lookup(data, place) == Some(cell)
    ensures forall i | 0 < i < |place| :: place[..i] !in ps
    ensures forall i | 0 < i < |place| && Get(shared.Tree, place[..i]).Some? :: Get(shared.Tree, place[..i]).value.Map?
    ensures cell.Ref? ==> cell.d.Valid() && cell.d.Repr !! shared.Repr + at.Keys
    ensures cell.Atom? ==> !cell.v.Map?
    ensures Get(data.Tree, place).Some?
    ensures Holds(SetAt(shared.Tree, place, Reads(cell)), data.Tree, ps + {place})
    ensures Lent(data, ps + {place}) == Lent(data, ps) + Below(cell)
  {
    forall i | 0 < i < |place|
      ensures place[..i] !in ps && (Get(shared.Tree, place[..i]).Some? ==> Get(shared.Tree, place[..i]).value.Map?)
    {
      assert place[..i] < place;
      HoldsClearWay(shared.Tree, data.Tree, ps, place, i);
    }
    LookupGets(data, place);
    LentMore(data, ps, place);
    HoldsMore(shared.Tree, data.Tree, ps, place);
    if cell.Ref? {
      LentApart(data, ps, place);
    }
  }

  /** The split so far: both sides, nothing but new dictionaries written. */
  ghost predicate Split(data: PyDict, shared: PyDict, envOnly: PyDict, at: map<PyDict, Path>, ps: set<Path>)
    reads data, data.Repr, shared, shared.Repr, envOnly, envOnly.Repr, at.Keys
  {
    && SharedSide(data, shared, at, ps)
    && envOnly.Valid() && envOnly.Repr !! data.Repr + at.Keys && Lacks(envOnly.Tree, data.Tree, ps)
  }

  method MoveTops(data: PyDict, shared: PyDict, envOnly: PyDict, ghost at: map<PyDict, Path>)
    returns (ghost at': map<PyDict, Path>)
    requires Split(data, shared, envOnly, at, {})
    modifies at.Keys, envOnly.Repr
    ensures Split(data, shared, envOnly, at', Places(SHARED_TOP_KEYS, 0))
    ensures fresh(at'.Keys - at.Keys) && envOnly.Repr <= old(envOnly.Repr)
  {
    at' := at;
    var todo := SHARED_TOP_KEYS;
    ghost var done := {};
    PlacesStart();
    while todo != {}
      invariant todo !! done && todo + done == SHARED_TOP_KEYS
      invariant Split(data, shared, envOnly, at', Places(done, 0))
      invariant fresh(at'.Keys - at.Keys) && envOnly.Repr <= old(envOnly.Repr)
      decreases todo
    {
      var key :| key in todo;
      NextTop(done, key);
      at' := MoveOver(data, shared, envOnly, [key], at', Places(done, 0));
      OneMoved(todo, done, key);
      todo, done := todo - {key}, done + {key};
    }
  }

  method MoveNested(data: PyDict, shared: PyDict, envOnly: PyDict, ghost at: map<PyDict, Path>)
    returns (ghost at': map<PyDict, Path>)
    requires Split(data, shared, envOnly, at, Places(SHARED_TOP_KEYS, 0))
    modifies at.Keys, envOnly.Repr
    ensures Split(data, shared, envOnly, at', SHARED)
    ensures fresh(at'.Keys - at.Keys) && envOnly.Repr <= old(envOnly.Repr)
  {
    at' := at;
    for i := 0 to |SHARED_NESTED|
      invariant Split(data, shared, envOnly, at', Places(SHARED_TOP_KEYS, i))
      invariant fresh(at'.Keys - at.Keys) && envOnly.Repr <= old(envOnly.Repr)
    {
      NextNested(i);
      at' := MoveOver(data, shared, envOnly, SHARED_NESTED[i], at', Places(SHARED_TOP_KEYS, i));
    }
  }

  method Begin(data: PyDict) returns (shared: PyDict, envOnly: PyDict, ghost at: map<PyDict, Path>)
    requires data.Valid()
    ensures data.Valid() && data.Tree == old(data.Tree)
    ensures fresh(at.Keys) && fresh(envOnly.Repr)
    ensures Split(data, shared, envOnly, at, {})
  {
    shared := new PyDict();
    envOnly := DeepCopy(data);
    at := map[shared := []];
    PartsStart(data.Tree);
  }

  method Moves(data: PyDict, shared: PyDict, envOnly: PyDict, ghost at: map<PyDict, Path>)
    returns (ghost at': map<PyDict, Path>)
    requires Split(data, shared, envOnly, at, {})
    modifies at.Keys, envOnly.Repr
    ensures Split(data, shared, envOnly, at', SHARED)
    ensures fresh(at'.Keys - at.Keys) && envOnly.Repr <= old(envOnly.Repr)
  {
    at' := MoveTops(data, shared, envOnly, at);
    at' := MoveNested(data, shared, envOnly, at');
  }

  method PartitionSecrets(data: PyDict) returns (shared: PyDict, envOnly: PyDict)
    requires data.Valid()
    ensures shared.Valid() && envOnly.Valid() && fresh(envOnly.Repr) && envOnly.Repr !! shared.Repr
    ensures fresh(shared.Repr - data.Repr)
    ensures data.Valid() && data.Tree == old(data.Tree)
    ensures Parts(data.Tree, shared.Tree, envOnly.Tree)
  {
    ghost var at;
    shared, envOnly, at := Begin(data);
    at := Moves(data, shared, envOnly, at);
    FinishSplit(data, shared, envOnly, at);
  }

  /** Drops the mappings the pops left empty. */
  method FinishSplit(data: PyDict, shared: PyDict, envOnly: PyDict, ghost at: map<PyDict, Path>)
    requires Split(data, shared, envOnly, at, SHARED)
    modifies envOnly.Repr
    ensures shared.Valid() && data.Valid() && envOnly.Valid()
    ensures envOnly.Repr == old(envOnly.Repr) && envOnly.Repr !! shared.Repr && shared.Repr <= at.Keys + data.Repr
    ensures Parts(data.Tree, shared.Tree, envOnly.Tree)
  {
    LentInside(data, SHARED);
    PruneLacks(envOnly.Tree, data.Tree, SHARED);
    PruneLeavesNoEmpty(envOnly.Tree);
    PruneEmptyDicts(envOnly);
  }
}
