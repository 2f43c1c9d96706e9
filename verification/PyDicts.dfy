/**
  Nested dictionaries as the toolkit holds them: mutable objects that refer to one another.
  `Tree` is the value a dictionary reads as; every operation says what it does to it.
 */
module PyDicts {
  import opened Values

  /** A dictionary slot: a value stored whole, or a reference to a nested dictionary. */
  datatype Cell = Atom(v: Value) | Ref(d: PyDict)

  class PyDict {
    var items: map<string, Cell>
    ghost var Repr: set<PyDict>
    ghost var Tree: Value

    ghost predicate Valid()
      reads this, Repr
      ensures Valid() ==> this in Repr && Tree.Map? && Tree.m.Keys == items.Keys
      decreases Repr, 1
    {
      this in Repr && Tree.Map? && Slots(items, Tree.m, Repr - {this})
    }

    constructor ()
      ensures Valid() && Repr == {this} && items == map[] && Tree == EMPTY
    {
      items := map[];
      Repr := {this};
      Tree := EMPTY;
    }
  }

  /** The slots `m` read as `t`, and whatever they refer to lies in `within`, apart from each other. */
  ghost predicate Slots(m: map<string, Cell>, t: map<string, Value>, within: set<PyDict>)
    reads within
    decreases within, 2
  {
    && m.Keys == t.Keys
    && (forall k | k in m && m[k].Atom? :: !m[k].v.Map? && t[k] == m[k].v)
    && (forall k | k in m && m[k].Ref? ::
          m[k].d in within && m[k].d.Repr <= within && m[k].d.Valid() && t[k] == m[k].d.Tree)
    && (forall j, k | j in m && k in m && j != k && m[j].Ref? && m[k].Ref? :: m[j].d.Repr !! m[k].d.Repr)
  }

  /** The mapping found under `key`, or an empty one when there is none. */
  function Nest(t: Value, key: string): Value {
    if Child(t, key).Map? then Child(t, key) else EMPTY
  }

  /** A valid dictionary seen from one key: the child there, and `rest` holding all its siblings. */
  lemma Opened(d: PyDict, key: string) returns (rest: set<PyDict>)
    requires d.Valid()
    ensures Slots(d.items - {key}, d.Tree.m - {key}, rest) && rest <= d.Repr - {d}
    ensures if key in d.items && d.items[key].Ref?
            then var c := d.items[key].d;
                 c.Valid() && c.Repr <= d.Repr - {d} && c.Repr !! rest && c.Tree == Nest(d.Tree, key)
            else Nest(d.Tree, key) == EMPTY
  {
    var m := d.items - {key};
    rest := d.Repr - {d} - if key in d.items && d.items[key].Ref? then d.items[key].d.Repr else {};
    forall k | k in m
      ensures k in d.items && m[k] == d.items[k] && (d.Tree.m - {key})[k] == d.Tree.m[k]
      ensures m[k].Ref? ==> m[k].d.Valid() && m[k].d.Repr <= rest && m[k].d in m[k].d.Repr
    {
    }
  }

  /** The siblings' slots and the child's make up the whole dictionary's. */
  lemma {:induction false} SlotsJoined(m: map<string, Cell>, t: map<string, Value>, key: string, child: PyDict,
        rest: set<PyDict>, within: set<PyDict>)
    requires Slots(m - {key}, t - {key}, rest) && key in m && m[key] == Ref(child)
    requires child.Valid() && rest !! child.Repr && rest + child.Repr <= within
    ensures Slots(m, t[key := child.Tree], within)
  {
    var others, after := m - {key}, t[key := child.Tree];
    assert m.Keys == others.Keys + {key} && after.Keys == (t - {key}).Keys + {key};
    forall k | k in m && k != key ensures k in others && m[k] == others[k] && after[k] == (t - {key})[k] {
    }
  }

  /** Brings the ghost view of `d` up to date with the child now under `key`. */
  ghost method Settle(d: PyDict, key: string, child: PyDict, rest: set<PyDict>)
    requires d in d.Repr && d.Tree.Map? && Slots(d.items - {key}, d.Tree.m - {key}, rest) && rest <= d.Repr - {d}
    requires key in d.items && d.items[key] == Ref(child)
    requires child.Valid() && d !in child.Repr && rest !! child.Repr
    modifies d`Repr, d`Tree
    ensures d.Valid() && d.Repr == old(d.Repr) + child.Repr
    ensures d.Tree == Map(old(d.Tree).m[key := child.Tree])
  {
    SlotsJoined(d.items, d.Tree.m, key, child, rest, d.Repr + child.Repr - {d});
    d.Repr := d.Repr + child.Repr;
    d.Tree := Map(d.Tree.m[key := child.Tree]);
  }

  /** `d[key] = child`, for a `child` that shares nothing with the rest of `d`. */
  method Attach(d: PyDict, key: string, child: PyDict, ghost rest: set<PyDict>)
    requires d in d.Repr && d.Tree.Map? && Slots(d.items - {key}, d.Tree.m - {key}, rest) && rest <= d.Repr - {d}
    requires child.Valid() && d !in child.Repr && rest !! child.Repr
    modifies d
    ensures d.Valid() && d.Repr == old(d.Repr) + child.Repr
    ensures d.Tree == Map(old(d.Tree).m[key := child.Tree])
    ensures d.items == old(d.items)[key := Ref(child)]
    ensures Slots(d.items - {key}, d.Tree.m - {key}, rest)
    ensures d.items - {key} == old(d.items) - {key} && d.Tree.m - {key} == old(d.Tree).m - {key}
  {
    ghost var m := d.items - {key};
    d.items := d.items[key := Ref(child)];
    assert d.items - {key} == m;
    Settle(d, key, child, rest);
  }

  /** `d[key] = v` for a leaf `v`. */
  method SetAtom(d: PyDict, key: string, v: Value)
    requires d.Valid() && !v.Map?
    modifies d
    ensures d.Valid() && d.Repr == old(d.Repr) && d.items == old(d.items)[key := Atom(v)]
    ensures d.Tree == Map(old(d.Tree).m[key := v])
  {
    assert Slots(d.items, d.Tree.m, d.Repr - {d});
    ghost var items := d.items;
    d.items := d.items[key := Atom(v)];
    d.Tree := Map(d.Tree.m[key := v]);
    forall k | k in d.items && d.items[k].Ref? ensures k in items && k != key && d.items[k] == items[k] {}
    assert Slots(d.items, d.Tree.m, d.Repr - {d});
  }

  /** `del d[key]`. */
  method Delete(d: PyDict, key: string)
    requires d.Valid()
    modifies d
    ensures d.Valid() && d.Repr == old(d.Repr)
    ensures d.Tree == Map(old(d.Tree).m - {key})
  {
    d.items := d.items - {key};
    d.Tree := Map(d.Tree.m - {key});
  }

  /** `base if isinstance(base, dict) else {}`, where `base` is what `d` holds under `key`. */
  method Nested(d: PyDict, key: string) returns (base: PyDict, ghost rest: set<PyDict>)
    requires d.Valid()
    ensures base.Valid() && d !in base.Repr && fresh(base.Repr - d.Repr)
    ensures if key in d.items && d.items[key].Ref? then d.items[key].d == base
            else fresh(base) && base.Repr == {base} && base.items == map[]
    ensures Slots(d.items - {key}, d.Tree.m - {key}, rest) && rest <= d.Repr - {d} && rest !! base.Repr
    ensures base.Tree == Nest(d.Tree, key)
  {
    rest := Opened(d, key);
    if key in d.items && d.items[key].Ref? {
      base := d.items[key].d;
    } else {
      base := new PyDict();
    }
  }

  /** A dictionary a walk went through: the key it left by, what hangs under its other keys, how it read. */
  datatype Stop = Stop(d: PyDict, key: string, next: PyDict, rest: set<PyDict>, span: set<PyDict>, tree: Value)

  /** `s.d` is valid but for the slot the walk went on through. */
  ghost predicate Passed(s: Stop)
    reads s.d, s.rest
  {
    && s.d.Repr == s.span && s.d.Tree == s.tree && s.tree.Map?
    && s.d in s.span && s.rest <= s.span - {s.d}
    && Slots(s.d.items - {s.key}, s.tree.m - {s.key}, s.rest)
    && s.key in s.d.items && s.d.items[s.key] == Ref(s.next)
  }

  /** The stops lead from `from` along `keys` to `to`, each reading as the slot of the one before. */
  ghost predicate Linked(stops: seq<Stop>, keys: Path, from: PyDict, to: PyDict, tree: Value)
    requires |stops| <= |keys|
  {
    && (if stops == [] then from == to
        else
          var last := stops[|stops| - 1];
          from == stops[0].d && last.next == to && tree == Nest(last.tree, last.key))
    && (forall j | 0 <= j < |stops| :: stops[j].key == keys[j])
    && (forall j | 0 <= j < |stops| - 1 ::
          stops[j].next == stops[j + 1].d && stops[j + 1].tree == Nest(stops[j].tree, stops[j].key))
  }

  /** What lies deeper is clear of what was passed. */
  ghost predicate Layered(stops: seq<Stop>, span: set<PyDict>) {
    && (forall j | 0 <= j < |stops| :: stops[j].d !in span && stops[j].rest !! span)
    && (forall j, m | 0 <= j < m < |stops| :: stops[j].d !in stops[m].span && stops[j].rest !! stops[m].span)
  }

  ghost predicate Trail(stops: seq<Stop>, keys: Path, from: PyDict, to: PyDict, span: set<PyDict>, tree: Value)
    requires |stops| <= |keys|
  {
    Linked(stops, keys, from, to, tree) && Layered(stops, span)
  }

  lemma LinkedPush(stops: seq<Stop>, keys: Path, from: PyDict, stop: Stop, tree: Value)
    requires |stops| < |keys| && Linked(stops, keys, from, stop.d, stop.tree)
    requires stop.key == keys[|stops|] && tree == Nest(stop.tree, stop.key)
    ensures Linked(stops + [stop], keys, from, stop.next, tree)
  {
  }

  lemma LayeredPush(stops: seq<Stop>, stop: Stop, span: set<PyDict>)
    requires Layered(stops, stop.span) && stop.d !in span && stop.rest !! span
    requires forall s | s in stops :: s.d !in span && s.rest !! span
    ensures Layered(stops + [stop], span)
  {
  }

  lemma TrailPush(stops: seq<Stop>, keys: Path, from: PyDict, stop: Stop, span: set<PyDict>, tree: Value)
    requires |stops| < |keys| && Trail(stops, keys, from, stop.d, stop.span, stop.tree)
    requires stop.key == keys[|stops|] && tree == Nest(stop.tree, stop.key)
    requires stop.d !in span && stop.rest !! span
    requires forall s | s in stops :: s.d !in span && s.rest !! span
    ensures Trail(stops + [stop], keys, from, stop.next, span, tree)
  {
    LinkedPush(stops, keys, from, stop, tree);
    LayeredPush(stops, stop, span);
  }

  lemma TrailClear(stops: seq<Stop>, keys: Path, from: PyDict, to: PyDict, span: set<PyDict>, tree: Value)
    requires |stops| <= |keys| && Trail(stops, keys, from, to, span, tree)
    ensures forall s | s in stops :: s.d !in span && s.rest !! span
  {
  }

  lemma TrailGrow(stops: seq<Stop>, keys: Path, from: PyDict, to: PyDict, span: set<PyDict>, tree: Value,
        extra: set<PyDict>)
    requires |stops| <= |keys| && Trail(stops, keys, from, to, span, tree)
    requires forall s | s in stops :: s.d !in extra && s.rest !! extra
    ensures Trail(stops, keys, from, to, span + extra, tree)
  {
  }

  lemma TrailPop(stops: seq<Stop>, keys: Path, from: PyDict, to: PyDict, span: set<PyDict>, tree: Value)
    requires stops != [] && |stops| <= |keys| && Trail(stops, keys, from, to, span, tree)
    ensures var last := |stops| - 1;
            var stop := stops[last];
            && stop.key == keys[last] && stop.next == to && tree == Nest(stop.tree, stop.key)
            && stop.d !in span && stop.rest !! span
            && Trail(stops[..last], keys, from, stop.d, stop.span + span, stop.tree)
            && stop in stops
            && forall s | s in stops[..last] :: s in stops && s.d !in stop.span && s.rest !! stop.span
  {
  }

  /** What the outermost dictionary reads as once the innermost reads as `t`. */
  ghost function Rebuilt(stops: seq<Stop>, t: Value): Value
    decreases |stops|
  {
    if stops == [] then t
    else
      var last := stops[|stops| - 1];
      Rebuilt(stops[..|stops| - 1], Map((if last.tree.Map? then last.tree.m else map[])[last.key := t]))
  }

  /** Brings the ghost view up to date from the innermost stop out. */
  ghost method SettleAll(stops: seq<Stop>, keys: Path, data: PyDict, to: PyDict, tree: Value, all: set<PyDict>)
    requires |stops| <= |keys| && Trail(stops, keys, data, to, to.Repr, tree)
    requires forall s | s in stops :: Passed(s) && s.span <= all
    requires to.Valid() && to.Repr <= all
    modifies set s | s in stops :: s.d
    ensures data.Valid() && data.Repr <= all
    ensures data.Tree == Rebuilt(stops, old(to.Tree))
    ensures forall s | s in stops :: s.d.items == old(s.d.items)
    decreases |stops|
  {
    if stops != [] {
      var last := |stops| - 1;
      var stop, outer := stops[last], stops[..last];
      TrailPop(stops, keys, data, to, to.Repr, tree);
      assert Passed(stop);
      Settle(stop.d, stop.key, to, stop.rest);
      SettleAll(outer, keys, data, stop.d, stop.tree, all);
    }
  }

  // ---- reading along a path ----

  /** What a cell reads as. */
  ghost function Reads(cell: Cell): Value
    reads if cell.Ref? then {cell.d} else {}
  {
    if cell.Ref? then cell.d.Tree else cell.v
  }

  /** The dictionaries at and below a cell. */
  ghost function Below(cell: Cell): set<PyDict>
    reads if cell.Ref? then {cell.d} else {}
  {
    if cell.Ref? then cell.d.Repr else {}
  }

  /** The cell at the end of `keys`. */
  ghost function Lookup(d: PyDict, keys: Path): (r: Option<Cell>)
    requires d.Valid() && keys != []
    reads d, d.Repr
    ensures r.Some? && r.value.Ref? ==> r.value.d in d.Repr && r.value.d.Repr <= d.Repr - {d}
    decreases |keys|
  {
    assert Slots(d.items, d.Tree.m, d.Repr - {d});
    if keys[0] !in d.items then None
    else if |keys| == 1 then Some(d.items[keys[0]])
    else if d.items[keys[0]].Ref? then Lookup(d.items[keys[0]].d, keys[1..])
    else None
  }

  lemma {:induction false} LookupGets(d: PyDict, keys: Path)
    requires d.Valid() && keys != []
    ensures var r := Lookup(d, keys);
            && (r.None? ==> Get(d.Tree, keys) == None)
            && (r.Some? && r.value.Atom? ==> !r.value.v.Map? && Get(d.Tree, keys) == Some(r.value.v))
            && (r.Some? && r.value.Ref? ==>
                  var c := r.value.d;
                  c.Valid() && c.Repr <= d.Repr - {d} && Get(d.Tree, keys) == Some(c.Tree))
    decreases |keys|
  {
    assert Slots(d.items, d.Tree.m, d.Repr - {d});
    if keys[0] in d.items {
      if |keys| == 1 {
        assert keys[1..] == [];
      } else if d.items[keys[0]].Ref? {
        LookupGets(d.items[keys[0]].d, keys[1..]);
      }
    }
  }

  /** Cells at paths that do not run through one another share nothing. */
  lemma {:induction false} LookupApart(d: PyDict, p: Path, q: Path)
    requires d.Valid() && p != [] && q != [] && !(p <= q) && !(q <= p)
    requires Lookup(d, p).Some? && Lookup(d, p).value.Ref? && Lookup(d, q).Some? && Lookup(d, q).value.Ref?
    ensures Lookup(d, p).value.d.Repr !! Lookup(d, q).value.d.Repr
    decreases |p|
  {
    assert Slots(d.items, d.Tree.m, d.Repr - {d});
    if p[0] == q[0] {
      assert p == [p[0]] + p[1..] && q == [q[0]] + q[1..];
      LookupApart(d.items[p[0]].d, p[1..], q[1..]);
    } else {
      LookupInside(d, p);
      LookupInside(d, q);
    }
  }

  lemma LookupInside(d: PyDict, p: Path)
    requires d.Valid() && p != [] && Lookup(d, p).Some? && Lookup(d, p).value.Ref?
    ensures p[0] in d.items && d.items[p[0]].Ref? && Lookup(d, p).value.d.Repr <= d.items[p[0]].d.Repr
  {
    assert Slots(d.items, d.Tree.m, d.Repr - {d});
    if |p| > 1 {
      LookupGets(d.items[p[0]].d, p[1..]);
    }
  }
}
