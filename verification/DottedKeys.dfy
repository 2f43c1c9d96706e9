/** Dotted keys: credentials.py `_flatten_dict`, and the writes of configuration.py that undo it. */
module DottedKeys {
  import opened Values
  import opened Strings
  import opened PyDicts
  import opened Configuration

  const DOT := '.'

  // ---- pruning, and trees determined by their leaves ----

  /** `v` without the keys whose value is, or becomes, an empty mapping. */
  function Prune(v: Value): (r: Value)
    ensures v.Map? <==> r.Map?
  {
    if !v.Map? then v
    else Map(map k | k in v.m && Prune(v.m[k]) != EMPTY :: Prune(v.m[k]))
  }

  /** No mapping below the root is empty. */
  predicate NoEmpty(v: Value) {
    v.Map? ==> forall k | k in v.m :: v.m[k] != EMPTY && NoEmpty(v.m[k])
  }

  lemma PruneLeavesNoEmpty(v: Value)
    ensures NoEmpty(Prune(v))
  {
  }

  /** A non-empty mapping without empty mappings below it holds a leaf. */
  lemma {:induction false} SomeLeaf(v: Value) returns (p: Path)
    requires NoEmpty(v) && v != EMPTY
    ensures Resolve(v, p).Some?
  {
    if !v.Map? {
      p := [];
    } else {
      var k :| k in v.m;
      var q := SomeLeaf(v.m[k]);
      p := [k] + q;
    }
  }

  lemma {:induction false} PruneResolves(v: Value, p: Path)
    ensures Resolve(Prune(v), p) == Resolve(v, p)
    decreases |p|
  {
    if p != [] && v.Map? && p[0] in v.m {
      PruneResolves(v.m[p[0]], p[1..]);
      if Prune(v.m[p[0]]) == EMPTY {
        assert Resolve(EMPTY, p[1..]) == None;
      }
    }
  }

  /** Trees without empty mappings are told apart by their leaves. */
  lemma {:induction false} LeavesDecide(a: Value, b: Value)
    requires NoEmpty(a) && NoEmpty(b) && a.Map? == b.Map?
    requires forall p :: Resolve(a, p) == Resolve(b, p)
    ensures a == b
    decreases a
  {
    if !a.Map? {
      assert Resolve(a, []) == Some(a) && Resolve(b, []) == Some(b);
    } else {
      SameKeys(a, b);
      SameKeys(b, a);
      forall k | k in a.m ensures a.m[k] == b.m[k] {
        forall p ensures Resolve(a.m[k], p) == Resolve(b.m[k], p) {
          assert Resolve(a, [k] + p) == Resolve(b, [k] + p);
        }
        assert Resolve(a.m[k], []) == Resolve(b.m[k], []);
        LeavesDecide(a.m[k], b.m[k]);
      }
    }
  }

  lemma SameKeys(a: Value, b: Value)
    requires NoEmpty(a) && a.Map? && b.Map?
    requires forall p :: Resolve(a, p) == Resolve(b, p)
    ensures a.m.Keys <= b.m.Keys
  {
    forall k | k in a.m ensures k in b.m {
      var p := SomeLeaf(a.m[k]);
      assert Resolve(a, [k] + p) == Resolve(b, [k] + p);
    }
  }

  // ---- one write ----

  lemma SetAtResolves(t: Value, keys: Path, v: Value, q: Path)
    requires t.Map? && keys != [] && !v.Map?
    ensures Resolve(SetAt(t, keys, v), q) ==
            if q == keys then Some(v) else if keys < q || q < keys then None else Resolve(t, q)
  {
    SetAtGets(t, keys, v, q);
    if keys <= q {
      assert q[|keys|..] == [] <==> q == keys;
    }
  }

  lemma {:induction false} SetAtNoEmpty(t: Value, keys: Path, v: Value)
    requires NoEmpty(t) && keys != [] && !v.Map?
    ensures NoEmpty(SetAt(t, keys, v)) && SetAt(t, keys, v) != EMPTY
    decreases |keys|
  {
    assert keys[0] in SetAt(t, keys, v).m;
    if |keys| > 1 {
      SetAtNoEmpty(Nest(t, keys[0]), keys[1..], v);
    }
  }

  // ---- dotted keys ----

  function FlatKey(prefix: string, k: string): string {
    if prefix != "" then prefix + [DOT] + k else k
  }

  /** The dotted key under which the leaf at `p` is filed. */
  function FlatPath(prefix: string, p: Path): string
    requires p != []
    decreases |p|
  {
    if |p| == 1 then FlatKey(prefix, p[0]) else FlatPath(FlatKey(prefix, p[0]), p[1..])
  }

  lemma {:induction false} FlatPathJoins(prefix: string, p: Path)
    requires p != []
    ensures prefix != "" ==> FlatPath(prefix, p) == prefix + [DOT] + Join(p, DOT)
    ensures prefix == "" && (p[0] != "" || |p| == 1) ==> FlatPath(prefix, p) == Join(p, DOT)
    decreases |p|
  {
    if |p| > 1 {
      FlatPathJoins(FlatKey(prefix, p[0]), p[1..]);
    }
  }

  /** `items` files exactly the leaves of `t` whose first key is in `done`. */
  ghost predicate Filed(t: Value, prefix: string, done: set<string>, items: map<string, Value>) {
    && (forall p | Resolve(t, p).Some? && p != [] && p[0] in done :: FlatPath(prefix, p) in items)
    && (forall key | key in items ::
          exists p | p != [] && p[0] in done :: FlatPath(prefix, p) == key && Resolve(t, p) == Some(items[key]))
  }

  ghost predicate Flattened(t: Value, prefix: string, items: map<string, Value>)
    requires t.Map?
  {
    Filed(t, prefix, t.m.Keys, items)
  }

  lemma FiledStep(t: Value, prefix: string, done: set<string>, k: string, items: map<string, Value>,
        sub: map<string, Value>)
    requires t.Map? && k in t.m && k !in done && Filed(t, prefix, done, items)
    requires if t.m[k].Map? then Flattened(t.m[k], FlatKey(prefix, k), sub)
        else sub == map[FlatKey(prefix, k) := t.m[k]]
    ensures Filed(t, prefix, done + {k}, items + sub)
  {
    forall p | Resolve(t, p).Some? && p != [] && p[0] in done + {k} ensures FlatPath(prefix, p) in items + sub {
      if p[0] == k {
        assert Resolve(t.m[k], p[1..]).Some?;
        assert |p| == 1 <==> !t.m[k].Map?;
      }
    }
    forall key | key in items + sub
      ensures exists p | p != [] && p[0] in done + {k} ::
                FlatPath(prefix, p) == key && Resolve(t, p) == Some((items + sub)[key])
    {
      if key in sub {
        if t.m[k].Map? {
          var q :| q != [] && q[0] in t.m[k].m && FlatPath(FlatKey(prefix, k), q) == key
              && Resolve(t.m[k], q) == Some(sub[key]);
          var p := [k] + q;
          assert p[1..] == q && FlatPath(prefix, p) == key && Resolve(t, p) == Some(sub[key]);
        } else {
          assert [k][1..] == [] && Get(t, [k]) == Some(t.m[k]);
          assert FlatPath(prefix, [k]) == key && Resolve(t, [k]) == Some(sub[key]);
        }
      }
    }
  }

  method FlattenDict(t: Value, prefix: string) returns (items: map<string, Value>)
    requires t.Map?
    ensures Flattened(t, prefix, items)
    decreases t
  {
    items := map[];
    var todo := t.m.Keys;
    while todo != {}
      invariant todo <= t.m.Keys
      invariant Filed(t, prefix, t.m.Keys - todo, items)
      decreases todo
    {
      var k :| k in todo;
      var key, v := FlatKey(prefix, k), t.m[k];
      var sub;
      if v.Map? {
        sub := FlattenDict(v, key);
      } else {
        sub := map[key := v];
      }
      FiledStep(t, prefix, t.m.Keys - todo, k, items, sub);
      assert t.m.Keys - todo + {k} == t.m.Keys - (todo - {k});
      items := items + sub;
      todo := todo - {k};
    }
  }

  // ---- writing every dotted key back ----

  function Keys(key: string): Path {
    Split(key, DOT)
  }

  /** Dots part the keys of a path. */
  lemma {:induction false} DotsPart(first: string, rest: string)
    requires '.' !in first
    ensures Keys(first) == [first] && Keys(first + "." + rest) == [first] + Keys(rest)
  {
    SplitPiece(first, rest, '.');
    assert first + "." + rest == first + ['.'] + rest;
  }

  /** The key a path is filed under has its keys joined by dots; a key at the top that is empty leaves no dot. */
  lemma {:induction false} FiledUnder(p: Path)
    requires p != [] && p[0] != ""
    ensures FlatPath("", p) == Join(p, '.')
  {
    FlatPathJoins("", p);
  }

  /** The writes of `batch_update_secrets`, in the order of `order`. */
  function SetAll(t: Value, order: seq<string>, items: map<string, Value>): (r: Value)
    requires t.Map? && forall key | key in order :: key in items
    ensures r.Map?
    decreases |order|
  {
    if order == [] then t
    else
      var last := order[|order| - 1];
      SetAt(SetAll(t, order[..|order| - 1], items), Keys(last), items[last])
  }

  /** The dictionaries a batch brings. */
  ghost function Brought(secrets: map<string, Cell>): set<PyDict>
    reads set key | key in secrets && secrets[key].Ref? :: secrets[key].d
  {
    set key, o | key in secrets && o in Below(secrets[key]) :: o
  }

  /** The values of a batch are leaves, or mappings that share nothing with each other or with `data`. */
  ghost predicate Bringable(secrets: map<string, Cell>, data: PyDict)
    reads data, set key | key in secrets && secrets[key].Ref? :: secrets[key].d
    reads set key, o | key in secrets && secrets[key].Ref? && o in secrets[key].d.Repr :: o
  {
    && (forall key | key in secrets && secrets[key].Atom? :: !secrets[key].v.Map?)
    && (forall key | key in secrets && secrets[key].Ref? :: secrets[key].d.Valid() && secrets[key].d.Repr !! data.Repr)
    && (forall j, k | j in secrets && k in secrets && j != k && secrets[j].Ref? && secrets[k].Ref? ::
          secrets[j].d.Repr !! secrets[k].d.Repr)
  }

  /** What the values of a batch read as. */
  ghost function Contents(secrets: map<string, Cell>): map<string, Value>
    reads set key | key in secrets && secrets[key].Ref? :: secrets[key].d
  {
    map key | key in secrets :: Reads(secrets[key])
  }

  /** The values still to be written are untouched, read as `values`, and share nothing with `data`. */
  ghost predicate Pending(secrets: map<string, Cell>, todo: set<string>, values: map<string, Value>,
        brought: set<PyDict>, data: PyDict)
    requires todo <= secrets.Keys && values.Keys == secrets.Keys
    reads data, brought
  {
    forall key | key in todo ::
      if secrets[key].Atom? then !secrets[key].v.Map? && values[key] == secrets[key].v
      else var d := secrets[key].d;
           && d in brought && d.Repr <= brought && d.Valid() && values[key] == d.Tree && d.Repr !! data.Repr
           && forall k | k in todo && k != key && secrets[k].Ref? ::
               secrets[k].d in brought && secrets[k].d.Repr !! d.Repr
  }

  lemma AllPending(secrets: map<string, Cell>, data: PyDict)
    requires Bringable(secrets, data)
    ensures Pending(secrets, secrets.Keys, Contents(secrets), Brought(secrets), data)
  {
    forall key | key in secrets && secrets[key].Ref?
      ensures secrets[key].d in Brought(secrets) && secrets[key].d.Repr <= Brought(secrets)
    {
      assert secrets[key].d in Below(secrets[key]);
    }
  }

  /** One write of the batch. */
  method WriteOne(data: PyDict, secrets: map<string, Cell>, key: string, ghost todo: set<string>,
        ghost values: map<string, Value>, ghost brought: set<PyDict>)
    requires data.Valid() && key in todo && todo <= secrets.Keys && values.Keys == secrets.Keys
    requires Pending(secrets, todo, values, brought, data)
    modifies data.Repr
    ensures data.Valid() && forall o | o in data.Repr :: o in old(data.Repr) || fresh(o) || o in brought
    ensures data.Tree == SetAt(old(data.Tree), Keys(key), values[key])
    ensures Pending(secrets, todo - {key}, values, brought, data)
  {
    SetNestedKey(data, Keys(key), secrets[key]);
  }

  lemma OneWritten(t: Value, order: seq<string>, key: string, items: map<string, Value>)
    requires t.Map? && key in items && forall k | k in order :: k in items
    ensures SetAll(t, order + [key], items) == SetAt(SetAll(t, order, items), Keys(key), items[key])
    ensures forall k :: k in order + [key] <==> k in order || k == key
  {
    assert (order + [key])[..|order|] == order;
  }

  method BatchUpdate(data: PyDict, secrets: map<string, Cell>) returns (ghost order: seq<string>)
    requires data.Valid() && Bringable(secrets, data)
    modifies data.Repr, Brought(secrets)
    ensures forall key :: key in order <==> key in secrets
    ensures data.Valid() && forall o | o in data.Repr :: o in old(data.Repr) || fresh(o) || o in old(Brought(secrets))
    ensures data.Tree == SetAll(old(data.Tree), order, old(Contents(secrets)))
  {
    order := [];
    var todo := secrets.Keys;
    ghost var values, brought := Contents(secrets), Brought(secrets);
    AllPending(secrets, data);
    while todo != {}
      invariant todo <= secrets.Keys && Pending(secrets, todo, values, brought, data)
      invariant forall key :: key in order <==> key in secrets.Keys - todo
      invariant data.Valid() && forall o | o in data.Repr :: o in old(data.Repr) || fresh(o) || o in brought
      invariant data.Tree == SetAll(old(data.Tree), order, values)
      decreases todo
    {
      var key :| key in todo;
      WriteOne(data, secrets, key, todo, values, brought);
      OneWritten(old(data.Tree), order, key, values);
      order, todo := order + [key], todo - {key};
    }
  }

  /** The lookup a consumer makes: the text of a scalar at the dotted path, nothing for a container or a null. */
  method GetSecretByPath(config: Value, path: string, text: Value -> string) returns (r: Option<string>)
    ensures var leaf := Resolve(config, Keys(path));
            r == if leaf.Some? && !leaf.value.List? && !leaf.value.Null? then Some(text(leaf.value)) else None
  {
    var keys, current, i := Keys(path), config, 0;
    while i < |keys|
      invariant 0 <= i <= |keys|
      invariant Get(config, keys) == Get(current, keys[i..])
    {
      if !current.Map? || keys[i] !in current.m {
        return None;
      }
      current, i := current.m[keys[i]], i + 1;
    }
    assert keys[i..] == [];
    r := if current.Map? || current.List? || current.Null? then None else Some(text(current));
  }

  /** Writes whose paths do not run through one another land side by side, whatever their order. */
  lemma {:induction false} SetAllResolves(order: seq<string>, items: map<string, Value>, q: Path)
    requires forall key | key in order :: key in items && !items[key].Map?
    requires forall a, b | a in order && b in order :: !(Keys(a) < Keys(b))
    ensures forall key | key in order && Keys(key) == q :: Resolve(SetAll(EMPTY, order, items), q) == Some(items[key])
    ensures (forall key | key in order :: Keys(key) != q) ==> Resolve(SetAll(EMPTY, order, items), q) == None
    decreases |order|
  {
    if order != [] {
      var last, init := order[|order| - 1], order[..|order| - 1];
      assert forall key :: key in order <==> key in init || key == last;
      SetAllResolves(init, items, q);
      SetAtResolves(SetAll(EMPTY, init, items), Keys(last), items[last], q);
      forall key | key in order && Keys(key) == Keys(last) ensures key == last {
        JoinSplit(key, DOT);
        JoinSplit(last, DOT);
      }
    }
  }

  lemma {:induction false} SetAllNoEmpty(order: seq<string>, items: map<string, Value>)
    requires forall key | key in order :: key in items && !items[key].Map?
    ensures NoEmpty(SetAll(EMPTY, order, items))
    decreases |order|
  {
    if order != [] {
      var last, init := order[|order| - 1], order[..|order| - 1];
      SetAllNoEmpty(init, items);
      SetAtNoEmpty(SetAll(EMPTY, init, items), Keys(last), items[last]);
    }
  }

  // ---- the round trip, and exactly when it holds ----

  predicate DotFree(v: Value) {
    v.Map? ==> forall k | k in v.m :: DOT !in k && DotFree(v.m[k])
  }

  /** The keys dotted paths can carry: none has a dot, and the empty one holds no mapping at the top. */
  predicate Faithful(t: Value)
    requires t.Map?
  {
    DotFree(t) && ("" in t.m ==> !t.m[""].Map?)
  }

  lemma {:induction false} DotFreePath(t: Value, p: Path)
    requires DotFree(t) && Resolve(t, p).Some?
    ensures forall k | k in p :: DOT !in k
    decreases |p|
  {
    if p != [] {
      DotFreePath(t.m[p[0]], p[1..]);
      assert p == [p[0]] + p[1..];
    }
  }

  lemma {:induction false} SetAtDotFree(t: Value, keys: Path, v: Value)
    requires DotFree(t) && keys != [] && !v.Map? && forall k | k in keys :: DOT !in k
    ensures DotFree(SetAt(t, keys, v))
    decreases |keys|
  {
    if |keys| > 1 {
      SetAtDotFree(Nest(t, keys[0]), keys[1..], v);
    }
  }

  /** Whatever is written through split keys has the shape split keys can give. */
  lemma {:induction false} SetAllFaithful(order: seq<string>, items: map<string, Value>)
    requires forall key | key in order :: key in items && !items[key].Map?
    requires forall key | key in order :: |Keys(key)| == 1 || Keys(key)[0] != ""
    ensures Faithful(SetAll(EMPTY, order, items))
    decreases |order|
  {
    if order != [] {
      var last, init := order[|order| - 1], order[..|order| - 1];
      SetAllFaithful(init, items);
      SetAtDotFree(SetAll(EMPTY, init, items), Keys(last), items[last]);
    }
  }

  lemma {:induction false} SetAllDotFree(order: seq<string>, items: map<string, Value>)
    requires forall key | key in order :: key in items && !items[key].Map?
    ensures DotFree(SetAll(EMPTY, order, items))
    decreases |order|
  {
    if order != [] {
      var last, init := order[|order| - 1], order[..|order| - 1];
      SetAllDotFree(init, items);
      SetAtDotFree(SetAll(EMPTY, init, items), Keys(last), items[last]);
    }
  }

  /** A flattened key never starts with an empty piece followed by more. */
  lemma {:induction false} FlatPathHead(p: Path)
    requires p != [] && forall k | k in p :: DOT !in k
    ensures var keys := Keys(FlatPath("", p)); |keys| == 1 || keys[0] != ""
    decreases |p|
  {
    if |p| > 1 && p[0] == "" {
      FlatPathHead(p[1..]);
    } else {
      FlatPathJoins("", p);
      SplitJoin(p, DOT);
    }
  }

  /** When the round trip holds, a flattened key splits back into the path it came from. */
  lemma FlatPathSplits(t: Value, p: Path)
    requires t.Map? && Faithful(Prune(t)) && Resolve(t, p).Some?
    ensures p != [] && Keys(FlatPath("", p)) == p
  {
    var r := Prune(t);
    PruneResolves(t, p);
    DotFreePath(r, p);
    LeafHead(r, p);
    FlatPathJoins("", p);
    SplitJoin(p, DOT);
  }

  lemma LeafHead(v: Value, p: Path)
    requires v.Map? && Resolve(v, p).Some?
    ensures p != [] && p[0] in v.m && (|p| > 1 ==> v.m[p[0]].Map?)
  {
    assert Get(v, p) == Get(v.m[p[0]], p[1..]);
  }

  lemma {:induction false} LeavesApart(t: Value, p: Path, q: Path)
    requires Resolve(t, p).Some? && Resolve(t, q).Some?
    ensures !(p < q)
    decreases |p|
  {
    if p != [] && q != [] && p[0] == q[0] {
      PrefixTail(p, q);
      LeavesApart(t.m[p[0]], p[1..], q[1..]);
    }
  }

  /** Flattening and writing every dotted key into an empty file, in any order, rebuilds the pruned
      input exactly when dotted keys can name its paths. */
  lemma {:induction false} FlattenRoundTrip(t: Value, items: map<string, Value>, order: seq<string>)
    requires t.Map? && Flattened(t, "", items)
    requires forall key :: key in order <==> key in items
    ensures SetAll(EMPTY, order, items) == Prune(t) <==> Faithful(Prune(t))
  {
    var r := SetAll(EMPTY, order, items);
    forall key | key in items ensures !items[key].Map? {
    }
    SetAllDotFree(order, items);
    if r == Prune(t) {
      forall key | key in order ensures |Keys(key)| == 1 || Keys(key)[0] != "" {
        var p :| p != [] && FlatPath("", p) == key && Resolve(t, p) == Some(items[key]);
        PruneResolves(t, p);
        DotFreePath(Prune(t), p);
        FlatPathHead(p);
      }
      SetAllFaithful(order, items);
    }
    if Faithful(Prune(t)) {
      Rebuilds(t, items, order);
    }
  }

  lemma RebuildsAt(t: Value, items: map<string, Value>, order: seq<string>, q: Path)
    requires t.Map? && Flattened(t, "", items) && Faithful(Prune(t))
    requires forall key :: key in order <==> key in items
    requires forall key | key in order :: !items[key].Map? && Resolve(t, Keys(key)) == Some(items[key])
    ensures Resolve(SetAll(EMPTY, order, items), q) == Resolve(t, q)
  {
    forall a, b | a in order && b in order ensures !(Keys(a) < Keys(b)) {
      LeavesApart(t, Keys(a), Keys(b));
    }
    SetAllResolves(order, items, q);
    if Resolve(t, q).Some? {
      FlatPathSplits(t, q);
      LeafHead(t, q);
      assert FlatPath("", q) in order;
    }
  }

  lemma Rebuilds(t: Value, items: map<string, Value>, order: seq<string>)
    requires t.Map? && Flattened(t, "", items) && Faithful(Prune(t))
    requires forall key :: key in order <==> key in items
    ensures SetAll(EMPTY, order, items) == Prune(t)
  {
    forall key | key in order ensures !items[key].Map? && Resolve(t, Keys(key)) == Some(items[key]) {
      var p :| p != [] && FlatPath("", p) == key && Resolve(t, p) == Some(items[key]);
      FlatPathSplits(t, p);
    }
    forall q ensures Resolve(SetAll(EMPTY, order, items), q) == Resolve(Prune(t), q) {
      RebuildsAt(t, items, order, q);
      PruneResolves(t, q);
    }
    SetAllNoEmpty(order, items);
    PruneLeavesNoEmpty(t);
    LeavesDecide(SetAll(EMPTY, order, items), Prune(t));
  }

  /** A key with a dot comes back as two. */
  lemma DottedKeyLost(items: map<string, Value>, order: seq<string>)
    requires Flattened(Map(map["a.b" := Int(1)]), "", items) && forall key :: key in order <==> key in items
    ensures SetAll(EMPTY, order, items) != Prune(Map(map["a.b" := Int(1)]))
  {
    var t := Map(map["a.b" := Int(1)]);
    FlattenRoundTrip(t, items, order);
    assert Prune(t.m["a.b"]) == Int(1) && "a.b" in Prune(t).m;
    assert "a.b"[1] == DOT;
  }
}
