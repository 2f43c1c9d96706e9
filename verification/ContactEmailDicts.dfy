/** configuration.py `_inject_contact_email_derivations`, on the configuration's own dictionaries. */
module ContactEmailDicts {
  import opened Values
  import opened PyDicts
  import opened Configuration
  import opened ContactEmail
  import opened Extraction
  import opened ExtractionFiles

  /** Python truth of what a slot holds. */
  function CellTruthy(cell: Cell): bool
    reads if cell.Ref? then {cell.d} else {}
  {
    if cell.Ref? then cell.d.items != map[] else Truthy(cell.v)
  }

  /** `d.get(k0, {}).get(k1, {})...get(kn)`: the outer None is the AttributeError. */
  method Chain(d: PyDict, keys: Path) returns (r: Option<Option<Cell>>)
    requires d.Valid() && keys != []
    ensures r.Some? <==> GetChain(d.Tree, keys).Some?
    ensures r.Some? ==> (r.value.Some? <==> GetChain(d.Tree, keys).value.Some?)
    ensures r.Some? && r.value.Some? ==> Reads(r.value.value) == GetChain(d.Tree, keys).value.value
    ensures r.Some? && r.value.Some? && r.value.value.Ref? ==> r.value.value.d.Valid()
    ensures r.Some? && r.value.Some? && r.value.value.Atom? ==> !r.value.value.v.Map?
  {
    var current, i := d, 0;
    assert keys[0..] == keys;
    while i < |keys| - 1
      invariant 0 <= i < |keys| && current.Valid()
      invariant GetChain(d.Tree, keys) == GetChain(current.Tree, keys[i..])
    {
      assert Slots(current.items, current.Tree.m, current.Repr - {current});
      assert keys[i..][1..] == keys[i + 1..];
      if keys[i] !in current.items {
        return Some(None);
      }
      if current.items[keys[i]].Atom? {
        return None;
      }
      current, i := current.items[keys[i]].d, i + 1;
    }
    assert Slots(current.items, current.Tree.m, current.Repr - {current});
    r := Some(if keys[i] in current.items then Some(current.items[keys[i]]) else None);
  }

  /** A fill that succeeds leaves what is true, and otherwise writes the address at its place. */
  lemma {:induction false} FillIsSetAt(t: Value, keys: Path, email: Value)
    requires keys != [] && Fill(t, keys, email).Some?
    ensures Fill(t, keys, email).value ==
            if Get(t, keys).Some? && Truthy(Get(t, keys).value) then t else SetAt(t, keys, email)
    decreases |keys|
  {
    if |keys| == 1 {
      assert keys[1..] == [];
    } else {
      FillIsSetAt(Child(t, keys[0]), keys[1..], email);
      if keys[0] in t.m {
        assert t.m[keys[0] := t.m[keys[0]]] == t.m;
      } else {
        assert Get(EMPTY, keys[1..]) == None;
      }
    }
  }

  lemma FillNext(t: Value, keys: Path, i: nat, email: Value)
    requires t.Map? && i + 1 < |keys|
    ensures keys[i] in t.m && !t.m[keys[i]].Map? ==> Fill(t, keys[i..], email) == None
    ensures !(keys[i] in t.m && !t.m[keys[i]].Map?) ==>
              (Fill(t, keys[i..], email).Some? <==> Fill(Nest(t, keys[i]), keys[i + 1..], email).Some?)
    ensures Get(t, keys[i..]) == Get(Nest(t, keys[i]), keys[i + 1..])
  {
    assert keys[i..][1..] == keys[i + 1..];
    if keys[i] in t.m && !t.m[keys[i]].Map? {
      assert Get(t.m[keys[i]], keys[i + 1..]) == None && Get(EMPTY, keys[i + 1..]) == None;
    }
    if keys[i] !in t.m {
      assert Get(EMPTY, keys[i + 1..]) == None;
    }
  }

  /** `d.setdefault(k0, {}).setdefault(k1, {})...`, which has no `setdefault` on a leaf. */
  method Setdefaults(data: PyDict, keys: Path, ghost email: Value)
    returns (ok: bool, current: PyDict, ghost stops: seq<Stop>, ghost all: set<PyDict>)
    requires data.Valid() && keys != []
    modifies data.Repr
    ensures ok <==> Fill(old(data.Tree), keys, email).Some?
    ensures ok ==> current.Valid() && |stops| == |keys| - 1
    ensures ok ==> forall s | s in stops :: Passed(s)
    ensures ok ==> Walked(keys, stops, data, current, current.Repr, current.Tree, all, old(data.Tree))
    ensures ok ==> forall o | o in all :: o in old(data.Repr) || fresh(o)
    ensures ok ==> Get(old(data.Tree), keys) == Get(current.Tree, [keys[|keys| - 1]])
  {
    current, stops, all := data, [], data.Repr;
    var i := 0;
    ghost var t := data.Tree;
    assert keys[0..] == keys;
    while i < |keys| - 1
      invariant 0 <= i == |stops| < |keys| && current.Valid()
      invariant forall s | s in stops :: Passed(s)
      invariant Walked(keys, stops, data, current, current.Repr, current.Tree, all, t)
      invariant forall o | o in all :: o in old(data.Repr) || fresh(o)
      invariant Fill(t, keys, email).Some? <==> Fill(current.Tree, keys[i..], email).Some?
      invariant Get(t, keys) == Get(current.Tree, keys[i..])
    {
      FillNext(current.Tree, keys, i, email);
      LeafSlot(current, keys[i]);
      if keys[i] in current.items && current.items[keys[i]].Atom? {
        ok := false;
        return;
      }
      ghost var stops';
      current, stops' := WalkOn(data, keys, i, current, stops, all, t);
      stops, all := stops', all + current.Repr;
      i := i + 1;
    }
    assert keys[i..] == [keys[|keys| - 1]];
    ok := true;
  }

  lemma LeafSlot(d: PyDict, key: string)
    requires d.Valid()
    ensures key in d.items ==> key in d.Tree.m && (d.items[key].Atom? <==> !d.Tree.m[key].Map?)
    ensures key in d.items && d.items[key].Atom? ==> d.Tree.m[key] == d.items[key].v
    ensures key in d.items && d.items[key].Ref? ==> d.Tree.m[key] == d.items[key].d.Tree
  {
    assert Slots(d.items, d.Tree.m, d.Repr - {d});
  }

  /** The slot that takes the address; a mapping is copied. */
  method Slot(email: Value) returns (cell: Cell)
    ensures Reads(cell) == email && fresh(Below(cell))
    ensures if email.Map? then cell.Ref? && cell.d.Valid() else cell.Atom?
  {
    if email.Map? {
      var d := Load(email);
      cell := Ref(d);
    } else {
      cell := Atom(email);
    }
  }

  /** `if not d.get(key): d[key] = email`, at the end of a chain of `setdefault`. */
  method FillAt(data: PyDict, keys: Path, email: Value) returns (ok: bool)
    requires data.Valid() && keys != []
    modifies data.Repr
    ensures ok <==> Fill(old(data.Tree), keys, email).Some?
    ensures ok ==> data.Valid() && forall o | o in data.Repr :: o in old(data.Repr) || fresh(o)
    ensures ok ==> data.Tree == Fill(old(data.Tree), keys, email).value
  {
    ghost var t := data.Tree;
    var current;
    ghost var stops, all;
    ok, current, stops, all := Setdefaults(data, keys, email);
    if !ok {
      return;
    }
    FillIsSetAt(t, keys, email);
    var last := keys[|keys| - 1];
    ghost var tree := current.Tree;
    TrailClear(stops, keys, data, current, current.Repr, tree);
    AtEnd(current, keys);
    if last in current.items && CellTruthy(current.items[last]) {
      SetAtSame(t, keys);
      RebuiltSetAt(stops, keys, data, current, current.Repr, tree, tree.m[last]);
      SameSlot(tree.m, last);
      SettleAll(stops, keys, data, current, tree, all);
    } else {
      var cell := Slot(email);
      ghost var below := Below(cell);
      WritesAtEnd(stops, keys, data, current, current.Repr, tree, email, below);
      PutCell(current, last, cell, stops);
      SettleAll(stops, keys, data, current, tree, all + below);
    }
  }

  lemma SameSlot(m: map<string, Value>, key: string)
    requires key in m
    ensures m[key := m[key]] == m
  {
  }

  /** What the last dictionary of a walk holds under the last key, and what writing there does. */
  lemma AtEnd(d: PyDict, keys: Path)
    requires d.Valid() && keys != []
    ensures var last := keys[|keys| - 1];
            && keys[|keys| - 1..] == [last]
            && (forall v :: SetAt(d.Tree, [last], v) == Map(d.Tree.m[last := v]))
            && Get(d.Tree, [last]) == (if last in d.items then Some(d.Tree.m[last]) else None)
            && (last in d.items ==> CellTruthy(d.items[last]) == Truthy(d.Tree.m[last]))
  {
    var last := keys[|keys| - 1];
    LeafSlot(d, last);
    assert [last][1..] == [];
    if last in d.items && d.items[last].Ref? {
      assert Slots(d.items, d.Tree.m, d.Repr - {d});
    }
  }

  /** The three derived places, in the order of the source; stops at the first exception. */
  method FillPlaces(config: PyDict, email: Value) returns (ok: bool)
    requires config.Valid()
    modifies config.Repr
    ensures var filled := Places(old(config.Tree), email);
            && (ok <==> filled.Some?)
            && (ok ==> config.Valid() && config.Tree == filled.value)
    ensures ok ==> forall o | o in config.Repr :: o in old(config.Repr) || fresh(o)
  {
    ok := FillAt(config, ACME, email);
    if ok {
      ok := FillAt(config, KUMA, email);
    }
    if ok {
      ok := FillAt(config, GITEA, email);
    }
  }

  /** What `for user in ...` walks through; None when it cannot. */
  method UsersAt(config: PyDict, keys: Path) returns (users: Option<seq<Value>>)
    requires config.Valid() && keys != []
    ensures users == var found := GetChain(config.Tree, keys); if found.None? then None else UsersIn(found.value)
  {
    var found := Chain(config, keys);
    if found.None? {
      return None;
    }
    if found.value.None? {
      return Some([]);
    }
    match found.value.value
    case Atom(v) => users := UsersIn(Some(v));
    case Ref(d) =>
      assert d.Tree.Map? && (d.items == map[] <==> d.Tree.m == map[]);
      users := if d.items == map[] then Some([]) else None;
  }

  /** The declared identities; a user that is filled is filled in the list the configuration holds. */
  method FillIdentities(config: PyDict, email: Value) returns (ok: bool)
    requires config.Valid()
    modifies config.Repr
    ensures ok <==> FillAllUsers(old(config.Tree), email).Some?
    ensures ok ==> config.Valid() && config.Tree == FillAllUsers(old(config.Tree), email).value
  {
    var users := UsersAt(config, USERS);
    if users.None? {
      return false;
    }
    var filled := FillEach(users.value, email);
    if filled.None? {
      return false;
    }
    if users.value != [] {
      SetNestedKey(config, USERS, Atom(List(filled.value)));
    }
    ok := true;
  }

  /** `config.get("apps", {}).get("contact", {}).get("email")`, and so on. */
  method ValueAt(config: PyDict, keys: Path) returns (r: Option<Option<Value>>)
    requires config.Valid() && keys != []
    ensures r == GetChain(config.Tree, keys)
  {
    var found := Chain(config, keys);
    if found.None? {
      return None;
    }
    if found.value.None? {
      return Some(None);
    }
    var v;
    if found.value.value.Ref? {
      v := Dump(found.value.value.d);
    } else {
      v := found.value.value.v;
    }
    r := Some(Some(v));
  }

  method InjectContactEmail(config: PyDict) returns (ok: bool)
    requires config.Valid()
    modifies config.Repr
    ensures ok <==> Inject(old(config.Tree)).Some?
    ensures ok ==> config.Valid() && config.Tree == Inject(old(config.Tree)).value
  {
    var email := ValueAt(config, SOURCE);
    ok := InjectFound(config, email);
  }

  method InjectFound(config: PyDict, email: Option<Option<Value>>) returns (ok: bool)
    requires config.Valid()
    modifies config.Repr
    ensures ok <==> InjectFrom(old(config.Tree), email).Some?
    ensures ok ==> config.Valid() && config.Tree == InjectFrom(old(config.Tree), email).value
  {
    if email.None? {
      return false;
    }
    if email.value.None? || !Truthy(email.value.value) {
      return true;
    }
    ok := FillPlaces(config, email.value.value);
    if ok {
      ok := FillIdentities(config, email.value.value);
    }
  }

  /** `get_merged_config`: the four layers merged in place into the first, then the fill. */
  method GetMergedConfig(config: PyDict, env: PyDict, commonEnc: PyDict, envEnc: PyDict) returns (ok: bool)
    requires config.Valid() && env.Valid() && commonEnc.Valid() && envEnc.Valid()
    requires config.Repr !! env.Repr && config.Repr !! commonEnc.Repr && config.Repr !! envEnc.Repr
    modifies config.Repr
    ensures var merged := Inject(Config(old(config.Tree), old(env.Tree), old(commonEnc.Tree), old(envEnc.Tree)));
            (ok <==> merged.Some?) && (ok ==> config.Valid() && config.Tree == merged.value)
  {
    ConfigNested(config.Tree, env.Tree, commonEnc.Tree, envEnc.Tree);
    DeepUpdate(config, env);
    DeepUpdate(config, commonEnc);
    DeepUpdate(config, envEnc);
    ok := InjectContactEmail(config);
  }
}
