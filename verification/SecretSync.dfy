/** gcp_secret_sync.py: delivering secrets one way, a new version only when the payload differs. */
module SecretSync {
  import opened Values
  import opened SecretStore
  import opened Selection
  import opened Sequences

  datatype Item = Item(id: string, value: string)

  datatype Action = Created | Updated | Unchanged | Failed

  /** What `text=True` makes of a program's output: `\r\n` and `\r` read as `\n`. */
  function Translated(s: string): (r: string)
    ensures '\r' !in r
  {
    if s == "" then ""
    else if s[0] != '\r' then [s[0]] + Translated(s[1..])
    else if |s| > 1 && s[1] == '\n' then "\n" + Translated(s[2..])
    else "\n" + Translated(s[1..])
  }

  lemma {:induction false} TranslatedSame(s: string)
    ensures Translated(s) == s <==> '\r' !in s
  {
    if '\r' !in s && s != "" {
      TranslatedSame(s[1..]);
    }
  }

  /** A carriage return, with the newline after it if there is one, reads as a newline. */
  lemma {:induction false} TranslatedReturn(before: string, after: string)
    requires '\r' !in before
    ensures Translated(before + "\r\n" + after) == before + "\n" + Translated(after)
    ensures (after == "" || after[0] != '\n') ==> Translated(before + "\r" + after) == before + "\n" + Translated(after)
  {
    var one, two := before + "\r" + after, before + "\r\n" + after;
    if before == "" {
      assert two[2..] == after && one[1..] == after;
    } else {
      TranslatedReturn(before[1..], after);
      assert one[1..] == before[1..] + "\r" + after && two[1..] == before[1..] + "\r\n" + after;
      assert before == [before[0]] + before[1..];
    }
  }

  function VersionsOf(secrets: map<string, Versions>, id: string): Versions {
    if id in secrets then secrets[id] else []
  }

  /** What the comparison sees: the newest version, translated. */
  function Seen(secrets: map<string, Versions>, id: string): Option<string> {
    match Latest(VersionsOf(secrets, id)) case None => None case Some(value) => Some(Translated(value))
  }

  /** An enabled version is gone only once a newer one is enabled. */
  ghost predicate NeverDark(vs: Versions, vs': Versions) {
    forall i | 0 <= i < |vs| && vs[i].state.Enabled? ::
      exists j | i <= j < |vs'| :: vs'[j].state.Enabled? && (j == i ==> vs'[j] == vs[j])
  }

  /** Every enabled version but the newest, newest first. */
  function Superseded(vs: Versions): seq<nat> {
    if EnabledAt(vs) == [] then [] else EnabledAt(vs)[1..]
  }

  function Members(s: seq<nat>): set<nat> {
    set i | i in s
  }

  lemma SupersededBy(vs: Versions, i: nat)
    ensures i in Superseded(vs) <==> i < |vs| && vs[i].state.Enabled? && i != EnabledAt(vs)[0]
    ensures i in Superseded(vs) ==> i < EnabledAt(vs)[0]
    ensures EnabledAt(vs) != [] ==> EnabledAt(vs)[0] < |vs| && vs[EnabledAt(vs)[0]].state.Enabled?
  {
    var at := EnabledAt(vs);
    if at != [] {
      assert at[0] in at && at == [at[0]] + at[1..];
      if i in at[1..] {
        var k :| 0 <= k < |at[1..]| && at[1..][k] == i;
        assert at[k + 1] == i;
      }
    } else {
      assert i < |vs| && vs[i].state.Enabled? ==> i in at;
    }
  }

  /** Some of the versions at `gone` were destroyed; with `all`, every one. */
  ghost predicate Thinned(vs: Versions, vs': Versions, gone: set<nat>, all: bool) {
    && |vs'| == |vs|
    && (forall i | 0 <= i < |vs| :: vs'[i] == vs[i] || (i in gone && vs'[i] == vs[i].(state := Destroyed)))
    && (all ==> forall i | 0 <= i < |vs| && i in gone :: vs'[i] == vs[i].(state := Destroyed))
  }

  lemma ThinnedStep(vs: Versions, a: Versions, b: Versions, gone: set<nat>, all: bool, i: nat, ok: bool)
    requires Thinned(vs, a, gone, all) && i < |vs|
    requires b == a[i := a[i].(state := Destroyed)] || (b == a && !ok)
    ensures Thinned(vs, b, gone + {i}, all && ok)
  {
  }

  lemma ThinnedIsCleaned(vs: Versions, vs': Versions, all: bool)
    requires Thinned(vs, vs', Members(Superseded(vs)), all)
    ensures Cleaned(vs, vs') && (all ==> EnabledCount(vs') <= 1)
  {
    forall i: nat | i < |vs| && vs'[i] != vs[i]
      ensures vs[i].state.Enabled? && exists j | i < j < |vs| :: vs'[j] == vs[j] && vs[j].state.Enabled?
    {
      SupersededBy(vs, i);
      var newest := EnabledAt(vs)[0];
      SupersededBy(vs, newest);
      assert vs'[newest] == vs[newest];
    }
    if all {
      var only := if EnabledAt(vs) == [] then 0 else EnabledAt(vs)[0];
      forall i: nat | i < |vs'| && i != only ensures !vs'[i].state.Enabled? {
        SupersededBy(vs, i);
      }
      CountAtMostOne(vs', only);
    }
  }

  method DestroyEach(store: Store, id: string, gone: seq<nat>) returns (ghost all: bool)
    requires id in store.secrets && forall i | i in gone :: i < |store.secrets[id]|
    modifies store`secrets, store`failures
    ensures store.OnlyAt(id, old(store.secrets)) && id in store.secrets
    ensures Thinned(old(store.secrets[id]), store.secrets[id], Members(gone), all)
    ensures store.failures >= old(store.failures) && (all <==> store.failures == old(store.failures))
    ensures !store.flaky ==> all
  {
    all := true;
    ghost var vs, done := store.secrets[id], {};
    for k := 0 to |gone|
      invariant store.OnlyAt(id, old(store.secrets)) && id in store.secrets
      invariant done == Members(gone[..k]) && Thinned(vs, store.secrets[id], done, all)
      invariant store.failures >= old(store.failures) && (all <==> store.failures == old(store.failures))
      invariant !store.flaky ==> all
    {
      assert gone[k] in gone;
      ghost var before := store.secrets[id];
      var ok := store.Destroy(id, gone[k]);
      ThinnedStep(vs, before, store.secrets[id], done, all, gone[k], ok);
      TakeNext(gone, k);
      done := done + {gone[k]};
      all := all && ok;
    }
    TakeAll(gone);
  }

  /** `_destroy_superseded`: every enabled version but the newest; what cannot be listed or destroyed stays. */
  method DestroySuperseded(store: Store, id: string) returns (ghost complete: bool)
    requires id in store.secrets
    modifies store`secrets, store`failures
    ensures store.OnlyAt(id, old(store.secrets)) && id in store.secrets
    ensures Cleaned(old(store.secrets[id]), store.secrets[id])
    ensures complete ==> EnabledCount(store.secrets[id]) <= 1
    ensures store.failures >= old(store.failures) && (complete <==> store.failures == old(store.failures))
    ensures !store.flaky ==> complete
  {
    var listed := store.ListEnabled(id);
    if listed.None? {
      return false;
    }
    ghost var vs := store.secrets[id];
    forall i | i in Superseded(vs) ensures i < |vs| {
      SupersededBy(vs, i);
    }
    complete := DestroyEach(store, id, if listed.value == [] then [] else listed.value[1..]);
    ThinnedIsCleaned(vs, store.secrets[id], complete);
  }

  /** How one item's run left a secret: nothing added, or one version added and older ones perhaps destroyed. */
  ghost predicate Advanced(vs: Versions, vs': Versions, value: string, added: bool) {
    if added then Cleaned(vs + [Version(value, Enabled)], vs') else vs' == vs
  }

  lemma AdvancedCounts(vs: Versions, vs': Versions, value: string, added: bool)
    requires Advanced(vs, vs', value, added)
    ensures EnabledCount(vs') <= EnabledCount(vs) + 1
    ensures NeverDark(vs, vs') && (added ==> Latest(vs') == Some(value))
  {
    if added {
      var grown := vs + [Version(value, Enabled)];
      CountAppend(vs, Version(value, Enabled));
      CleanedCount(grown, vs');
      assert grown[|vs|] == vs'[|vs|];
      forall i | 0 <= i < |vs| && vs[i].state.Enabled?
        ensures exists j | i <= j < |vs'| :: vs'[j].state.Enabled? && (j == i ==> vs'[j] == vs[j])
      {
        assert grown[i] == vs[i];
        assert vs'[|vs|].state.Enabled?;
      }
    }
  }

  lemma CleanedKeepsNewest(vs: Versions, vs': Versions)
    requires Cleaned(vs, vs')
    ensures Latest(vs') == Latest(vs)
  {
  }

  /** What running one item did to the store: `before` to `after`. */
  ghost predicate Did(before: map<string, Versions>, after: map<string, Versions>, item: Item, dryRun: bool,
        flaky: bool, action: Action) {
    && (forall id | id != item.id :: VersionsOf(after, id) == VersionsOf(before, id))
    && (dryRun || action.Unchanged? ==> after == before)
    && (action.Unchanged? ==> Seen(after, item.id) == Some(item.value))
    && ((action.Updated? || action.Created?) && !dryRun ==> Latest(VersionsOf(after, item.id)) == Some(item.value))
    && (action.Updated? ==> item.id in before) && (dryRun ==> !action.Failed?)
    && (action.Created? && !(flaky && dryRun) ==> item.id !in before)
    && (!flaky ==> !action.Failed? && (action.Unchanged? <==> Seen(before, item.id) == Some(item.value)))
  }

  /** `versions add`, then the cleanup. */
  method AddAndClean(store: Store, item: Item) returns (ok: bool, ghost added: bool, ghost clean: bool)
    requires item.id in store.secrets
    modifies store`secrets, store`failures, store`refusals
    ensures store.OnlyAt(item.id, old(store.secrets)) && item.id in store.secrets
    ensures Advanced(old(store.secrets[item.id]), store.secrets[item.id], item.value, added)
    ensures added && clean ==> EnabledCount(store.secrets[item.id]) <= 1
    ensures ok ==> Latest(store.secrets[item.id]) == Some(item.value)
    ensures store.failures >= old(store.failures)
    ensures !ok || !clean ==> store.failures > old(store.failures)
    ensures store.refusals == old(store.refusals) + if ok then 0 else 1
    ensures !store.flaky ==> ok && clean
  {
    ghost var vs := store.secrets[item.id];
    ok := store.AddVersion(item.id, item.value);
    added := store.secrets[item.id] != vs;
    clean := !added;
    if ok {
      ghost var grown := store.secrets[item.id];
      clean := DestroySuperseded(store, item.id);
      CleanedKeepsNewest(grown, store.secrets[item.id]);
    }
  }

  /** `sync_item`.  `clean` tells whether whatever it added, the older versions were all destroyed. */
  method SyncItem(store: Store, item: Item, dryRun: bool) returns (action: Action, ghost added: bool, ghost clean: bool)
    modifies store`secrets, store`failures, store`refusals
    ensures store.OnlyAt(item.id, old(store.secrets))
    ensures Did(old(store.secrets), store.secrets, item, dryRun, store.flaky, action)
    ensures Advanced(VersionsOf(old(store.secrets), item.id), VersionsOf(store.secrets, item.id), item.value, added)
    ensures added && clean ==> EnabledCount(VersionsOf(store.secrets, item.id)) <= 1
    // nothing is called a failure, and no old version stays, but for a call that failed
    ensures store.failures >= old(store.failures)
    ensures action.Failed? || !clean ==> store.failures > old(store.failures)
    // and an item fails exactly when the call that was to write it does
    ensures store.refusals == old(store.refusals) + if action.Failed? then 1 else 0
    ensures !store.flaky ==> clean
  {
    added, clean := false, true;
    var exists' := store.Describe(item.id);
    if exists' {
      var current := store.AccessLatest(item.id);
      if current.Some? && Translated(current.value) == item.value {
        return Unchanged, false, true;
      }
      if dryRun {
        return Updated, false, true;
      }
      var ok;
      ok, added, clean := AddAndClean(store, item);
      return if ok then Updated else Failed, added, clean;
    }
    if dryRun {
      return Created, false, true;
    }
    var ok := store.Create(item.id, item.value);
    added := item.id in store.secrets && item.id !in old(store.secrets);
    if added {
      assert [] + [Version(item.value, Enabled)] == [Version(item.value, Enabled)];
      assert EnabledCount([Version(item.value, Enabled)][1..]) == 0;
    }
    return if ok then Created else Failed, added, true;
  }

  // ---- every item ----

  /** Items that share an id are the same item. */
  predicate OneValue(items: seq<Item>) {
    forall a, b | a in items && b in items && a.id == b.id :: a == b
  }

  /** The newest version is the item's value, or reads as it. */
  ghost predicate Arrived(secrets: map<string, Versions>, item: Item) {
    Latest(VersionsOf(secrets, item.id)) == Some(item.value) || Seen(secrets, item.id) == Some(item.value)
  }

  ghost predicate AllUnchanged(actions: seq<Action>) {
    forall k | 0 <= k < |actions| :: actions[k].Unchanged?
  }

  ghost predicate AllSeen(secrets: map<string, Versions>, items: seq<Item>) {
    forall item | item in items :: Seen(secrets, item.id) == Some(item.value)
  }

  lemma NeverDarkTwice(a: Versions, b: Versions, c: Versions)
    requires NeverDark(a, b) && NeverDark(b, c)
    ensures NeverDark(a, c)
  {
  }

  /** What running `items` one after another did. */
  ghost predicate DidAll(first: map<string, Versions>, now: map<string, Versions>, items: seq<Item>, dryRun: bool,
        flaky: bool, actions: seq<Action>) {
    && |actions| == |items|
    && (dryRun || AllUnchanged(actions) ==> now == first)
    && (!dryRun && OneValue(items) && Failed !in actions ==> forall item | item in items :: Arrived(now, item))
    && (!flaky ==> Failed !in actions && (AllUnchanged(actions) <==> AllSeen(first, items)))
  }

  lemma DidOneMore(first: map<string, Versions>, before: map<string, Versions>, after: map<string, Versions>,
      items: seq<Item>, item: Item, dryRun: bool, flaky: bool, actions: seq<Action>, action: Action)
    requires DidAll(first, before, items, dryRun, flaky, actions) && Did(before, after, item, dryRun, flaky, action)
    ensures DidAll(first, after, items + [item], dryRun, flaky, actions + [action])
  {
    assert AllUnchanged(actions + [action]) <==> AllUnchanged(actions) && action.Unchanged? by {
      assert (actions + [action])[|actions|] == action;
      assert forall k | 0 <= k < |actions| :: (actions + [action])[k] == actions[k];
    }
    assert item in items + [item] && forall a | a in items :: a in items + [item];
    if !dryRun && OneValue(items + [item]) && Failed !in actions + [action] {
      assert OneValue(items);
      forall a | a in items + [item] ensures Arrived(after, a) {
        if a.id == item.id {
          assert a == item;
        }
      }
    }
  }

  /** Every item is attempted, whatever became of those before it: each failure has a failed call of its own. */
  method SyncItems(store: Store, items: seq<Item>, dryRun: bool) returns (actions: seq<Action>)
    modifies store`secrets, store`failures, store`refusals
    ensures DidAll(old(store.secrets), store.secrets, items, dryRun, store.flaky, actions)
    ensures store.failures >= old(store.failures) + multiset(actions)[Failed]
    ensures store.refusals == old(store.refusals) + multiset(actions)[Failed]
    ensures forall id :: NeverDark(VersionsOf(old(store.secrets), id), VersionsOf(store.secrets, id))
  {
    actions := [];
    for i := 0 to |items|
      invariant DidAll(old(store.secrets), store.secrets, items[..i], dryRun, store.flaky, actions)
      invariant store.failures >= old(store.failures) + multiset(actions)[Failed]
      invariant store.refusals == old(store.refusals) + multiset(actions)[Failed]
      invariant forall id :: NeverDark(VersionsOf(old(store.secrets), id), VersionsOf(store.secrets, id))
    {
      ghost var before := store.secrets;
      var action;
      ghost var added, clean;
      action, added, clean := SyncItem(store, items[i], dryRun);
      DidOneMore(old(store.secrets), before, store.secrets, items[..i], items[i], dryRun, store.flaky, actions, action);
      Forward(old(store.secrets), before, store.secrets, items[i], added);
      TakeNext(items, i);
      actions := actions + [action];
    }
    TakeAll(items);
  }

  lemma Forward(first: map<string, Versions>, before: map<string, Versions>, after: map<string, Versions>, item: Item,
        added: bool)
    requires forall id :: NeverDark(VersionsOf(first, id), VersionsOf(before, id))
    requires forall id | id != item.id :: VersionsOf(after, id) == VersionsOf(before, id)
    requires Advanced(VersionsOf(before, item.id), VersionsOf(after, item.id), item.value, added)
    ensures forall id :: NeverDark(VersionsOf(first, id), VersionsOf(after, id))
  {
    AdvancedCounts(VersionsOf(before, item.id), VersionsOf(after, item.id), item.value, added);
    NeverDarkTwice(VersionsOf(first, item.id), VersionsOf(before, item.id), VersionsOf(after, item.id));
  }

  // ---- the whole sync ----

  predicate Present(item: Item) { item.value != "" }

  predicate Read(spoke: (string, Option<string>)) { spoke.1.Some? }

  function AsItem(spoke: (string, Option<string>)): Item
    requires spoke.1.Some?
  {
    Item(spoke.0, spoke.1.value)
  }

  function AsItems(spokes: seq<(string, Option<string>)>): seq<Item> {
    if spokes == [] then []
    else AsItems(spokes[..|spokes| - 1]) + if Read(spokes[|spokes| - 1]) then [AsItem(spokes[|spokes| - 1])] else []
  }

  /** What is delivered: catalog values that are not empty, then the spoke fields that could be read. */
  function Deliverable(catalog: seq<Item>, spokes: seq<(string, Option<string>)>): seq<Item> {
    Select(catalog, Present) + AsItems(spokes)
  }

  /** Outright: a catalog item is delivered if its value is not empty, a spoke field if it could be read, under the id
      that came with it. */
  lemma {:induction false} DeliverableIs(catalog: seq<Item>, spokes: seq<(string, Option<string>)>, id: string,
        value: string)
    ensures Item(id, value) in Deliverable(catalog, spokes) <==>
            (Item(id, value) in catalog && value != "") || (id, Some(value)) in spokes
  {
    SelectMembers(catalog, Present);
    AsItemsAre(spokes, id, value);
  }

  /** Catalog values first, then the spoke fields, each in the order given. */
  lemma {:induction false} DeliverableInOrder(a: seq<Item>, b: seq<Item>, s: seq<(string, Option<string>)>,
        t: seq<(string, Option<string>)>)
    ensures Deliverable(a + b, s + t) ==
            Deliverable(a, []) + Deliverable(b, []) + Deliverable([], s) + Deliverable([], t)
  {
    CatalogJoins(a, b);
    SpokesJoin(s, t);
  }

  lemma {:induction false} CatalogJoins(a: seq<Item>, b: seq<Item>)
    ensures Select(a + b, Present) == Select(a, Present) + Select(b, Present)
  {
    if a == [] {
      assert a + b == b;
    } else {
      assert (a + b)[1..] == a[1..] + b;
      CatalogJoins(a[1..], b);
    }
  }

  lemma {:induction false} SpokesJoin(s: seq<(string, Option<string>)>, t: seq<(string, Option<string>)>)
    ensures AsItems(s + t) == AsItems(s) + AsItems(t)
    decreases |t|
  {
    if t == [] {
      assert s + t == s;
    } else {
      assert (s + t)[..|s + t| - 1] == s + t[..|t| - 1];
      SpokesJoin(s, t[..|t| - 1]);
    }
  }

  lemma {:induction false} AsItemsAre(spokes: seq<(string, Option<string>)>, id: string, value: string)
    ensures Item(id, value) in AsItems(spokes) <==> (id, Some(value)) in spokes
  {
    if spokes != [] {
      AsItemsAre(spokes[..|spokes| - 1], id, value);
      assert spokes == spokes[..|spokes| - 1] + [spokes[|spokes| - 1]];
    }
  }

  /** `collect_sops_items`: an empty value fails. */
  method CollectSops(catalog: seq<Item>) returns (items: seq<Item>, failed: seq<string>)
    ensures items == Select(catalog, Present) && |items| + |failed| == |catalog|
    ensures forall item | item in catalog && item.value == "" :: item.id in failed
  {
    items, failed := [], [];
    for i := 0 to |catalog|
      invariant items == Select(catalog[..i], Present) && |items| + |failed| == i
      invariant forall item | item in catalog[..i] && item.value == "" :: item.id in failed
    {
      TakeNext(catalog, i);
      SelectAppend(catalog[..i], catalog[i], Present);
      if catalog[i].value == "" {
        failed := failed + [catalog[i].id];
      } else {
        items := items + [catalog[i]];
      }
    }
    TakeAll(catalog);
  }

  /** `collect_spoke_items`: a field that cannot be read fails. */
  method CollectSpokes(spokes: seq<(string, Option<string>)>) returns (items: seq<Item>, failed: seq<string>)
    ensures items == AsItems(spokes) && |items| + |failed| == |spokes|
    ensures forall spoke | spoke in spokes && !Read(spoke) :: spoke.0 in failed
  {
    items, failed := [], [];
    for i := 0 to |spokes|
      invariant items == AsItems(spokes[..i]) && |items| + |failed| == i
      invariant forall spoke | spoke in spokes[..i] && !Read(spoke) :: spoke.0 in failed
    {
      TakeNext(spokes, i);
      if spokes[i].1.None? {
        failed := failed + [spokes[i].0];
      } else {
        items := items + [AsItem(spokes[i])];
      }
    }
    TakeAll(spokes);
  }

  /** `sync_all`: `failed`, then one action for each item; every input has one or the other. */
  method SyncAll(store: Store, catalog: seq<Item>, spokes: seq<(string, Option<string>)>, dryRun: bool)
    returns (failed: seq<string>, actions: seq<Action>)
    modifies store`secrets, store`failures, store`refusals
    ensures DidAll(old(store.secrets), store.secrets, Deliverable(catalog, spokes), dryRun, store.flaky, actions)
    ensures forall id :: NeverDark(VersionsOf(old(store.secrets), id), VersionsOf(store.secrets, id))
    ensures |failed| + |actions| == |catalog| + |spokes|
    ensures store.failures >= old(store.failures) + multiset(actions)[Failed]
    ensures store.refusals == old(store.refusals) + multiset(actions)[Failed]
    ensures forall item | item in catalog && item.value == "" :: item.id in failed
    ensures forall spoke | spoke in spokes && !Read(spoke) :: spoke.0 in failed
  {
    var sopsItems, sopsFailed := CollectSops(catalog);
    var spokeItems, spokeFailed := CollectSpokes(spokes);
    failed := sopsFailed + spokeFailed;
    actions := SyncItems(store, sopsItems + spokeItems, dryRun);
  }

  /** What the comparison needs to recognise what it wrote. */
  predicate Recognisable(items: seq<Item>) {
    OneValue(items) && forall item | item in items :: '\r' !in item.value
  }

  /** Values that arrived are seen as they were sent exactly when none has a carriage return and no two share an id. */
  lemma SeenIffRecognisable(secrets: map<string, Versions>, items: seq<Item>)
    requires OneValue(items) ==> forall item | item in items :: Arrived(secrets, item)
    ensures AllSeen(secrets, items) <==> Recognisable(items)
  {
    if AllSeen(secrets, items) {
      forall a, b | a in items && b in items && a.id == b.id ensures a == b {
        assert Seen(secrets, a.id) == Some(a.value);
        assert Seen(secrets, b.id) == Some(b.value);
      }
      forall item | item in items ensures '\r' !in item.value {
        assert Seen(secrets, item.id) == Some(item.value);
      }
    }
    if Recognisable(items) {
      forall item | item in items ensures Seen(secrets, item.id) == Some(item.value) {
        TranslatedSame(item.value);
      }
    }
  }

  /** A second sync, on a store that answers, after a first in which no item failed: all unchanged if and only if the
      items are recognisable, and then nothing is written. */
  method SyncTwice(store: Store, catalog: seq<Item>, spokes: seq<(string, Option<string>)>)
    returns (first: seq<Action>, second: seq<Action>, ghost between: map<string, Versions>)
    modifies store
    ensures Failed !in first ==> (AllUnchanged(second) <==> Recognisable(Deliverable(catalog, spokes)))
    ensures AllUnchanged(second) ==> store.secrets == between
    ensures |first| == |second| == |Deliverable(catalog, spokes)|
    // whatever failed before, the second completes it
    ensures Failed !in second
    ensures OneValue(Deliverable(catalog, spokes)) ==>
        forall item | item in Deliverable(catalog, spokes) :: Arrived(store.secrets, item)
    ensures forall id :: NeverDark(VersionsOf(between, id), VersionsOf(store.secrets, id))
  {
    var failed;
    failed, first := SyncAll(store, catalog, spokes, false);
    store.flaky := false;
    between := store.secrets;
    if Failed !in first {
      SeenIffRecognisable(store.secrets, Deliverable(catalog, spokes));
    }
    failed, second := SyncAll(store, catalog, spokes, false);
  }

  /** An unchanged secret is byte for byte the item's value exactly when its newest version has no carriage return. */
  lemma UnchangedIsExact(vs: Versions, value: string)
    requires Latest(vs).Some? && Translated(Latest(vs).value) == value
    ensures Latest(vs).value == value <==> '\r' !in Latest(vs).value
  {
    TranslatedSame(Latest(vs).value);
  }

  // ---- how many versions stay enabled ----

  /** One run of one item, on one secret. */
  datatype Run = Run(before: Versions, after: Versions, value: string, added: bool, clean: bool)

  ghost predicate Possible(run: Run) {
    Advanced(run.before, run.after, run.value, run.added) && (run.added && run.clean ==> EnabledCount(run.after) <= 1)
  }

  ghost predicate Chained(runs: seq<Run>) {
    && (forall i | 0 <= i < |runs| :: Possible(runs[i]))
    && (forall i | 0 < i < |runs| :: runs[i].before == runs[i - 1].after)
  }

  /** The runs since the last full cleanup that added a version and did not clean up after it. */
  function Debt(runs: seq<Run>): nat {
    if runs == [] then 0
    else
      var last := runs[|runs| - 1];
      if !last.added then Debt(runs[..|runs| - 1])
      else if last.clean then 0
      else Debt(runs[..|runs| - 1]) + 1
  }

  /** Over any history that began with at most one: never more than one, and one for each cleanup still owed. */
  lemma {:induction false} EnabledBounded(runs: seq<Run>)
    requires runs != [] && Chained(runs) && EnabledCount(runs[0].before) <= 1
    ensures EnabledCount(runs[|runs| - 1].after) <= 1 + Debt(runs)
  {
    var last := runs[|runs| - 1];
    AdvancedCounts(last.before, last.after, last.value, last.added);
    if |runs| > 1 {
      EnabledBounded(runs[..|runs| - 1]);
    }
  }

  /** The bound is reached: each run that adds and does not clean up after it leaves one more. */
  lemma {:induction false} BoundIsReached(n: nat) returns (runs: seq<Run>)
    requires n > 0
    ensures |runs| == n && Chained(runs) && EnabledCount(runs[0].before) == 1
    ensures forall i | 0 <= i < n :: runs[i].added && !runs[i].clean
    ensures EnabledCount(runs[n - 1].after) == 1 + n == 1 + Debt(runs)
  {
    var one := Version("", Enabled);
    if n == 1 {
      assert [one][1..] == [];
      CountAppend([one], one);
      runs := [Run([one], [one] + [one], "", true, false)];
      assert runs[..0] == [];
    } else {
      var before := BoundIsReached(n - 1);
      var last := before[n - 2].after;
      CountAppend(last, one);
      runs := before + [Run(last, last + [one], "", true, false)];
      assert runs[..n - 1] == before;
    }
  }

  /** A value with a carriage return never reads back as itself, so every run adds a version of it. */
  lemma NeverRecognised(secrets: map<string, Versions>, item: Item)
    requires '\r' in item.value
    ensures Seen(secrets, item.id) != Some(item.value)
  {
  }
}
