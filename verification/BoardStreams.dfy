/** board_streams.py: which stream every open issue belongs to, and making the board's field say so. */
module BoardStreams {
  import opened Values
  import opened Selection
  import opened Batches
  import opened Indexing
  import opened Sequences

  // ---- the registry ----

  /** An entry under `streams`: its name ("" when it has none) and its prefixes. */
  type Stream = Group<string, string>

  datatype Registry = Registry(streams: seq<string>, prefixToStream: map<string, string>, overrides: map<int, string>)

  predicate NamedOnce(streams: seq<Stream>) {
    forall i, j | 0 <= i < j < |streams| :: streams[i].value != streams[j].value
  }

  /** Streams are declared, each named, none twice, and no prefix stands in two places. */
  ghost predicate WellDeclared(streams: seq<Stream>) {
    streams != [] && (forall s | s in streams :: s.value != "") && NamedOnce(streams) && KeysOnce(Pairs(streams))
  }

  /** The names and the table once the streams `listed` went in. */
  ghost predicate Declared(names: seq<string>, table: map<string, string>, listed: seq<Stream>) {
    && |names| == |listed| && (forall k | 0 <= k < |listed| :: names[k] == listed[k].value != "")
    && NamedOnce(listed) && Indexes(table, Pairs(listed))
  }

  /** What the next stream must be to be accepted. */
  ghost predicate Acceptable(s: Stream, listed: seq<Stream>) {
    s.value != "" && (forall t | t in listed :: t.value != s.value) && KeysOnce(Pairs(listed + [s]))
  }

  method AddStream(names: seq<string>, table: map<string, string>, s: Stream, ghost listed: seq<Stream>)
    returns (r: Option<(seq<string>, map<string, string>)>)
    requires Declared(names, table, listed)
    ensures r.Some? <==> Acceptable(s, listed)
    ensures r.Some? ==> Declared(r.value.0, r.value.1, listed + [s])
  {
    assert (listed + [s])[..|listed|] == listed;
    if s.value == "" {
      return None;
    }
    if s.value in names {
      ghost var k :| 0 <= k < |names| && names[k] == s.value;
      assert listed[k] in listed;
      return None;
    }
    forall t | t in listed ensures t.value != s.value {
      var k :| 0 <= k < |listed| && listed[k] == t;
      assert names[k] in names;
    }
    var grown := AddGroup(table, s, (p: string) => false, Pairs(listed));
    r := if grown.None? then None else Some((names + [s.value], grown.value));
  }

  /** Streams well declared as a whole are acceptable one by one. */
  lemma WellDeclaredNext(streams: seq<Stream>, i: nat)
    requires i < |streams| && WellDeclared(streams)
    ensures Acceptable(streams[i], streams[..i])
  {
    TakeNext(streams, i);
    PairsPrefix(streams, i + 1);
  }

  lemma {:induction false} WellDeclaredIs(streams: seq<Stream>)
    ensures WellDeclared(streams) <==>
        && streams != [] && (forall i | 0 <= i < |streams| :: streams[i].value != "")
        && (forall i, j | 0 <= i < j < |streams| :: streams[i].value != streams[j].value)
        && OnceEach(KeysOf(streams))
  {
    OnceIs(streams);
  }

  /** The first half of `load_registry`. */
  method LoadStreams(streams: seq<Stream>) returns (r: Option<(seq<string>, map<string, string>)>)
    ensures r.Some? <==>
        && streams != [] && (forall i | 0 <= i < |streams| :: streams[i].value != "")
        && (forall i, j | 0 <= i < j < |streams| :: streams[i].value != streams[j].value)
        && OnceEach(KeysOf(streams))
    ensures r.Some? ==> |r.value.0| == |streams| && forall i | 0 <= i < |streams| :: r.value.0[i] == streams[i].value
    ensures r.Some? ==> Inverts(r.value.1, streams)
  {
    var names: seq<string>, table: map<string, string> := [], map[];
    WellDeclaredIs(streams);
    for i := 0 to |streams|
      invariant Declared(names, table, streams[..i])
    {
      TakeNext(streams, i);
      var added := AddStream(names, table, streams[i], streams[..i]);
      if added.None? {
        if WellDeclared(streams) {
          WellDeclaredNext(streams, i);
        }
        return None;
      }
      names, table := added.value.0, added.value.1;
    }
    TakeAll(streams);
    if names == [] {
      return None;
    }
    r := Some((names, table));
    DeclaredAll(names, table, streams);
  }

  lemma DeclaredAll(names: seq<string>, table: map<string, string>, streams: seq<Stream>)
    requires Declared(names, table, streams) && names != []
    ensures WellDeclared(streams) && Inverts(table, streams)
  {
    IndexesInverts(table, streams);
  }

  /** The dict the entries assign to, one after another. */
  function OverridesOf(raw: seq<(Option<int>, string)>): map<int, string> {
    if raw == [] then map[]
    else
      var before, last := OverridesOf(raw[..|raw| - 1]), raw[|raw| - 1];
      if last.0.Some? then before[last.0.value := last.1] else before
  }

  /** Numbers to declared streams. */
  method LoadOverrides(raw: seq<(Option<int>, string)>, streams: seq<string>) returns (r: Option<map<int, string>>)
    ensures r == if forall i | 0 <= i < |raw| ::
        raw[i].0.Some? && raw[i].1 in streams then Some(OverridesOf(raw)) else None
    ensures r.Some? ==> forall n | n in r.value :: r.value[n] in streams
  {
    var overrides: map<int, string> := map[];
    for i := 0 to |raw|
      invariant forall k | 0 <= k < i :: raw[k].0.Some? && raw[k].1 in streams
      invariant overrides == OverridesOf(raw[..i]) && forall n | n in overrides :: overrides[n] in streams
    {
      if raw[i].0.None? || raw[i].1 !in streams {
        return None;
      }
      TakeNext(raw, i);
      overrides := overrides[raw[i].0.value := raw[i].1];
    }
    TakeAll(raw);
    r := Some(overrides);
  }

  /** Of keys that are one number the last counts, and nothing else is in the table. */
  lemma {:induction false} LastOverrideCounts(raw: seq<(Option<int>, string)>, n: int)
    ensures n in OverridesOf(raw) <==> exists i | 0 <= i < |raw| :: raw[i].0 == Some(n)
    ensures forall i | 0 <= i < |raw| && raw[i].0 == Some(n) && (forall j | i < j < |raw| :: raw[j].0 != Some(n)) ::
              n in OverridesOf(raw) && OverridesOf(raw)[n] == raw[i].1
  {
    OverrideIn(raw, n);
    forall i | 0 <= i < |raw| && raw[i].0 == Some(n) && forall j | i < j < |raw| :: raw[j].0 != Some(n)
      ensures n in OverridesOf(raw) && OverridesOf(raw)[n] == raw[i].1
    {
      OverrideAt(raw, n, i);
    }
  }

  lemma {:induction false} OverrideIn(raw: seq<(Option<int>, string)>, n: int)
    ensures n in OverridesOf(raw) <==> exists i | 0 <= i < |raw| :: raw[i].0 == Some(n)
  {
    if raw != [] {
      var before, last := raw[..|raw| - 1], raw[|raw| - 1];
      OverrideIn(before, n);
      if i :| 0 <= i < |before| && before[i].0 == Some(n) {
        assert raw[i].0 == Some(n);
      }
      if i :| 0 <= i < |raw| && raw[i].0 == Some(n) && last.0 != Some(n) {
        assert before[i].0 == Some(n);
      }
    }
  }

  lemma {:induction false} OverrideAt(raw: seq<(Option<int>, string)>, n: int, i: nat)
    requires i < |raw| && raw[i].0 == Some(n) && forall j | i < j < |raw| :: raw[j].0 != Some(n)
    ensures n in OverridesOf(raw) && OverridesOf(raw)[n] == raw[i].1
  {
    if i < |raw| - 1 {
      assert raw[|raw| - 1].0 != Some(n);
      OverrideAt(raw[..|raw| - 1], n, i);
    }
  }

  // ---- classify and plan ----

  datatype Item = Item(id: string, number: int, title: string, current: Option<string>)

  datatype Change = Change(item: Item, desired: string)

  datatype Plan = Plan(changes: seq<Change>, unplaced: seq<Item>, settled: nat)

  /** `title_prefix`, whatever the regular expressions match. */
  type Prefix = string -> Option<string>

  function Classify(number: int, title: string, registry: Registry, prefix: Prefix): Option<string> {
    if number in registry.overrides then Some(registry.overrides[number])
    else if prefix(title).Some? && prefix(title).value in registry.prefixToStream
    then Some(registry.prefixToStream[prefix(title).value])
    else None
  }

  function Desired(item: Item, registry: Registry, prefix: Prefix): Option<string> {
    Classify(item.number, item.title, registry, prefix)
  }

  function PlanOf(items: seq<Item>, registry: Registry, prefix: Prefix): Plan {
    if items == [] then Plan([], [], 0)
    else
      var before := PlanOf(items[..|items| - 1], registry, prefix);
      var item := items[|items| - 1];
      var desired := Desired(item, registry, prefix);
      if desired.None? then before.(unplaced := before.unplaced + [item])
      else if desired == item.current then before.(settled := before.settled + 1)
      else before.(changes := before.changes + [Change(item, desired.value)])
  }

  method MakePlan(items: seq<Item>, registry: Registry, prefix: Prefix) returns (p: Plan)
    ensures p == PlanOf(items, registry, prefix)
  {
    var changes, unplaced, settled := [], [], 0;
    for i := 0 to |items|
      invariant Plan(changes, unplaced, settled) == PlanOf(items[..i], registry, prefix)
    {
      TakeNext(items, i);
      var desired := Desired(items[i], registry, prefix);
      if desired.None? {
        unplaced := unplaced + [items[i]];
      } else if desired == items[i].current {
        settled := settled + 1;
      } else {
        changes := changes + [Change(items[i], desired.value)];
      }
    }
    TakeAll(items);
    p := Plan(changes, unplaced, settled);
  }

  /** Every item is planned, unplaced or settled. */
  lemma {:induction false} PlanAccountsForAll(items: seq<Item>, registry: Registry, prefix: Prefix)
    ensures var p := PlanOf(items, registry, prefix); |p.changes| + |p.unplaced| + p.settled == |items|
  {
    if items != [] {
      PlanAccountsForAll(items[..|items| - 1], registry, prefix);
    }
  }

  /** Exactly the items whose stream is another than the board shows get a change, to that stream. */
  lemma {:induction false} PlannedIff(items: seq<Item>, registry: Registry, prefix: Prefix, c: Change)
    ensures c in PlanOf(items, registry, prefix).changes <==>
            c.item in items && Desired(c.item, registry, prefix) == Some(c.desired) != c.item.current
    ensures c.item in PlanOf(items, registry, prefix).unplaced <==>
            c.item in items && Desired(c.item, registry, prefix) == None
  {
    if items != [] {
      var before, item := items[..|items| - 1], items[|items| - 1];
      assert items == before + [item];
      PlannedIff(before, registry, prefix, c);
    }
  }

  /** The plan of a list is the plans of its parts one after another. */
  lemma {:induction false} PlanJoins(a: seq<Item>, b: seq<Item>, registry: Registry, prefix: Prefix)
    ensures var p, q, r := PlanOf(a, registry, prefix), PlanOf(b, registry, prefix), PlanOf(a + b, registry, prefix);
            r.changes == p.changes + q.changes && r.unplaced == p.unplaced + q.unplaced
            && r.settled == p.settled + q.settled
    decreases |b|
  {
    if b == [] {
      assert a + b == a;
    } else {
      assert (a + b)[..|a + b| - 1] == a + b[..|b| - 1];
      PlanJoins(a, b[..|b| - 1], registry, prefix);
    }
  }

  /** Outright: an override decides; without one the prefix of the title does, if some stream has it; else the item is
      unplaced.  What is decided is written exactly where the board shows something else. */
  lemma {:induction false} PlacedBy(items: seq<Item>, registry: Registry, prefix: Prefix, item: Item, stream: string)
    requires item in items
    ensures var p := PlanOf(items, registry, prefix);
            var byPrefix := item.number !in registry.overrides && prefix(item.title).Some?
                            && prefix(item.title).value in registry.prefixToStream;
            && (item.number in registry.overrides ==>
                  (Change(item, stream) in p.changes <==>
                   stream == registry.overrides[item.number] && item.current != Some(stream)))
            && (byPrefix ==>
                  (Change(item, stream) in p.changes <==>
                   stream == registry.prefixToStream[prefix(item.title).value] && item.current != Some(stream)))
            && (item in p.unplaced <==> item.number !in registry.overrides && !byPrefix)
            && (item in p.unplaced ==> Change(item, stream) !in p.changes)
  {
    PlannedIff(items, registry, prefix, Change(item, stream));
  }

  /** A placed issue is placed in a declared stream, so a field that offers every stream offers what is written. */
  lemma {:induction false} PlacedInDeclared(items: seq<Item>, registry: Registry, prefix: Prefix)
    requires forall p | p in registry.prefixToStream :: registry.prefixToStream[p] in registry.streams
    requires forall n | n in registry.overrides :: registry.overrides[n] in registry.streams
    ensures forall c | c in PlanOf(items, registry, prefix).changes :: c.desired in registry.streams
  {
    if items != [] {
      PlacedInDeclared(items[..|items| - 1], registry, prefix);
    }
  }

  // ---- apply ----

  datatype Write = Write(id: string, stream: string)

  function WriteOf(c: Change): Write { Write(c.item.id, c.desired) }

  function Writes(changes: seq<Change>): seq<Write> {
    seq(|changes|, i requires 0 <= i < |changes| => WriteOf(changes[i]))
  }

  datatype Sent = NoField | NoSuchOption | Sent(outcome: Outcome)

  /** `apply`: no field or a missing option fails before anything is written. */
  method Apply(remote: Remote<Write>, options: Option<set<string>>, changes: seq<Change>, batchSize: int)
    returns (r: Sent, ghost part: seq<Write>)
    modifies remote
    ensures remote.landed == old(remote.landed) + part
    ensures remote.failures == old(remote.failures) + if r == Sent(Failed) then 1 else 0
    ensures r == Sent(ZeroBatchSize) <==> r.Sent? && batchSize == 0
    ensures r.NoField? <==> options.None?
    ensures r.NoSuchOption? <==> options.Some? && exists c | c in changes :: c.desired !in options.value
    ensures !r.Sent? ==> part == []
    ensures r.Sent? && r.outcome.Wrote? && batchSize > 0 ==> part == Writes(changes) && r.outcome.count == |changes|
    ensures r.Sent? && r.outcome.Failed? ==> exists n: nat :: WholeBatchesThenPart(part, Writes(changes), batchSize, n)
    ensures forall w | w in part :: w in Writes(changes)
  {
    part := [];
    if options.None? {
      return NoField, [];
    }
    if exists c | c in changes :: c.desired !in options.value {
      return NoSuchOption, [];
    }
    var outcome;
    outcome, part := WriteInBatches(remote, Writes(changes), batchSize);
    r := Sent(outcome);
  }

  // ---- the board after writes landed ----

  function LandOn(item: Item, ws: seq<Write>): Item
    decreases |ws|
  {
    if ws == [] then item
    else LandOn(if ws[0].id == item.id then item.(current := Some(ws[0].stream)) else item, ws[1..])
  }

  function LandAll(items: seq<Item>, ws: seq<Write>): seq<Item> {
    seq(|items|, i requires 0 <= i < |items| => LandOn(items[i], ws))
  }

  ghost function LandedValue(item: Item, ws: seq<Write>, value: string): Option<string> {
    if exists w | w in ws :: w.id == item.id then Some(value) else item.current
  }

  lemma {:induction false} LandedOn(item: Item, ws: seq<Write>, value: string)
    requires forall w | w in ws && w.id == item.id :: w.stream == value
    ensures LandOn(item, ws) == item.(current := LandedValue(item, ws, value))
    decreases |ws|
  {
    if ws != [] {
      assert ws == [ws[0]] + ws[1..];
      LandedOn(if ws[0].id == item.id then item.(current := Some(ws[0].stream)) else item, ws[1..], value);
    }
  }

  /** A board item has one issue, however often it is listed. */
  ghost predicate OneIssue(items: seq<Item>) {
    forall a, b | a in items && b in items && a.id == b.id :: a.number == b.number && a.title == b.title
  }

  ghost function Pending(part: seq<Write>): Change -> bool {
    c => WriteOf(c) !in part
  }

  /** Whichever writes of a plan landed, the next plan changes exactly the others, in order; what landed is
      settled, and the same items are unplaced. */
  lemma ReplanIsTheRest(items: seq<Item>, registry: Registry, prefix: Prefix, part: seq<Write>)
    requires OneIssue(items) && forall w | w in part :: w in Writes(PlanOf(items, registry, prefix).changes)
    ensures var p, q := PlanOf(items, registry, prefix), PlanOf(LandAll(items, part), registry, prefix);
            && q.changes == Select(p.changes, Pending(part))
            && q.unplaced == p.unplaced
            && q.settled + |q.changes| == p.settled + |p.changes|
  {
    var p := PlanOf(items, registry, prefix);
    forall w, item | w in part && item in items && w.id == item.id
      ensures Desired(item, registry, prefix) == Some(w.stream)
    {
      var i :| 0 <= i < |p.changes| && Writes(p.changes)[i] == w;
      PlannedIff(items, registry, prefix, p.changes[i]);
    }
    RestOfItems(items, registry, prefix, part);
  }

  lemma {:induction false} RestOfItems(items: seq<Item>, registry: Registry, prefix: Prefix, part: seq<Write>)
    requires forall w, item | w in part && item in items && w.id == item.id ::
        Desired(item, registry, prefix) == Some(w.stream)
    ensures var p, q := PlanOf(items, registry, prefix), PlanOf(LandAll(items, part), registry, prefix);
            && q.changes == Select(p.changes, Pending(part))
            && q.unplaced == p.unplaced
            && q.settled + |q.changes| == p.settled + |p.changes|
  {
    if items != [] {
      var before, item := items[..|items| - 1], items[|items| - 1];
      RestOfItems(before, registry, prefix, part);
      var after := LandAll(items, part);
      assert after[..|after| - 1] == LandAll(before, part);
      assert item in items;
      var desired := Desired(item, registry, prefix);
      LandedOn(item, part, if desired.Some? then desired.value else "");
      if desired.Some? && desired != item.current {
        var c := Change(item, desired.value);
        SelectAppend(PlanOf(before, registry, prefix).changes, c, Pending(part));
        forall w | w in part && w.id == item.id ensures w == WriteOf(c) {}
      }
    }
  }

  /** No item with something to write is listed twice. */
  ghost predicate PendingOnce(changes: seq<Change>) {
    forall i, j | 0 <= i < j < |changes| :: changes[i].item.id != changes[j].item.id
  }

  lemma PendingOnceIffNoRepeat(items: seq<Item>, registry: Registry, prefix: Prefix)
    requires OneIssue(items)
    ensures var changes := PlanOf(items, registry, prefix).changes; PendingOnce(changes) <==> NoRepeat(Writes(changes))
  {
    var changes := PlanOf(items, registry, prefix).changes;
    var ws := Writes(changes);
    forall i, j | 0 <= i < j < |changes|
      ensures changes[i].item.id == changes[j].item.id <==> ws[i] == ws[j]
    {
      PlannedIff(items, registry, prefix, changes[i]);
      PlannedIff(items, registry, prefix, changes[j]);
    }
  }

  /** After every prefix of the writes the next plan is exactly the suffix, if and only if no pending item is
      listed twice. */
  lemma {:induction false} SuffixIffPendingOnce(items: seq<Item>, registry: Registry, prefix: Prefix)
    requires OneIssue(items)
    ensures var changes := PlanOf(items, registry, prefix).changes;
            PendingOnce(changes) <==> forall k | 0 <= k <= |changes| ::
              Writes(PlanOf(LandAll(items, Writes(changes)[..k]), registry, prefix).changes) == Writes(changes)[k..]
  {
    var changes := PlanOf(items, registry, prefix).changes;
    var ws := Writes(changes);
    forall k | 0 <= k <= |ws|
      ensures Writes(PlanOf(LandAll(items, ws[..k]), registry, prefix).changes) == Rest(ws, ws[..k])
    {
      ReplanIsTheRest(items, registry, prefix, ws[..k]);
      WritesOfPending(changes, ws[..k]);
    }
    SuffixIffNoRepeat(ws);
    PendingOnceIffNoRepeat(items, registry, prefix);
  }

  lemma {:induction false} WritesOfPending(changes: seq<Change>, part: seq<Write>)
    ensures Writes(Select(changes, Pending(part))) == Rest(Writes(changes), part)
  {
    if changes != [] {
      var rest := changes[1..];
      WritesOfPending(rest, part);
      assert Writes(changes)[1..] == Writes(rest);
      if WriteOf(changes[0]) !in part {
        assert Writes([changes[0]] + Select(rest, Pending(part)))
            == [WriteOf(changes[0])] + Writes(Select(rest, Pending(part)));
      }
    }
  }

  /** Plan and apply: once everything landed, every placed item is settled and the unplaced are the same. */
  lemma {:induction false} ReplanIsNothing(items: seq<Item>, registry: Registry, prefix: Prefix)
    requires OneIssue(items)
    ensures var p := PlanOf(items, registry, prefix);
            PlanOf(LandAll(items, Writes(p.changes)), registry, prefix) == Plan([], p.unplaced, p.settled + |p.changes|)
  {
    var p := PlanOf(items, registry, prefix);
    ReplanIsTheRest(items, registry, prefix, Writes(p.changes));
    forall c | c in p.changes ensures WriteOf(c) in Writes(p.changes) {
      var i :| 0 <= i < |p.changes| && p.changes[i] == c;
      assert Writes(p.changes)[i] == WriteOf(c);
    }
    SelectNone(p.changes, Pending(Writes(p.changes)));
  }

  /** Plan and apply: wherever it stopped, the next plan is what did not land. */
  method PlanAndApply(remote: Remote<Write>, items: seq<Item>, registry: Registry, prefix: Prefix,
      options: Option<set<string>>, batchSize: int)
    returns (r: Sent, ghost part: seq<Write>)
    requires OneIssue(items)
    modifies remote
    ensures remote.landed == old(remote.landed) + part
    ensures var p, q := PlanOf(items, registry, prefix), PlanOf(LandAll(items, part), registry, prefix);
            q.changes == Select(p.changes, Pending(part)) && q.unplaced == p.unplaced
    ensures r.Sent? && r.outcome.Wrote? && batchSize > 0 ==>
        PlanOf(LandAll(items, part), registry, prefix).changes == []
    ensures !r.Sent? ==> part == []
    ensures r.NoField? <==> options.None?
    ensures r.NoSuchOption? <==>
        options.Some? && exists c | c in PlanOf(items, registry, prefix).changes :: c.desired !in options.value
    ensures remote.failures == old(remote.failures) + if r == Sent(Failed) then 1 else 0
  {
    var p := MakePlan(items, registry, prefix);
    r, part := Apply(remote, options, p.changes, batchSize);
    ReplanIsTheRest(items, registry, prefix, part);
    ReplanIsNothing(items, registry, prefix);
  }
}
