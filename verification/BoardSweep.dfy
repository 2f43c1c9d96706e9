/** board_sweep.py: make a recorded decision true on the board, for the issues it names and no others. */
module BoardSweep {
  import opened Values
  import opened Selection
  import opened Batches
  import opened Keyed
  import opened Sequences

  const STAYS_STATUS := "In Progress"
  const PARKED_STATUS := "Backlog"

  datatype Item = Item(status: Option<string>, priority: Option<string>)

  /** What `fetch_items` finds for the registry's numbers. */
  type Board = map<int, Item>

  datatype Entry = Stay(number: int, priority: Option<string>) | Park(number: int)

  datatype Change = Change(number: int, status: Option<string>, priority: Option<string>)

  datatype Plan = Plan(changes: seq<Change>, settled: nat, missing: seq<int>)

  datatype Field = Status | Priority

  datatype Write = Write(number: int, field: Field, value: string)

  // ---- the registry ----

  /** `stays` is a dict, so in order of first mention; `parked` is a list as written. */
  datatype Registry = Registry(stays: seq<Entry>, parked: seq<Entry>) {
    function Entries(): seq<Entry> { stays + parked }
  }

  function Numbers(es: seq<Entry>): set<int> {
    set e | e in es :: e.number
  }

  function NumberOf(e: Entry): int { e.number }

  lemma NumbersPut(stays: seq<Entry>, e: Entry)
    ensures Numbers(Put(NumberOf, stays, e)) == Numbers(stays) + {e.number}
  {
    PutMembers(NumberOf, stays, e);
    forall s | s in stays && NumberOf(s) != e.number ensures s in Put(NumberOf, stays, e) {}
  }

  ghost predicate Overlap(stays: seq<Entry>, parked: seq<Entry>) {
    Numbers(stays) * Numbers(parked) != {}
  }

  /** What loading guarantees: one decision for each number. */
  ghost predicate Consistent(r: Registry) {
    && (forall e | e in r.stays :: e.Stay?) && (forall e | e in r.parked :: e.Park?)
    && DistinctBy(NumberOf, r.stays) && !Overlap(r.stays, r.parked)
  }

  /** The two lists share a number exactly when the registry lists one in both. */
  lemma OverlapIs(stays: seq<(Option<int>, Option<string>)>, parked: seq<Option<int>>, staying: seq<Entry>,
        parking: seq<Entry>)
    requires forall k | 0 <= k < |stays| :: stays[k].0.Some?
    requires forall k | 0 <= k < |parked| :: parked[k].Some?
    requires Numbers(staying) == set k | 0 <= k < |stays| && stays[k].0.Some? :: stays[k].0.value
    requires |parking| == |parked| && forall k | 0 <= k < |parked| :: parking[k] == Park(parked[k].value)
    ensures Numbers(staying) * Numbers(parking) != {} <==>
            exists i, j | 0 <= i < |stays| && 0 <= j < |parked| :: stays[i].0 == parked[j]
  {
    if n :| n in Numbers(staying) * Numbers(parking) {
      var i :| 0 <= i < |stays| && stays[i].0 == Some(n);
      var j :| 0 <= j < |parking| && parking[j].number == n;
      assert stays[i].0 == parked[j];
    }
    if i, j :| 0 <= i < |stays| && 0 <= j < |parked| && stays[i].0 == parked[j] {
      assert parking[j] in parking && parking[j].number in Numbers(parking);
      assert stays[i].0.value in Numbers(staying) * Numbers(parking);
    }
  }

  /** `load_registry`: refuses anything that is not a number, and any number in both lists. */
  method LoadRegistry(stays: seq<(Option<int>, Option<string>)>, parked: seq<Option<int>>) returns (r: Option<Registry>)
    ensures r.None? <==> || (exists i | 0 <= i < |stays| :: stays[i].0.None?)
                         || (exists i | 0 <= i < |parked| :: parked[i].None?)
                         || (exists i, j | 0 <= i < |stays| && 0 <= j < |parked| :: stays[i].0 == parked[j])
    ensures r.Some? ==> Consistent(r.value)
    ensures r.Some? ==>
        r.value.parked == seq(|parked|, i requires 0 <= i < |parked| && parked[i].Some? => Park(parked[i].value))
    ensures r.Some? ==> forall i | 0 <= i < |stays| && (forall j | i < j < |stays| :: stays[j].0 != stays[i].0) ::
                          Stay(stays[i].0.value, stays[i].1) in r.value.stays
    ensures r.Some? ==> Numbers(r.value.stays) == set i | 0 <= i < |stays| && stays[i].0.Some? :: stays[i].0.value
  {
    var staying, parking := [], [];
    for i := 0 to |stays|
      invariant forall k | 0 <= k < i :: stays[k].0.Some?
      invariant DistinctBy(NumberOf, staying) && forall s | s in staying :: s.Stay?
      invariant forall k | 0 <= k < i && (forall j | k < j < i :: stays[j].0 != stays[k].0) ::
                  Stay(stays[k].0.value, stays[k].1) in staying
      invariant Numbers(staying) == set k | 0 <= k < i && stays[k].0.Some? :: stays[k].0.value
    {
      if stays[i].0.None? {
        return None;
      }
      var e := Stay(stays[i].0.value, stays[i].1);
      PutDistinct(NumberOf, staying, e);
      PutMembers(NumberOf, staying, e);
      NumbersPut(staying, e);
      staying := Put(NumberOf, staying, e);
    }
    for i := 0 to |parked|
      invariant forall k | 0 <= k < i :: parked[k].Some?
      invariant |parking| == i && forall k | 0 <= k < i :: parking[k] == Park(parked[k].value)
    {
      if parked[i].None? {
        return None;
      }
      parking := parking + [Park(parked[i].value)];
    }
    OverlapIs(stays, parked, staying, parking);
    if Numbers(staying) * Numbers(parking) != {} {
      return None;
    }
    r := Some(Registry(staying, parking));
  }

  // ---- plan ----

  /** What an entry asks of an item; None when the item is as it should be. */
  function Decide(item: Item, e: Entry): Option<Change> {
    match e
    case Stay(n, desired) =>
      var status := if item.status == Some(STAYS_STATUS) then None else Some(STAYS_STATUS);
      var priority := if item.priority.None? && desired.Some? && desired.value != "" then desired else None;
      if status.None? && priority.None? then None else Some(Change(n, status, priority))
    case Park(n) =>
      if item.status == Some(PARKED_STATUS) then None else Some(Change(n, Some(PARKED_STATUS), None))
  }

  function PlanOf(board: Board, entries: seq<Entry>): Plan {
    if entries == [] then Plan([], 0, [])
    else
      var rest := PlanOf(board, entries[1..]);
      var e := entries[0];
      if e.number !in board then rest.(missing := [e.number] + rest.missing)
      else match Decide(board[e.number], e)
        case None => rest.(settled := rest.settled + 1)
        case Some(change) => rest.(changes := [change] + rest.changes)
  }

  lemma {:induction false} PlanNext(board: Board, entries: seq<Entry>, e: Entry)
    ensures var p := PlanOf(board, entries);
      PlanOf(board, entries + [e]) ==
      if e.number !in board then p.(missing := p.missing + [e.number])
      else match Decide(board[e.number], e)
        case None => p.(settled := p.settled + 1)
        case Some(change) => p.(changes := p.changes + [change])
  {
    if entries == [] {
      assert [e][1..] == [];
    } else {
      assert (entries + [e])[1..] == entries[1..] + [e];
      PlanNext(board, entries[1..], e);
    }
  }

  method MakePlan(board: Board, registry: Registry) returns (p: Plan)
    requires (forall e | e in registry.stays :: e.Stay?) && forall e | e in registry.parked :: e.Park?
    ensures p == PlanOf(board, registry.Entries())
  {
    var changes, settled, missing := [], 0, [];
    for i := 0 to |registry.stays|
      invariant Plan(changes, settled, missing) == PlanOf(board, registry.stays[..i])
    {
      var e := registry.stays[i];
      TakeNext(registry.stays, i);
      PlanNext(board, registry.stays[..i], e);
      if e.number !in board {
        missing := missing + [e.number];
        continue;
      }
      var item := board[e.number];
      var status := if item.status == Some(STAYS_STATUS) then None else Some(STAYS_STATUS);
      var priority := if item.priority.None? && e.priority.Some? && e.priority.value != "" then e.priority else None;
      if status.None? && priority.None? {
        settled := settled + 1;
      } else {
        changes := changes + [Change(e.number, status, priority)];
      }
    }
    assert registry.stays[..|registry.stays|] == registry.stays + registry.parked[..0];
    for i := 0 to |registry.parked|
      invariant Plan(changes, settled, missing) == PlanOf(board, registry.stays + registry.parked[..i])
    {
      var e := registry.parked[i];
      assert e in registry.parked && e.Park?;
      JoinNext(registry.stays, registry.parked, i);
      PlanNext(board, registry.stays + registry.parked[..i], e);
      if e.number !in board {
        missing := missing + [e.number];
        continue;
      }
      if board[e.number].status == Some(PARKED_STATUS) {
        settled := settled + 1;
      } else {
        changes := changes + [Change(e.number, Some(PARKED_STATUS), None)];
      }
    }
    assert registry.stays + registry.parked[..|registry.parked|] == registry.Entries();
    p := Plan(changes, settled, missing);
  }

  /** Nothing is planned exactly when every registered issue on the board is as wanted: one that stays in progress, with
      a Priority where one is declared, and a parked one in the backlog. */
  lemma {:induction false} SettledIffAsWanted(board: Board, entries: seq<Entry>)
    ensures PlanOf(board, entries).changes == [] <==>
            forall e | e in entries && e.number in board ::
              match e
              case Stay(n, desired) =>
                && board[n].status == Some("In Progress")
                && (desired.Some? && desired.value != "" ==> board[n].priority.Some?)
              case Park(n) => board[n].status == Some("Backlog")
    ensures |PlanOf(board, entries).changes| + PlanOf(board, entries).settled + |PlanOf(board, entries).missing|
        == |entries|
  {
    if entries != [] {
      assert entries == [entries[0]] + entries[1..];
      SettledIffAsWanted(board, entries[1..]);
    }
  }

  /** What is planned, outright. */
  lemma {:induction false} PlannedIff(board: Board, entries: seq<Entry>, c: Change)
    ensures c in PlanOf(board, entries).changes <==>
            && c.number in board
            && ((exists desired :: Stay(c.number, desired) in entries && StayChange(board[c.number], desired, c))
                || (&& Park(c.number) in entries && board[c.number].status != Some("Backlog")
                    && c.status == Some("Backlog") && c.priority == None))
  {
    if entries != [] {
      assert entries == [entries[0]] + entries[1..];
      PlannedIff(board, entries[1..], c);
    }
  }

  /** The change asked of an issue that stays: to be in progress if it is not, a declared Priority if it has none. */
  ghost predicate StayChange(item: Item, desired: Option<string>, c: Change) {
    && (if item.status == Some("In Progress") then c.status == None else c.status == Some("In Progress"))
    && (if item.priority.None? && desired.Some? && desired.value != ""
        then c.priority == desired else c.priority == None)
    && (c.status.Some? || c.priority.Some?)
  }

  /** The plan of a list is the plans of its parts one after another. */
  lemma {:induction false} PlanJoins(board: Board, a: seq<Entry>, b: seq<Entry>)
    ensures var p, q, r := PlanOf(board, a), PlanOf(board, b), PlanOf(board, a + b);
            && r.changes == p.changes + q.changes && r.missing == p.missing + q.missing
            && r.settled == p.settled + q.settled
  {
    if a == [] {
      assert a + b == b;
    } else {
      assert (a + b)[1..] == a[1..] + b;
      PlanJoins(board, a[1..], b);
    }
  }

  lemma {:induction false} MissingAre(board: Board, entries: seq<Entry>, n: int)
    ensures n in PlanOf(board, entries).missing <==> n !in board && exists e | e in entries :: e.number == n
  {
    if entries != [] {
      assert entries == [entries[0]] + entries[1..];
      MissingAre(board, entries[1..], n);
    }
  }

  // ---- the writes of a plan ----

  /** Status first, then Priority. */
  function WritesOf(change: Change): seq<Write> {
    (match change.status case None => [] case Some(s) => [Write(change.number, Status, s)]) +
    (match change.priority case None => [] case Some(p) => [Write(change.number, Priority, p)])
  }

  function AllWrites(changes: seq<Change>): seq<Write> {
    if changes == [] then [] else WritesOf(changes[0]) + AllWrites(changes[1..])
  }

  /** Each change's Status is written before its Priority, change by change. */
  lemma StatusThenPriority(c: Change, rest: seq<Change>)
    ensures AllWrites([c] + rest) ==
            (if c.status.Some? then [Write(c.number, Status, c.status.value)] else []) +
            (if c.priority.Some? then [Write(c.number, Priority, c.priority.value)] else []) + AllWrites(rest)
  {
    assert ([c] + rest)[1..] == rest;
  }

  lemma {:induction false} AllWritesAppend(changes: seq<Change>, c: Change)
    ensures AllWrites(changes + [c]) == AllWrites(changes) + WritesOf(c)
  {
    if changes == [] {
      assert [c][1..] == [];
    } else {
      assert (changes + [c])[1..] == changes[1..] + [c];
      AllWritesAppend(changes[1..], c);
    }
  }

  /** The values each field offers. */
  type Options = map<Field, set<string>>

  datatype Sent = NoSuchOption | Sent(outcome: Outcome)

  method BuildWrites(options: Options, changes: seq<Change>) returns (r: Option<seq<Write>>)
    ensures r.Some? <==> forall w | w in AllWrites(changes) :: w.field in options && w.value in options[w.field]
    ensures r.Some? ==> r.value == AllWrites(changes)
  {
    var writes: seq<Write> := [];
    for i := 0 to |changes|
      invariant writes == AllWrites(changes[..i])
      invariant forall w | w in writes :: w.field in options && w.value in options[w.field]
    {
      var c := changes[i];
      TakeNext(changes, i);
      AllWritesAppend(changes[..i], c);
      OfPrefix(changes, i);
      if c.status.Some? {
        var w := Write(c.number, Status, c.status.value);
        if w.field !in options || w.value !in options[w.field] {
          assert w in WritesOf(c);
          return None;
        }
        writes := writes + [w];
      }
      if c.priority.Some? {
        var w := Write(c.number, Priority, c.priority.value);
        if w.field !in options || w.value !in options[w.field] {
          assert w in WritesOf(c);
          return None;
        }
        writes := writes + [w];
      }
      assert writes == AllWrites(changes[..i]) + WritesOf(c);
    }
    TakeAll(changes);
    r := Some(writes);
  }

  /** `apply`: an option the board does not have fails before anything is written. */
  method Apply(remote: Remote<Write>, options: Options, changes: seq<Change>, batchSize: int)
    returns (r: Sent, ghost part: seq<Write>)
    modifies remote
    ensures remote.landed == old(remote.landed) + part
    ensures remote.failures == old(remote.failures) + if r == Sent(Failed) then 1 else 0
    ensures r.NoSuchOption? <==>
        exists w | w in AllWrites(changes) :: w.field !in options || w.value !in options[w.field]
    ensures r == Sent(ZeroBatchSize) <==> !r.NoSuchOption? && batchSize == 0
    ensures r.NoSuchOption? || r == Sent(ZeroBatchSize) ==> part == []
    ensures r.Sent? && r.outcome.Wrote? && batchSize > 0 ==> part == AllWrites(changes) && r.outcome.count == |part|
    ensures r.Sent? && r.outcome.Failed? ==> exists n: nat ::
        WholeBatchesThenPart(part, AllWrites(changes), batchSize, n)
    ensures forall w | w in part :: w in AllWrites(changes)
  {
    part := [];
    var writes := BuildWrites(options, changes);
    if writes.None? {
      return NoSuchOption, [];
    }
    var outcome;
    outcome, part := WriteInBatches(remote, writes.value, batchSize);
    r := Sent(outcome);
  }

  lemma {:induction false} OfPrefix(changes: seq<Change>, i: nat)
    requires i < |changes|
    ensures forall w | w in WritesOf(changes[i]) :: w in AllWrites(changes)
  {
    if i > 0 {
      OfPrefix(changes[1..], i - 1);
    }
  }

  // ---- the board after writes landed ----

  function Land(board: Board, w: Write): Board {
    if w.number !in board then board
    else
      var item := board[w.number];
      board[w.number := if w.field.Status? then item.(status := Some(w.value)) else item.(priority := Some(w.value))]
  }

  function LandAll(board: Board, ws: seq<Write>): Board {
    if ws == [] then board else LandAll(Land(board, ws[0]), ws[1..])
  }

  function At(item: Item, field: Field): Option<string> {
    if field.Status? then item.status else item.priority
  }

  predicate Targets(w: Write, number: int, field: Field) {
    w.number == number && w.field == field
  }

  ghost function LandedAt(board: Board, ws: seq<Write>, number: int, field: Field, value: string): Option<string>
    requires number in board
  {
    if exists w | w in ws :: Targets(w, number, field) then Some(value) else At(board[number], field)
  }

  /** Where all the writes that landed agree, their value is what the board shows. */
  lemma {:induction false} LandedValue(board: Board, ws: seq<Write>, number: int, field: Field, value: string)
    requires forall w | w in ws && Targets(w, number, field) :: w.value == value
    ensures LandAll(board, ws).Keys == board.Keys
    ensures number in board ==> At(LandAll(board, ws)[number], field) == LandedAt(board, ws, number, field, value)
  {
    if ws != [] {
      LandedValue(Land(board, ws[0]), ws[1..], number, field, value);
      assert ws == [ws[0]] + ws[1..];
    }
  }

  // ---- planning again ----

  function EntryWrites(board: Board, e: Entry): seq<Write> {
    if e.number in board then Asked(Decide(board[e.number], e)) else []
  }

  /** What a plan would write. */
  function Writes(board: Board, entries: seq<Entry>): seq<Write> {
    if entries == [] then [] else EntryWrites(board, entries[0]) + Writes(board, entries[1..])
  }

  lemma {:induction false} PlanWrites(board: Board, entries: seq<Entry>)
    ensures AllWrites(PlanOf(board, entries).changes) == Writes(board, entries)
  {
    if entries != [] {
      PlanWrites(board, entries[1..]);
      var e, rest := entries[0], PlanOf(board, entries[1..]).changes;
      if e.number in board && Decide(board[e.number], e).Some? {
        var change := Decide(board[e.number], e).value;
        assert PlanOf(board, entries).changes == [change] + rest && ([change] + rest)[1..] == rest;
      }
    }
  }

  /** One decision for each number. */
  ghost predicate OneDecision(entries: seq<Entry>) {
    forall e, f | e in entries && f in entries && e.number == f.number :: e == f
  }

  lemma ConsistentIsOneDecision(r: Registry)
    requires Consistent(r)
    ensures OneDecision(r.Entries())
  {
    forall e, f | e in r.Entries() && f in r.Entries() && e.number == f.number ensures e == f {
      assert e.number !in Numbers(r.stays) * Numbers(r.parked);
      if e in r.stays {
        assert f in r.stays;
        DistinctSame(NumberOf, r.stays, e, f);
      } else {
        assert e.number in Numbers(r.parked) && e.Park? && f.Park?;
      }
    }
  }

  lemma {:induction false} WritesAreEntries(board: Board, entries: seq<Entry>, w: Write)
    requires w in Writes(board, entries)
    ensures exists e | e in entries :: w in EntryWrites(board, e)
  {
    if w in EntryWrites(board, entries[0]) {
    } else {
      WritesAreEntries(board, entries[1..], w);
    }
  }

  lemma NumberOfWrite(board: Board, e: Entry, w: Write)
    requires w in EntryWrites(board, e)
    ensures w.number == e.number
  {
  }

  /** Writes of a plan that concern an entry's number are that entry's writes. */
  lemma OwnWrites(board: Board, entries: seq<Entry>, e: Entry, w: Write)
    requires OneDecision(entries) && e in entries && w in Writes(board, entries) && w.number == e.number
    ensures w in EntryWrites(board, e)
  {
    WritesAreEntries(board, entries, w);
    var f :| f in entries && w in EntryWrites(board, f);
    NumberOfWrite(board, f, w);
  }

  lemma RestOfOne(w: Write, part: seq<Write>)
    ensures Rest([w], part) == if w in part then [] else [w]
  {
    var ws := [w];
    assert Select(ws[1..], Unlanded(part)) == [] && Unlanded(part)(ws[0]) == (w !in part);
  }

  lemma RestOfChange(c: Change, part: seq<Write>)
    ensures Rest(WritesOf(c), part) == WritesOf(Change(c.number,
              if c.status.Some? && Write(c.number, Status, c.status.value) in part then None else c.status,
              if c.priority.Some? && Write(c.number, Priority, c.priority.value) in part then None else c.priority))
  {
    var status := WritesOf(c.(priority := None));
    var priority := WritesOf(c.(status := None));
    SelectConcat(status, priority, Unlanded(part));
    if c.status.Some? { RestOfOne(status[0], part); }
    if c.priority.Some? { RestOfOne(priority[0], part); }
    assert WritesOf(c) == status + priority;
  }

  function StatusOf(e: Entry): string { if e.Stay? then STAYS_STATUS else PARKED_STATUS }

  function PriorityOf(e: Entry): string { if e.Stay? && e.priority.Some? then e.priority.value else "" }

  /** An item after the writes for its entry that landed. */
  lemma LandedItem(board: Board, e: Entry, part: seq<Write>)
    requires e.number in board
    requires forall w | w in part && w.number == e.number ::
               w == Write(e.number, Status, StatusOf(e)) || w == Write(e.number, Priority, PriorityOf(e))
    ensures e.number in LandAll(board, part)
    ensures LandAll(board, part)[e.number] ==
            Item(if Write(e.number, Status, StatusOf(e)) in part then Some(StatusOf(e)) else board[e.number].status,
                 if Write(e.number, Priority, PriorityOf(e)) in part
                 then Some(PriorityOf(e)) else board[e.number].priority)
  {
    LandedValue(board, part, e.number, Status, StatusOf(e));
    LandedValue(board, part, e.number, Priority, PriorityOf(e));
    assert (exists w | w in part :: Targets(w, e.number, Status)) <==> Write(e.number, Status, StatusOf(e)) in part by {
      assert Write(e.number, Status, StatusOf(e)) in part ==>
          Targets(Write(e.number, Status, StatusOf(e)), e.number, Status);
    }
    assert (exists w | w in part :: Targets(w, e.number, Priority))
        <==> Write(e.number, Priority, PriorityOf(e)) in part by {
      assert Write(e.number, Priority, PriorityOf(e)) in part ==>
          Targets(Write(e.number, Priority, PriorityOf(e)), e.number, Priority);
    }
  }

  function Asked(change: Option<Change>): seq<Write> {
    if change.None? then [] else WritesOf(change.value)
  }

  /** What is asked for again of an item on which some of what was asked for was done. */
  lemma DecideAgain(item: Item, e: Entry, status: bool, priority: bool)
    requires status ==> Write(e.number, Status, StatusOf(e)) in Asked(Decide(item, e))
    requires priority ==> Write(e.number, Priority, PriorityOf(e)) in Asked(Decide(item, e))
    ensures var after := Item(if status then Some(StatusOf(e)) else item.status,
                              if priority then Some(PriorityOf(e)) else item.priority);
            Asked(Decide(after, e)) ==
            match Decide(item, e)
            case None => []
            case Some(c) => WritesOf(Change(e.number, if status then None else c.status,
                if priority then None else c.priority))
  {
  }

  lemma AskedOf(item: Item, e: Entry, w: Write)
    requires w in Asked(Decide(item, e))
    ensures w == Write(e.number, Status, StatusOf(e)) || w == Write(e.number, Priority, PriorityOf(e))
  {
  }

  lemma DecidedWrites(item: Item, e: Entry)
    requires Decide(item, e).Some?
    ensures var c := Decide(item, e).value;
            && c.number == e.number && (c.status.Some? ==> c.status.value == StatusOf(e))
            && (c.priority.Some? ==> c.priority.value == PriorityOf(e))
            && (c.status.None? ==> Write(e.number, Status, StatusOf(e)) !in Asked(Decide(item, e)))
            && (c.priority.None? ==> Write(e.number, Priority, PriorityOf(e)) !in Asked(Decide(item, e)))
  {
  }

  /** Once some of an entry's writes landed, it asks for the others. */
  lemma EntryAgain(board: Board, e: Entry, part: seq<Write>)
    requires forall w | w in part && w.number == e.number :: w in EntryWrites(board, e)
    ensures EntryWrites(LandAll(board, part), e) == Rest(EntryWrites(board, e), part)
  {
    if e.number !in board {
      LandedKeys(board, part);
    } else {
      var item := board[e.number];
      forall w | w in part && w.number == e.number
        ensures w == Write(e.number, Status, StatusOf(e)) || w == Write(e.number, Priority, PriorityOf(e))
      {
        AskedOf(item, e, w);
      }
      LandedItem(board, e, part);
      var status, priority := Write(e.number, Status, StatusOf(e)) in part,
          Write(e.number, Priority, PriorityOf(e)) in part;
      DecideAgain(item, e, status, priority);
      if Decide(item, e).Some? {
        DecidedWrites(item, e);
        RestOfChange(Decide(item, e).value, part);
      }
    }
  }

  lemma {:induction false} EntriesAgain(board: Board, entries: seq<Entry>, part: seq<Write>)
    requires forall e, w | e in entries && w in part && w.number == e.number :: w in EntryWrites(board, e)
    ensures Writes(LandAll(board, part), entries) == Rest(Writes(board, entries), part)
  {
    if entries != [] {
      EntryAgain(board, entries[0], part);
      EntriesAgain(board, entries[1..], part);
      SelectConcat(EntryWrites(board, entries[0]), Writes(board, entries[1..]), Unlanded(part));
    }
  }

  /** Whichever writes of a plan landed, the next plan writes exactly the others, in the same order. */
  lemma ReplanIsTheRest(board: Board, registry: Registry, part: seq<Write>)
    requires Consistent(registry) && forall w | w in part :: w in Writes(board, registry.Entries())
    ensures Writes(LandAll(board, part), registry.Entries()) == Rest(Writes(board, registry.Entries()), part)
  {
    var entries := registry.Entries();
    ConsistentIsOneDecision(registry);
    forall e, w | e in entries && w in part && w.number == e.number ensures w in EntryWrites(board, e) {
      OwnWrites(board, entries, e, w);
    }
    EntriesAgain(board, entries, part);
  }

  // ---- convergence ----

  /** After everything landed nothing is left to write, and everything on the board is settled. */
  lemma ReplanIsNothing(board: Board, registry: Registry)
    requires Consistent(registry)
    ensures var entries := registry.Entries();
            var after := LandAll(board, Writes(board, entries));
            Writes(after, entries) == [] && PlanOf(after, entries).changes == []
  {
    var entries := registry.Entries();
    var ws := Writes(board, entries);
    ReplanIsTheRest(board, registry, ws);
    NothingLeft(ws);
    NothingToWrite(LandAll(board, ws), entries);
  }

  lemma {:induction false} NothingToWrite(board: Board, entries: seq<Entry>)
    ensures Writes(board, entries) == [] <==> PlanOf(board, entries).changes == []
  {
    if entries != [] {
      NothingToWrite(board, entries[1..]);
      var e := entries[0];
      assert e.number in board && Decide(board[e.number], e).Some? ==> EntryWrites(board, e) != [];
    }
  }

  /** However far the writes got, each entry is planned, settled or missing, and the missing ones are the same. */
  lemma {:induction false} PlanCounts(board: Board, after: Board, entries: seq<Entry>)
    requires after.Keys == board.Keys
    ensures PlanOf(after, entries).missing == PlanOf(board, entries).missing
    ensures PlanOf(after, entries).settled + |PlanOf(after, entries).changes| ==
            PlanOf(board, entries).settled + |PlanOf(board, entries).changes|
  {
    if entries != [] {
      PlanCounts(board, after, entries[1..]);
    }
  }

  /** What a planned write is aimed at. */
  lemma WriteAimed(board: Board, entries: seq<Entry>, w: Write)
    requires w in Writes(board, entries)
    ensures w.number in Numbers(entries) && w.number in board
    ensures w.field.Priority? ==> board[w.number].priority.None?
  {
    WritesAreEntries(board, entries, w);
    var e :| e in entries && w in EntryWrites(board, e);
    NumberOfWrite(board, e, w);
  }

  /** Where no write is aimed the board shows what it did. */
  lemma LandedElsewhere(board: Board, ws: seq<Write>, number: int, field: Field)
    requires number in board && forall w | w in ws :: !Targets(w, number, field)
    ensures number in LandAll(board, ws) && At(LandAll(board, ws)[number], field) == At(board[number], field)
  {
    LandedValue(board, ws, number, field, "");
  }

  /** No write of a plan touches a Priority that is set, or an issue the registry does not name. */
  lemma PriorityKept(board: Board, registry: Registry, part: seq<Write>, number: int)
    requires Consistent(registry) && forall w | w in part :: w in Writes(board, registry.Entries())
    requires number in board
    ensures number in LandAll(board, part)
    ensures board[number].priority.Some? ==> LandAll(board, part)[number].priority == board[number].priority
    ensures number !in Numbers(registry.Entries()) ==> LandAll(board, part)[number] == board[number]
  {
    forall w | w in part
      ensures w.number in Numbers(registry.Entries())
      ensures w.number == number && w.field.Priority? ==> board[number].priority.None?
    {
      WriteAimed(board, registry.Entries(), w);
    }
    LandedKeys(board, part);
    if board[number].priority.Some? {
      LandedElsewhere(board, part, number, Priority);
    }
    if number !in Numbers(registry.Entries()) {
      LandedElsewhere(board, part, number, Priority);
      LandedElsewhere(board, part, number, Status);
    }
  }

  lemma {:induction false} LandedKeys(board: Board, ws: seq<Write>)
    ensures LandAll(board, ws).Keys == board.Keys
  {
    if ws != [] {
      LandedKeys(Land(board, ws[0]), ws[1..]);
    }
  }

  /** No issue still to be parked is listed twice. */
  ghost predicate ParkedOnce(board: Board, parked: seq<Entry>) {
    forall i, j | 0 <= i < j < |parked| && parked[i] == parked[j] ::
      parked[i].number !in board || board[parked[i].number].status == Some(PARKED_STATUS)
  }

  /** No entry that asks for something is listed twice. */
  ghost predicate AskedOnce(board: Board, entries: seq<Entry>) {
    entries == [] || ((EntryWrites(board, entries[0]) == [] || entries[0] !in entries[1..])
        && AskedOnce(board, entries[1..]))
  }

  lemma NoRepeatConcat(s: seq<Write>, t: seq<Write>)
    ensures NoRepeat(s + t) <==> NoRepeat(s) && NoRepeat(t) && forall w | w in s :: w !in t
  {
    if NoRepeat(s + t) {
      forall i, j | 0 <= i < j < |s| ensures s[i] != s[j] { assert (s + t)[i] == s[i] && (s + t)[j] == s[j]; }
      forall i, j | 0 <= i < j < |t| ensures t[i] != t[j] {
        assert (s + t)[|s| + i] == t[i] && (s + t)[|s| + j] == t[j];
      }
      forall i, j | 0 <= i < |s| && 0 <= j < |t| ensures s[i] != t[j] {
        assert (s + t)[i] == s[i] && (s + t)[|s| + j] == t[j];
      }
      forall w | w in s ensures w !in t {
        var i :| 0 <= i < |s| && s[i] == w;
      }
    } else if NoRepeat(s) && NoRepeat(t) {
      var i, j :| 0 <= i < j < |s + t| && (s + t)[i] == (s + t)[j];
      if i < |s| <= j {
        assert s[i] in s && t[j - |s|] in t;
      }
    }
  }

  lemma {:induction false} NoRepeatIffAskedOnce(board: Board, entries: seq<Entry>)
    requires OneDecision(entries)
    ensures NoRepeat(Writes(board, entries)) <==> AskedOnce(board, entries)
  {
    if entries != [] {
      var e, rest := entries[0], entries[1..];
      NoRepeatIffAskedOnce(board, rest);
      NoRepeatConcat(EntryWrites(board, e), Writes(board, rest));
      assert NoRepeat(EntryWrites(board, e));
      forall w | w in EntryWrites(board, e) ensures w in Writes(board, rest) <==> e in rest {
        NumberOfWrite(board, e, w);
        if w in Writes(board, rest) {
          WritesAreEntries(board, rest, w);
          var f :| f in rest && w in EntryWrites(board, f);
          NumberOfWrite(board, f, w);
        }
        if e in rest {
          EntryIsWritten(board, rest, e, w);
        }
      }
      if EntryWrites(board, e) != [] {
        assert EntryWrites(board, e)[0] in EntryWrites(board, e);
      }
    }
  }

  lemma {:induction false} EntryIsWritten(board: Board, entries: seq<Entry>, e: Entry, w: Write)
    requires e in entries && w in EntryWrites(board, e)
    ensures w in Writes(board, entries)
  {
    if e != entries[0] {
      EntryIsWritten(board, entries[1..], e, w);
    }
  }

  lemma {:induction false} AskedOnceIffParkedOnce(board: Board, stays: seq<Entry>, parked: seq<Entry>)
    requires DistinctBy(NumberOf, stays) && (forall e | e in stays :: e.Stay?) && forall e | e in parked :: e.Park?
    ensures AskedOnce(board, stays + parked) <==> ParkedOnce(board, parked)
    decreases |stays| + |parked|
  {
    if stays != [] {
      var rest := stays[1..];
      assert (stays + parked)[1..] == rest + parked;
      AskedOnceIffParkedOnce(board, rest, parked);
      assert stays[0] in stays;
      assert stays[0] !in rest + parked;
    } else if parked != [] {
      assert stays + parked == parked;
      var rest := parked[1..];
      assert [] + rest == rest;
      AskedOnceIffParkedOnce(board, [], rest);
      ParkedOnceFirst(board, parked);
    }
  }

  lemma ParkedOnceFirst(board: Board, parked: seq<Entry>)
    requires parked != [] && forall e | e in parked :: e.Park?
    ensures ParkedOnce(board, parked) <==>
            (EntryWrites(board, parked[0]) == [] || parked[0] !in parked[1..]) && ParkedOnce(board, parked[1..])
  {
    var e, rest := parked[0], parked[1..];
    assert e in parked;
    assert EntryWrites(board, e) == [] <==> e.number !in board || board[e.number].status == Some(PARKED_STATUS);
    if ParkedOnce(board, parked) {
      forall i, j | 0 <= i < j < |rest| && rest[i] == rest[j]
        ensures rest[i].number !in board || board[rest[i].number].status == Some(PARKED_STATUS)
      {
        assert parked[i + 1] == rest[i] && parked[j + 1] == rest[j];
      }
      if e in rest {
        var j :| 0 <= j < |rest| && rest[j] == e;
        assert parked[j + 1] == e;
      }
    }
    if (EntryWrites(board, e) == [] || e !in rest) && ParkedOnce(board, rest) {
      forall i, j | 0 <= i < j < |parked| && parked[i] == parked[j]
        ensures parked[i].number !in board || board[parked[i].number].status == Some(PARKED_STATUS)
      {
        assert parked[j] == rest[j - 1];
        if i > 0 { assert parked[i] == rest[i - 1]; }
      }
    }
  }

  /** After every prefix of the writes the next plan is exactly the suffix, if and only if no pending parked
      issue is listed twice. */
  lemma SuffixIffParkedOnce(board: Board, registry: Registry)
    requires Consistent(registry)
    ensures var ws := Writes(board, registry.Entries());
            ParkedOnce(board, registry.parked) <==>
            forall k | 0 <= k <= |ws| :: Writes(LandAll(board, ws[..k]), registry.Entries()) == ws[k..]
  {
    var ws := Writes(board, registry.Entries());
    forall k | 0 <= k <= |ws| ensures Writes(LandAll(board, ws[..k]), registry.Entries()) == Rest(ws, ws[..k]) {
      ReplanIsTheRest(board, registry, ws[..k]);
    }
    SuffixIffNoRepeat(ws);
    ConsistentIsOneDecision(registry);
    NoRepeatIffAskedOnce(board, registry.Entries());
    AskedOnceIffParkedOnce(board, registry.stays, registry.parked);
  }

  /** Were a number in both lists, no board that has it would ever be settled. */
  lemma OverlapNeverSettles(board: Board, entries: seq<Entry>, number: int, priority: Option<string>)
    requires number in board && Stay(number, priority) in entries && Park(number) in entries
    ensures Writes(board, entries) != []
  {
    var e := if board[number].status == Some(STAYS_STATUS) then Park(number) else Stay(number, priority);
    EntryIsWritten(board, entries, e, EntryWrites(board, e)[0]);
  }

  /** Plan and apply: wherever it stopped, the next plan is what did not land. */
  method Sweep(remote: Remote<Write>, board: Board, registry: Registry, options: Options, batchSize: int)
    returns (r: Sent, ghost part: seq<Write>)
    requires Consistent(registry)
    modifies remote
    ensures remote.landed == old(remote.landed) + part
    ensures Writes(LandAll(board, part), registry.Entries()) == Rest(Writes(board, registry.Entries()), part)
    ensures r.Sent? && r.outcome.Wrote? && batchSize > 0 ==>
        PlanOf(LandAll(board, part), registry.Entries()).changes == []
    ensures r.NoSuchOption? <==> exists w | w in Writes(board, registry.Entries()) ::
        w.field !in options || w.value !in options[w.field]
    ensures r.NoSuchOption? ==> part == []
    ensures remote.failures == old(remote.failures) + if r == Sent(Failed) then 1 else 0
    ensures r == Sent(ZeroBatchSize) <==> !r.NoSuchOption? && batchSize == 0
  {
    var p := MakePlan(board, registry);
    PlanWrites(board, registry.Entries());
    r, part := Apply(remote, options, p.changes, batchSize);
    ReplanIsTheRest(board, registry, part);
    ReplanIsNothing(board, registry);
  }

  /** An issue parked twice: after its first write, the next plan is empty and the suffix is not. */
  lemma ParkedTwice()
    ensures var board, registry := map[5 := Item(None, None)], Registry([], [Park(5), Park(5)]);
            var ws := Writes(board, registry.Entries());
            Consistent(registry) && exists k | 0 <= k <= |ws| ::
                Writes(LandAll(board, ws[..k]), registry.Entries()) != ws[k..]
  {
    var board, registry := map[5 := Item(None, None)], Registry([], [Park(5), Park(5)]);
    assert registry.parked[0] == registry.parked[1] && !ParkedOnce(board, registry.parked);
    SuffixIffParkedOnce(board, registry);
  }
}
