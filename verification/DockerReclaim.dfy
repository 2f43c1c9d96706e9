/** docker_reclaim.py: which builders and volumes to remove, and removing them from a daemon that refuses
    to drop an attached volume. */
module DockerReclaim {
  import opened Values
  import opened Keyed
  import opened Ordering
  import opened Selection
  import opened Sequences

  const BUILDER_PREFIX := "buildx_buildkit_builder-"
  const DEFAULT_MIN_AGE_HOURS := 4

  /** Times are microseconds. */
  const HOUR := 3600 * 1000000

  datatype Container = Container(name: string, created: int, running: bool, volumes: seq<string>)

  datatype Plan = Plan(containers: seq<Container>, volumes: seq<string>,
                       keptContainers: seq<Container>, keptVolumes: seq<string>)

  function NameOf(c: Container): string { c.name }

  // ---- the plan ----

  /** `resolve_gate`: unset is not zero. */
  function ResolveGate(hours: Option<int>): (gate: int)
    ensures hours.None? ==> gate == 4
    ensures hours.Some? ==> gate == hours.value
  {
    match hours case None => DEFAULT_MIN_AGE_HOURS case Some(h) => h
  }

  predicate IsBuilder(c: Container) { BUILDER_PREFIX <= c.name }

  predicate Doomed(c: Container, now: int, gate: int) {
    IsBuilder(c) && now - c.created >= gate * HOUR
  }

  function DoomedNames(cs: seq<Container>, now: int, gate: int): set<string> {
    set c | c in cs && Doomed(c, now, gate) :: c.name
  }

  function Holders(cs: seq<Container>, v: string): set<string> {
    set c | c in cs && v in c.volumes :: c.name
  }

  function Survivors(cs: seq<Container>, v: string, now: int, gate: int): set<string> {
    Holders(cs, v) - DoomedNames(cs, now, gate)
  }

  function Dooms(now: int, gate: int): Container -> bool { c => Doomed(c, now, gate) }

  function Spares(now: int, gate: int): Container -> bool { c => IsBuilder(c) && !Doomed(c, now, gate) }

  function Frees(cs: seq<Container>, now: int, gate: int, reclaimable: string -> bool): string -> bool {
    v => reclaimable(v) && Survivors(cs, v, now, gate) == {}
  }

  function Retains(cs: seq<Container>, now: int, gate: int, reclaimable: string -> bool): string -> bool {
    v => reclaimable(v) && Survivors(cs, v, now, gate) != {}
  }

  function PlanOf(cs: seq<Container>, vs: seq<string>, now: int, gate: int, reclaimable: string -> bool): Plan {
    var sorted := Sort(NameOf, cs);
    var names := Sort(Itself, vs);
    Plan(Select(sorted, Dooms(now, gate)), Select(names, Frees(cs, now, gate, reclaimable)),
         Select(sorted, Spares(now, gate)), Select(names, Retains(cs, now, gate, reclaimable)))
  }

  function HeldIn(holders: map<string, set<string>>, v: string): set<string> {
    if v in holders then holders[v] else {}
  }

  /** The volumes of one container: `holders.setdefault(volume, set()).add(container.name)`. */
  method AddVolumes(before: map<string, set<string>>, c: Container) returns (holders: map<string, set<string>>)
    ensures forall v :: HeldIn(holders, v) == HeldIn(before, v) + if v in c.volumes then {c.name} else {}
    ensures forall v :: v in holders <==> v in before || v in c.volumes
  {
    holders := before;
    for j := 0 to |c.volumes|
      invariant forall v :: v in holders <==> v in before || v in c.volumes[..j]
      invariant forall v :: HeldIn(holders, v) == HeldIn(before, v) + if v in c.volumes[..j] then {c.name} else {}
    {
      var v := c.volumes[j];
      holders := holders[v := HeldIn(holders, v) + {c.name}];
      TakeNext(c.volumes, j);
    }
    TakeAll(c.volumes);
  }

  method CollectHolders(cs: seq<Container>) returns (holders: map<string, set<string>>)
    ensures forall v :: v in holders <==> exists c | c in cs :: v in c.volumes
    ensures forall v, name | v in holders ::
        name in holders[v] <==> exists c | c in cs :: c.name == name && v in c.volumes
  {
    holders := map[];
    for i := 0 to |cs|
      invariant forall v :: v in holders <==> exists c | c in cs[..i] :: v in c.volumes
      invariant forall v :: HeldIn(holders, v) == Holders(cs[..i], v)
    {
      holders := AddVolumes(holders, cs[i]);
      TakeNext(cs, i);
      forall v { HoldersAppend(cs[..i], cs[i], v); }
    }
    TakeAll(cs);
    assert forall v | v in holders :: holders[v] == HeldIn(holders, v);
  }

  lemma HoldersAppend(cs: seq<Container>, c: Container, v: string)
    ensures Holders(cs + [c], v) == Holders(cs, v) + if v in c.volumes then {c.name} else {}
  {
    assert forall d :: d in cs + [c] <==> d in cs || d == c;
  }

  lemma HoldersFound(cs: seq<Container>, holders: map<string, set<string>>)
    requires forall v :: v in holders <==> exists c | c in cs :: v in c.volumes
    requires forall v, name | v in holders ::
        name in holders[v] <==> exists c | c in cs :: c.name == name && v in c.volumes
    ensures forall v :: HeldIn(holders, v) == Holders(cs, v)
  {
  }

  /** A negative gate is refused; otherwise the loops fill the four lists of the plan. */
  method PlanReclaim(cs: seq<Container>, vs: seq<string>, now: int, gate: int, reclaimable: string -> bool)
    returns (r: Option<Plan>)
    ensures r == if gate < 0 then None else Some(PlanOf(cs, vs, now, gate, reclaimable))
  {
    if gate < 0 {
      return None;
    }
    var doomed, keptContainers := [], [];
    var sorted := Sort(NameOf, cs);
    for i := 0 to |sorted|
      invariant doomed == Select(sorted[..i], Dooms(now, gate))
      invariant keptContainers == Select(sorted[..i], Spares(now, gate))
    {
      var c := sorted[i];
      TakeNext(sorted, i);
      SelectAppend(sorted[..i], c, Dooms(now, gate));
      SelectAppend(sorted[..i], c, Spares(now, gate));
      if !(BUILDER_PREFIX <= c.name) {
        continue;
      }
      if now - c.created < gate * HOUR {
        keptContainers := keptContainers + [c];
        continue;
      }
      doomed := doomed + [c];
    }
    TakeAll(sorted);
    var doomedNames := set c | c in doomed :: c.name;
    DoomedAreNamed(cs, doomed, now, gate);
    var holders := CollectHolders(cs);
    HoldersFound(cs, holders);
    var volumes, keptVolumes := PlanVolumes(cs, vs, now, gate, reclaimable, holders, doomedNames);
    r := Some(Plan(doomed, volumes, keptContainers, keptVolumes));
  }

  lemma DoomedAreNamed(cs: seq<Container>, doomed: seq<Container>, now: int, gate: int)
    requires doomed == Select(Sort(NameOf, cs), Dooms(now, gate))
    ensures (set c | c in doomed :: c.name) == DoomedNames(cs, now, gate)
  {
    SameMembers(cs, Sort(NameOf, cs));
    SelectMembers(Sort(NameOf, cs), Dooms(now, gate));
  }

  method PlanVolumes(cs: seq<Container>, vs: seq<string>, now: int, gate: int, reclaimable: string -> bool,
      holders: map<string, set<string>>, doomedNames: set<string>)
    returns (volumes: seq<string>, keptVolumes: seq<string>)
    requires forall v :: HeldIn(holders, v) == Holders(cs, v)
    requires doomedNames == DoomedNames(cs, now, gate)
    ensures volumes == Select(Sort(Itself, vs), Frees(cs, now, gate, reclaimable))
    ensures keptVolumes == Select(Sort(Itself, vs), Retains(cs, now, gate, reclaimable))
  {
    volumes, keptVolumes := [], [];
    var names := Sort(Itself, vs);
    for i := 0 to |names|
      invariant volumes == Select(names[..i], Frees(cs, now, gate, reclaimable))
      invariant keptVolumes == Select(names[..i], Retains(cs, now, gate, reclaimable))
    {
      var v := names[i];
      TakeNext(names, i);
      SelectAppend(names[..i], v, Frees(cs, now, gate, reclaimable));
      SelectAppend(names[..i], v, Retains(cs, now, gate, reclaimable));
      if !reclaimable(v) {
        continue;
      }
      var survivors := HeldIn(holders, v) - doomedNames;
      if survivors != {} {
        keptVolumes := keptVolumes + [v];
        continue;
      }
      volumes := volumes + [v];
    }
    TakeAll(names);
  }

  // ---- what a plan is ----

  ghost predicate UniqueNames(cs: seq<Container>) {
    DistinctBy(NameOf, cs)
  }

  lemma SparedIsNotNamed(cs: seq<Container>, c: Container, now: int, gate: int)
    requires UniqueNames(cs) && c in cs
    ensures c.name in DoomedNames(cs, now, gate) <==> Doomed(c, now, gate)
  {
    forall d | d in cs && Doomed(d, now, gate) && d.name == c.name ensures d == c {
      DistinctSame(NameOf, cs, c, d);
    }
  }

  lemma PlanMembers(cs: seq<Container>, vs: seq<string>, now: int, gate: int, reclaimable: string -> bool)
    ensures var p := PlanOf(cs, vs, now, gate, reclaimable);
            && (forall c :: c in p.containers <==> c in cs && Doomed(c, now, gate))
            && (forall v :: v in p.volumes <==> v in vs && reclaimable(v) && Survivors(cs, v, now, gate) == {})
  {
    SameMembers(cs, Sort(NameOf, cs));
    SameMembers(vs, Sort(Itself, vs));
    SelectMembers(Sort(NameOf, cs), Dooms(now, gate));
    SelectMembers(Sort(Itself, vs), Frees(cs, now, gate, reclaimable));
  }

  /** A reclaimable volume goes exactly when every container attached to it goes. */
  lemma VolumesFollowContainers(cs: seq<Container>, vs: seq<string>, now: int, gate: int, reclaimable: string -> bool,
        v: string)
    requires UniqueNames(cs)
    ensures var p := PlanOf(cs, vs, now, gate, reclaimable);
            v in p.volumes <==> v in vs && reclaimable(v) && forall c | c in cs && v in c.volumes :: c in p.containers
  {
    PlanMembers(cs, vs, now, gate, reclaimable);
    var p := PlanOf(cs, vs, now, gate, reclaimable);
    if v in vs && reclaimable(v) && Survivors(cs, v, now, gate) == {} {
      forall c | c in cs && v in c.volumes ensures c in p.containers {
        assert c.name in Holders(cs, v) && c.name !in Survivors(cs, v, now, gate);
        SparedIsNotNamed(cs, c, now, gate);
      }
    }
  }

  lemma SortedSplit<T(!new)>(key: T -> string, s: seq<T>, all: T -> bool, a: T -> bool, b: T -> bool)
    requires forall x :: all(x) == (a(x) || b(x)) && !(a(x) && b(x))
    ensures multiset(Select(Sort(key, s), a)) + multiset(Select(Sort(key, s), b)) == multiset(Select(s, all))
    ensures forall x :: !(x in Select(Sort(key, s), a) && x in Select(Sort(key, s), b))
  {
    SelectSplits(s, all, a, b);
    SelectSort(key, s, a);
    SelectSort(key, s, b);
    SelectMembers(Sort(key, s), a);
    SelectMembers(Sort(key, s), b);
  }

  /** Every builder, and every reclaimable volume, is in exactly one of removed and kept. */
  lemma {:induction false} PlanAccountsForAll(cs: seq<Container>, vs: seq<string>, now: int, gate: int,
        reclaimable: string -> bool)
    ensures var p := PlanOf(cs, vs, now, gate, reclaimable);
            && multiset(p.containers) + multiset(p.keptContainers) == multiset(Select(cs, IsBuilder))
            && multiset(p.volumes) + multiset(p.keptVolumes) == multiset(Select(vs, reclaimable))
            && (forall c :: !(c in p.containers && c in p.keptContainers))
            && (forall v :: !(v in p.volumes && v in p.keptVolumes))
  {
    SortedSplit(NameOf, cs, IsBuilder, Dooms(now, gate), Spares(now, gate));
    SortedSplit(Itself, vs, reclaimable, Frees(cs, now, gate, reclaimable), Retains(cs, now, gate, reclaimable));
  }

  lemma HigherGateNames(cs: seq<Container>, now: int, gate: int, now': int, gate': int)
    requires now' <= now && gate <= gate'
    ensures forall c | Doomed(c, now', gate') :: Doomed(c, now, gate)
    ensures DoomedNames(cs, now', gate') <= DoomedNames(cs, now, gate)
  {
  }

  /** Raising the gate, or asking earlier, only spares more. */
  lemma HigherGateSpares(cs: seq<Container>, vs: seq<string>, reclaimable: string -> bool, now: int, gate: int,
        now': int, gate': int)
    requires now' <= now && gate <= gate'
    ensures var p, q := PlanOf(cs, vs, now, gate, reclaimable), PlanOf(cs, vs, now', gate', reclaimable);
            (forall c | c in q.containers :: c in p.containers) && (forall v | v in q.volumes :: v in p.volumes)
  {
    PlanMembers(cs, vs, now, gate, reclaimable);
    PlanMembers(cs, vs, now', gate', reclaimable);
    HigherGateNames(cs, now, gate, now', gate');
    forall v ensures Survivors(cs, v, now, gate) <= Survivors(cs, v, now', gate') {}
  }

  // ---- after some of it was carried out ----

  function NamedNot(gone: set<string>): Container -> bool { (c: Container) => c.name !in gone }

  function NotIn(gone: set<string>): string -> bool { v => v !in gone }

  function Without(cs: seq<Container>, gone: set<string>): seq<Container> {
    Select(cs, NamedNot(gone))
  }

  function Minus(vs: seq<string>, gone: set<string>): seq<string> {
    Select(vs, NotIn(gone))
  }

  lemma SurvivorsStay(cs: seq<Container>, gone: set<string>, v: string, now: int, gate: int)
    requires gone <= DoomedNames(cs, now, gate)
    ensures Survivors(Without(cs, gone), v, now, gate) == Survivors(cs, v, now, gate)
  {
    SelectMembers(cs, NamedNot(gone));
  }

  /** However much of a plan was carried out, planning again at the same instant plans exactly the rest. */
  lemma ReplanIsTheRest(cs: seq<Container>, vs: seq<string>, now: int, gate: int, reclaimable: string -> bool,
      goneNames: set<string>, goneVolumes: set<string>)
    requires UniqueNames(cs)
    requires goneNames <= DoomedNames(cs, now, gate)
    requires forall v | v in goneVolumes :: v in PlanOf(cs, vs, now, gate, reclaimable).volumes
    ensures var p := PlanOf(cs, vs, now, gate, reclaimable);
            PlanOf(Without(cs, goneNames), Minus(vs, goneVolumes), now, gate, reclaimable) ==
            Plan(Without(p.containers, goneNames), Minus(p.volumes, goneVolumes), p.keptContainers, p.keptVolumes)
  {
    ReplanContainers(cs, now, gate, goneNames);
    PlanMembers(cs, vs, now, gate, reclaimable);
    ReplanVolumes(cs, vs, now, gate, reclaimable, goneNames, goneVolumes);
  }

  lemma ReplanContainers(cs: seq<Container>, now: int, gate: int, gone: set<string>)
    requires UniqueNames(cs) && gone <= DoomedNames(cs, now, gate)
    ensures Select(Sort(NameOf, Without(cs, gone)), Dooms(now, gate))
        == Without(Select(Sort(NameOf, cs), Dooms(now, gate)), gone)
    ensures Select(Sort(NameOf, Without(cs, gone)), Spares(now, gate)) == Select(Sort(NameOf, cs), Spares(now, gate))
  {
    var sorted := Sort(NameOf, cs);
    SelectSort(NameOf, cs, NamedNot(gone));
    SelectSwap(sorted, NamedNot(gone), Dooms(now, gate), Dooms(now, gate));
    SameMembers(cs, sorted);
    forall c | c in sorted && Spares(now, gate)(c) ensures NamedNot(gone)(c) {
      SparedIsNotNamed(cs, c, now, gate);
    }
    SelectTwice(sorted, NamedNot(gone), Spares(now, gate), Spares(now, gate));
  }

  lemma ReplanVolumes(cs: seq<Container>, vs: seq<string>, now: int, gate: int, reclaimable: string -> bool,
      goneNames: set<string>, gone: set<string>)
    requires goneNames <= DoomedNames(cs, now, gate)
    requires forall v | v in gone :: Frees(cs, now, gate, reclaimable)(v)
    ensures Select(Sort(Itself, Minus(vs, gone)), Frees(Without(cs, goneNames), now, gate, reclaimable)) ==
            Minus(Select(Sort(Itself, vs), Frees(cs, now, gate, reclaimable)), gone)
    ensures Select(Sort(Itself, Minus(vs, gone)), Retains(Without(cs, goneNames), now, gate, reclaimable)) ==
            Select(Sort(Itself, vs), Retains(cs, now, gate, reclaimable))
  {
    var left := Without(cs, goneNames);
    forall v ensures Survivors(left, v, now, gate) == Survivors(cs, v, now, gate) {
      SurvivorsStay(cs, goneNames, v, now, gate);
    }
    var names := Sort(Itself, vs);
    SelectSort(Itself, vs, NotIn(gone));
    SelectSwap(names, NotIn(gone), Frees(left, now, gate, reclaimable), Frees(cs, now, gate, reclaimable));
    SelectTwice(names, NotIn(gone), Retains(left, now, gate, reclaimable), Retains(cs, now, gate, reclaimable));
  }

  /** After the whole of a plan, there is nothing left to plan. */
  lemma ReplanIsNothing(cs: seq<Container>, vs: seq<string>, now: int, gate: int, reclaimable: string -> bool)
    requires UniqueNames(cs)
    ensures var p := PlanOf(cs, vs, now, gate, reclaimable);
            var q := PlanOf(Without(cs, DoomedNames(cs, now, gate)), Minus(vs, set v | v in p.volumes), now, gate,
                reclaimable);
            q == Plan([], [], p.keptContainers, p.keptVolumes)
  {
    var p := PlanOf(cs, vs, now, gate, reclaimable);
    PlanMembers(cs, vs, now, gate, reclaimable);
    ReplanIsTheRest(cs, vs, now, gate, reclaimable, DoomedNames(cs, now, gate), set v | v in p.volumes);
    SelectNone(p.containers, NamedNot(DoomedNames(cs, now, gate)));
    SelectNone(p.volumes, NotIn(set v | v in p.volumes));
  }

  // ---- the plan outright ----

  /** Builders of the age go, younger ones are kept, and no other container is looked at. */
  lemma {:induction false} BuildersByAge(cs: seq<Container>, vs: seq<string>, now: int, gate: int,
        reclaimable: string -> bool, c: Container)
    ensures var p := PlanOf(cs, vs, now, gate, reclaimable);
            && (c in p.containers <==>
                c in cs && "buildx_buildkit_builder-" <= c.name && now - c.created >= gate * 3600000000)
            && (c in p.keptContainers <==>
                c in cs && "buildx_buildkit_builder-" <= c.name && now - c.created < gate * 3600000000)
  {
    PlanMembers(cs, vs, now, gate, reclaimable);
    SameMembers(cs, Sort(NameOf, cs));
    SelectMembers(Sort(NameOf, cs), Spares(now, gate));
  }

  /** A reclaimable volume goes if every container that mounts it is a builder of the age, and is kept otherwise. */
  lemma {:induction false} VolumesByHolders(cs: seq<Container>, vs: seq<string>, now: int, gate: int,
        reclaimable: string -> bool, v: string)
    requires UniqueNames(cs)
    ensures var p := PlanOf(cs, vs, now, gate, reclaimable);
            var free := forall c | c in cs && v in c.volumes ::
              "buildx_buildkit_builder-" <= c.name && now - c.created >= gate * 3600000000;
            && (v in p.volumes <==> v in vs && reclaimable(v) && free)
            && (v in p.keptVolumes <==> v in vs && reclaimable(v) && !free)
  {
    VolumesFollowContainers(cs, vs, now, gate, reclaimable, v);
    forall c | c in cs {
      BuildersByAge(cs, vs, now, gate, reclaimable, c);
    }
    PlanMembers(cs, vs, now, gate, reclaimable);
    SameMembers(vs, Sort(Itself, vs));
    SelectMembers(Sort(Itself, vs), Retains(cs, now, gate, reclaimable));
  }

  /** All four lists are in the order of their names. */
  lemma {:induction false} PlanSorted(cs: seq<Container>, vs: seq<string>, now: int, gate: int,
        reclaimable: string -> bool)
    ensures var p := PlanOf(cs, vs, now, gate, reclaimable);
            && Sorted(NameOf, p.containers) && Sorted(NameOf, p.keptContainers)
            && Sorted(Itself, p.volumes) && Sorted(Itself, p.keptVolumes)
  {
    SelectSort(NameOf, cs, Dooms(now, gate));
    SelectSort(NameOf, cs, Spares(now, gate));
    SelectSort(Itself, vs, Frees(cs, now, gate, reclaimable));
    SelectSort(Itself, vs, Retains(cs, now, gate, reclaimable));
    SortSorts(NameOf, Select(cs, Dooms(now, gate)));
    SortSorts(NameOf, Select(cs, Spares(now, gate)));
    SortSorts(Itself, Select(vs, Frees(cs, now, gate, reclaimable)));
    SortSorts(Itself, Select(vs, Retains(cs, now, gate, reclaimable)));
  }
}
