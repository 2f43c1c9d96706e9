/** delivery_health.py `reaches_delivery`: a search through files that call one another, each path remembering the
    keys it entered, against chains of calls of any shape. */
module CallGraph {
  import opened Values

  /** What one step does: publish, promote, call a file. */
  datatype Act = Act(publishes: bool, promotes: bool, call: Option<string>)

  /** How files are read: the acts of their steps in order, and the key of a reference. */
  datatype View<!W> = View(acts: W -> seq<Act>, key: string -> string)

  /** The references that resolve to a file, and what each resolves to. */
  type Resolver<W> = map<string, W>

  // ---- the search ----

  function Unvisited<W>(v: View<W>, resolve: Resolver<W>, seen: set<string>): set<string> {
    (set u | u in resolve :: v.key(u)) - seen
  }

  /** Marking the key of a resolving call leaves fewer keys unvisited. */
  lemma Marks<W>(v: View<W>, resolve: Resolver<W>, seen: set<string>, uses: string)
    requires uses in resolve && v.key(uses) !in seen
    ensures Unvisited(v, resolve, seen + {v.key(uses)}) < Unvisited(v, resolve, seen)
  {
    assert v.key(uses) in Unvisited(v, resolve, seen);
  }

  predicate Reaches<W>(v: View<W>, w: W, resolve: Resolver<W>, seen: set<string>)
    decreases Unvisited(v, resolve, seen), 1
  {
    exists act | act in v.acts(w) :: ActReaches(v, act, resolve, seen)
  }

  /** A call of a file on the path passes over the whole step. */
  predicate ActReaches<W>(v: View<W>, act: Act, resolve: Resolver<W>, seen: set<string>)
    decreases Unvisited(v, resolve, seen), 0
  {
    if act.publishes then true
    else if act.call.Some? && v.key(act.call.value) in seen then false
    else if act.call.Some? && act.call.value in resolve && CallReaches(v, act.call.value, resolve, seen) then true
    else act.promotes
  }

  /** Following a call marks its key as seen on this path. */
  predicate CallReaches<W>(v: View<W>, uses: string, resolve: Resolver<W>, seen: set<string>)
    requires uses in resolve && v.key(uses) !in seen
    decreases Unvisited(v, resolve, seen), 0, 0
  {
    Marks(v, resolve, seen, uses);
    Reaches(v, resolve[uses], resolve, seen + {v.key(uses)})
  }

  lemma ActDecides<W>(v: View<W>, w: W, i: nat, resolve: Resolver<W>, seen: set<string>)
    requires i < |v.acts(w)|
    ensures ActReaches(v, v.acts(w)[i], resolve, seen) ==> Reaches(v, w, resolve, seen)
  {
    assert v.acts(w)[i] in v.acts(w);
  }

  /** The loop of the search, step by step. */
  method Search<W>(v: View<W>, w: W, resolve: Resolver<W>, seen: set<string>) returns (r: bool)
    ensures r == Reaches(v, w, resolve, seen)
    decreases Unvisited(v, resolve, seen)
  {
    var acts := v.acts(w);
    for i := 0 to |acts|
      invariant forall j | 0 <= j < i :: !ActReaches(v, acts[j], resolve, seen)
    {
      var act := acts[i];
      ActDecides(v, w, i, resolve, seen);
      if act.publishes {
        return true;
      }
      if act.call.Some? {
        var key := v.key(act.call.value);
        if key in seen {
          continue;
        }
        if act.call.value in resolve {
          Marks(v, resolve, seen, act.call.value);
          var found := Search(v, resolve[act.call.value], resolve, seen + {key});
          if found {
            assert CallReaches(v, act.call.value, resolve, seen);
            return true;
          }
        }
      }
      if act.promotes {
        assert ActReaches(v, act, resolve, seen);
        return true;
      }
    }
    return false;
  }

  // ---- chains of calls ----

  predicate Calls<W>(v: View<W>, w: W, uses: string) {
    exists act | act in v.acts(w) :: act.call == Some(uses)
  }

  /** The file a chain of calls leads to, if every call is made and resolves. */
  function Follow<W>(v: View<W>, w: W, resolve: Resolver<W>, chain: seq<string>): Option<W>
    decreases |chain|
  {
    if chain == [] then Some(w)
    else if Calls(v, w, chain[0]) && chain[0] in resolve then Follow(v, resolve[chain[0]], resolve, chain[1..])
    else None
  }

  function KeysOf<W>(v: View<W>, chain: seq<string>): set<string> {
    set u | u in chain :: v.key(u)
  }

  lemma KeysOfFirst<W>(v: View<W>, u: string, rest: seq<string>, seen: set<string>)
    ensures seen + KeysOf(v, [u] + rest) == seen + {v.key(u)} + KeysOf(v, rest)
  {
    assert u in [u] + rest;
    forall x | x in rest ensures x in [u] + rest {}
  }

  /** No file is entered twice, and none that was seen before. */
  predicate Simple<W>(v: View<W>, chain: seq<string>, seen: set<string>) {
    chain == [] || (v.key(chain[0]) !in seen && Simple(v, chain[1..], seen + {v.key(chain[0])}))
  }

  /** The step delivers, and is not passed over for calling a file already on the path. */
  predicate Delivers<W>(v: View<W>, act: Act, seen: set<string>) {
    act.publishes || (act.promotes && (act.call.Some? ==> v.key(act.call.value) !in seen))
  }

  predicate ChainDelivers<W>(v: View<W>, w: W, resolve: Resolver<W>, seen: set<string>, chain: seq<string>, act: Act) {
    var end := Follow(v, w, resolve, chain);
    end.Some? && Simple(v, chain, seen) && act in v.acts(end.value) && Delivers(v, act, seen + KeysOf(v, chain))
  }

  lemma {:induction false} ReachesGivesChain<W>(v: View<W>, w: W, resolve: Resolver<W>, seen: set<string>)
    returns (chain: seq<string>, act: Act)
    requires Reaches(v, w, resolve, seen)
    ensures ChainDelivers(v, w, resolve, seen, chain, act)
    decreases Unvisited(v, resolve, seen)
  {
    var a :| a in v.acts(w) && ActReaches(v, a, resolve, seen);
    if a.call.Some? && !a.publishes && a.call.value in resolve && CallReaches(v, a.call.value, resolve, seen) {
      var u := a.call.value;
      Marks(v, resolve, seen, u);
      var rest, last := ReachesGivesChain(v, resolve[u], resolve, seen + {v.key(u)});
      chain, act := [u] + rest, last;
      assert chain[1..] == rest;
      KeysOfFirst(v, u, rest, seen);
    } else {
      chain, act := [], a;
      assert seen + KeysOf(v, []) == seen;
    }
  }

  lemma {:induction false} ChainGivesReaches<W>(v: View<W>, w: W, resolve: Resolver<W>, seen: set<string>,
                                                chain: seq<string>, act: Act)
    requires ChainDelivers(v, w, resolve, seen, chain, act)
    ensures Reaches(v, w, resolve, seen)
    decreases |chain|
  {
    if chain == [] {
      assert ActReaches(v, act, resolve, seen);
    } else {
      var u, rest := chain[0], chain[1..];
      assert chain == [u] + rest;
      KeysOfFirst(v, u, rest, seen);
      ChainGivesReaches(v, resolve[u], resolve, seen + {v.key(u)}, rest, act);
      var a :| a in v.acts(w) && a.call == Some(u);
      assert ActReaches(v, a, resolve, seen);
    }
  }

  /** What the search answers, for every tree: a chain entering no file twice to a step that delivers and does not
      itself call a file of the chain. */
  lemma {:induction false} ReachesExactly<W>(v: View<W>, w: W, resolve: Resolver<W>, seen: set<string>)
    ensures Reaches(v, w, resolve, seen) <==> exists chain, act :: ChainDelivers(v, w, resolve, seen, chain, act)
  {
    if Reaches(v, w, resolve, seen) {
      var chain, act := ReachesGivesChain(v, w, resolve, seen);
    }
    if chain, act :| ChainDelivers(v, w, resolve, seen, chain, act) {
      ChainGivesReaches(v, w, resolve, seen, chain, act);
    }
  }

  // ---- against plain reachability ----

  /** A chain of calls, however it winds, leads to a step that publishes or promotes. */
  predicate Plainly<W>(v: View<W>, w: W, resolve: Resolver<W>, chain: seq<string>, act: Act) {
    var end := Follow(v, w, resolve, chain);
    end.Some? && act in v.acts(end.value) && (act.publishes || act.promotes)
  }

  ghost predicate GraphReaches<W>(v: View<W>, w: W, resolve: Resolver<W>) {
    exists chain, act :: Plainly(v, w, resolve, chain, act)
  }

  /** References with one key resolve to one file. */
  ghost predicate Coherent<W>(v: View<W>, resolve: Resolver<W>) {
    forall a, b | a in resolve && b in resolve && v.key(a) == v.key(b) :: resolve[a] == resolve[b]
  }

  /** No step both calls a file and promotes. */
  predicate OneThingPerStep<W>(v: View<W>, w: W) {
    forall act | act in v.acts(w) :: !(act.call.Some? && act.promotes)
  }

  lemma {:induction false} FollowJoin<W>(v: View<W>, w: W, resolve: Resolver<W>, a: seq<string>, b: seq<string>)
    ensures Follow(v, w, resolve, a + b) ==
            match Follow(v, w, resolve, a) case None => None case Some(end) => Follow(v, end, resolve, b)
    decreases |a|
  {
    if a == [] {
      assert a + b == b;
    } else {
      assert (a + b)[1..] == a[1..] + b;
      if Calls(v, w, a[0]) && a[0] in resolve {
        FollowJoin(v, resolve[a[0]], resolve, a[1..], b);
      }
    }
  }

  lemma {:induction false} FollowLast<W>(v: View<W>, w: W, resolve: Resolver<W>, chain: seq<string>)
    requires chain != [] && Follow(v, w, resolve, chain).Some?
    ensures chain[|chain| - 1] in resolve && Follow(v, w, resolve, chain) == Some(resolve[chain[|chain| - 1]])
    decreases |chain|
  {
    if |chain| > 1 {
      FollowLast(v, resolve[chain[0]], resolve, chain[1..]);
    }
  }

  /** A chain goes on from the file it entered last. */
  lemma FollowFrom<W>(v: View<W>, w: W, resolve: Resolver<W>, chain: seq<string>, i: nat)
    requires i < |chain| && Follow(v, w, resolve, chain).Some?
    ensures chain[i] in resolve && Follow(v, w, resolve, chain[..i + 1]) == Some(resolve[chain[i]])
    ensures Follow(v, w, resolve, chain) == Follow(v, resolve[chain[i]], resolve, chain[i + 1..])
  {
    assert chain == chain[..i + 1] + chain[i + 1..];
    FollowJoin(v, w, resolve, chain[..i + 1], chain[i + 1..]);
    FollowLast(v, w, resolve, chain[..i + 1]);
  }

  /** A file entered at `i` and again at `j` can be left, the first time, the way it was left the second time. */
  lemma CutLoop<W>(v: View<W>, w: W, resolve: Resolver<W>, chain: seq<string>, i: nat, j: nat)
    requires Follow(v, w, resolve, chain).Some? && i < j < |chain|
    requires chain[i] in resolve && chain[j] in resolve ==> resolve[chain[i]] == resolve[chain[j]]
    ensures Follow(v, w, resolve, chain[..i + 1] + chain[j + 1..]) == Follow(v, w, resolve, chain)
  {
    FollowFrom(v, w, resolve, chain, i);
    FollowFrom(v, w, resolve, chain, j);
    FollowJoin(v, w, resolve, chain[..i + 1], chain[j + 1..]);
  }

  predicate Distinct<W>(v: View<W>, chain: seq<string>) {
    forall i, j | 0 <= i < j < |chain| :: v.key(chain[i]) != v.key(chain[j])
  }

  lemma {:induction false} Shorten<W>(v: View<W>, w: W, resolve: Resolver<W>, chain: seq<string>)
    returns (short: seq<string>)
    requires Coherent(v, resolve) && Follow(v, w, resolve, chain).Some?
    ensures Follow(v, w, resolve, short) == Follow(v, w, resolve, chain) && Distinct(v, short)
    decreases |chain|
  {
    if Distinct(v, chain) {
      short := chain;
    } else {
      var i, j :| 0 <= i < j < |chain| && v.key(chain[i]) == v.key(chain[j]);
      CutLoop(v, w, resolve, chain, i, j);
      short := Shorten(v, w, resolve, chain[..i + 1] + chain[j + 1..]);
    }
  }

  lemma {:induction false} DistinctIsSimple<W>(v: View<W>, chain: seq<string>, seen: set<string>)
    requires Distinct(v, chain) && forall u | u in chain :: v.key(u) !in seen
    ensures Simple(v, chain, seen)
  {
    if chain != [] {
      forall u | u in chain[1..] ensures v.key(u) !in seen + {v.key(chain[0])} {
        var i :| 0 <= i < |chain[1..]| && chain[1..][i] == u;
        assert chain[i + 1] == u;
      }
      DistinctIsSimple(v, chain[1..], seen + {v.key(chain[0])});
    }
  }

  // ---- exactly when the two agree ----

  /** A chain that enters no file twice leads to a step that publishes or promotes. */
  predicate SimplyPlain<W>(v: View<W>, w: W, resolve: Resolver<W>, chain: seq<string>, act: Act) {
    Simple(v, chain, {}) && Plainly(v, w, resolve, chain, act)
  }

  /** The last step of a chain is not passed over: it publishes, or calls no file of the chain. */
  predicate Unskipped<W>(v: View<W>, chain: seq<string>, act: Act) {
    act.publishes || (act.call.Some? ==> v.key(act.call.value) !in KeysOf(v, chain))
  }

  lemma DeliversIff<W>(v: View<W>, w: W, resolve: Resolver<W>, chain: seq<string>, act: Act)
    ensures ChainDelivers(v, w, resolve, {}, chain, act)
        <==> SimplyPlain(v, w, resolve, chain, act) && Unskipped(v, chain, act)
  {
    assert {} + KeysOf(v, chain) == KeysOf(v, chain);
  }

  /** For every tree: the search agrees with reachability exactly when, if any chain leads to delivery, a chain that
      enters no file twice leads to a delivering step that is not passed over. */
  lemma {:induction false} AgreesIff<W>(v: View<W>, w: W, resolve: Resolver<W>)
    ensures (Reaches(v, w, resolve, {}) <==> GraphReaches(v, w, resolve)) <==>
            (GraphReaches(v, w, resolve) ==>
             exists chain, act :: SimplyPlain(v, w, resolve, chain, act) && Unskipped(v, chain, act))
  {
    ReachesExactly(v, w, resolve, {});
    forall chain, act
      ensures ChainDelivers(v, w, resolve, {}, chain, act) <==>
              SimplyPlain(v, w, resolve, chain, act) && Unskipped(v, chain, act)
    {
      DeliversIff(v, w, resolve, chain, act);
    }
    if chain, act :| SimplyPlain(v, w, resolve, chain, act) && Unskipped(v, chain, act) {
      assert Plainly(v, w, resolve, chain, act);
      assert ChainDelivers(v, w, resolve, {}, chain, act);
    }
  }

  /** Where a key names one file, winding chains add nothing: some simple chain leads where any does. */
  lemma {:induction false} SimpleChainsSuffice<W>(v: View<W>, w: W, resolve: Resolver<W>)
    requires Coherent(v, resolve)
    ensures GraphReaches(v, w, resolve) <==> exists chain, act :: SimplyPlain(v, w, resolve, chain, act)
  {
    if chain, act :| Plainly(v, w, resolve, chain, act) {
      var short := Shorten(v, w, resolve, chain);
      DistinctIsSimple(v, short, {});
      assert SimplyPlain(v, w, resolve, short, act);
    }
    if chain, act :| SimplyPlain(v, w, resolve, chain, act) {
      assert Plainly(v, w, resolve, chain, act);
    }
  }

  /** There only the passed-over step can part the search from reachability. */
  lemma {:induction false} CoherentAgreesIff<W>(v: View<W>, w: W, resolve: Resolver<W>)
    requires Coherent(v, resolve)
    ensures (Reaches(v, w, resolve, {}) <==> GraphReaches(v, w, resolve)) <==>
            ((exists chain, act :: SimplyPlain(v, w, resolve, chain, act)) ==>
             exists chain, act :: SimplyPlain(v, w, resolve, chain, act) && Unskipped(v, chain, act))
  {
    AgreesIff(v, w, resolve);
    SimpleChainsSuffice(v, w, resolve);
  }

  /** Where no step does two things, none is passed over that delivers. */
  lemma PlainIsUnskipped<W>(v: View<W>, w: W, resolve: Resolver<W>, chain: seq<string>, act: Act)
    requires OneThingPerStep(v, w) && forall u | u in resolve :: OneThingPerStep(v, resolve[u])
    requires Plainly(v, w, resolve, chain, act)
    ensures Unskipped(v, chain, act)
  {
    if chain != [] {
      FollowLast(v, w, resolve, chain);
    }
  }

  /** On a tree where a key names one file and no step does two things, the search is reachability. */
  lemma {:induction false} ReachesIsReachability<W>(v: View<W>, w: W, resolve: Resolver<W>)
    requires Coherent(v, resolve)
    requires OneThingPerStep(v, w) && forall u | u in resolve :: OneThingPerStep(v, resolve[u])
    ensures Reaches(v, w, resolve, {}) <==> GraphReaches(v, w, resolve)
  {
    CoherentAgreesIff(v, w, resolve);
    if chain, act :| SimplyPlain(v, w, resolve, chain, act) {
      PlainIsUnskipped(v, w, resolve, chain, act);
    }
  }

  // ---- why both conditions ----

  /** A single step that calls a file on the path finds nothing. */
  lemma CallSeen<W>(v: View<W>, w: W, resolve: Resolver<W>, seen: set<string>, uses: string, promotes: bool)
    requires v.acts(w) == [Act(false, promotes, Some(uses))] && v.key(uses) in seen
    ensures !Reaches(v, w, resolve, seen)
  {
    assert !ActReaches(v, Act(false, promotes, Some(uses)), resolve, seen);
  }

  /** A single step that only calls another file finds what that file finds. */
  lemma CallUnseen<W>(v: View<W>, w: W, resolve: Resolver<W>, seen: set<string>, uses: string)
    requires v.acts(w) == [Act(false, false, Some(uses))] && v.key(uses) !in seen && uses in resolve
    requires !Reaches(v, resolve[uses], resolve, seen + {v.key(uses)})
    ensures !Reaches(v, w, resolve, seen)
  {
    assert !CallReaches(v, uses, resolve, seen);
    assert !ActReaches(v, Act(false, false, Some(uses)), resolve, seen);
  }

  lemma CallPlainly<W>(v: View<W>, w: W, resolve: Resolver<W>, uses: string, chain: seq<string>, act: Act)
    requires Calls(v, w, uses) && uses in resolve && Plainly(v, resolve[uses], resolve, chain, act)
    ensures Plainly(v, w, resolve, [uses] + chain, act)
  {
    assert ([uses] + chain)[1..] == chain;
  }

  /** A step that calls a file already on the path is passed over whole: its own promotion is not seen. */
  lemma {:induction false} SkippedPromotion<W>(v: View<W>, w: W, a: W, resolve: Resolver<W>, uses: string)
    requires v.acts(w) == [Act(false, false, Some(uses))] && v.acts(a) == [Act(false, true, Some(uses))]
    requires resolve == map[uses := a]
    ensures Coherent(v, resolve) && GraphReaches(v, w, resolve) && !Reaches(v, w, resolve, {})
  {
    var act := v.acts(a)[0];
    assert Plainly(v, a, resolve, [], act);
    assert v.acts(w)[0] in v.acts(w);
    CallPlainly(v, w, resolve, uses, [], act);
    CallSeen(v, a, resolve, {} + {v.key(uses)}, uses, true);
    CallUnseen(v, w, resolve, {}, uses);
  }

  /** Two references with one key but two files, no step doing two things: the second file is never entered. */
  lemma {:induction false} SkippedFile<W>(v: View<W>, w: W, a: W, b: W, resolve: Resolver<W>, first: string,
        second: string)
    requires first != second && v.key(first) == v.key(second) && resolve == map[first := a, second := b]
    requires v.acts(w) == [Act(false, false, Some(first))] && v.acts(a) == [Act(false, false, Some(second))]
    requires v.acts(b) == [Act(false, true, None)]
    ensures OneThingPerStep(v, w) && OneThingPerStep(v, a) && OneThingPerStep(v, b)
    ensures GraphReaches(v, w, resolve) && !Reaches(v, w, resolve, {})
  {
    var act := v.acts(b)[0];
    assert Plainly(v, b, resolve, [], act);
    assert v.acts(w)[0] in v.acts(w) && v.acts(a)[0] in v.acts(a);
    CallPlainly(v, a, resolve, second, [], act);
    CallPlainly(v, w, resolve, first, [second] + [], act);
    CallSeen(v, a, resolve, {} + {v.key(first)}, second, false);
    CallUnseen(v, w, resolve, {}, first);
  }
}
