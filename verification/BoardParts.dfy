/** board_streams.py, parts: a sequencing ticket becomes the parent of the issues it orders. */
module BoardParts {
  import opened Values
  import opened Selection
  import opened Batches
  import opened Indexing
  import opened Keyed
  import opened Sequences

  /** An entry under `parts`: the parent and its children; None for a key or child that is no number. */
  type RawPart = (Option<int>, Option<seq<int>>)

  type Part = Group<int, int>

  // ---- the registry ----

  /** No child twice, under one parent or under two, and none its own parent. */
  ghost predicate WellOrdered(parts: seq<Part>) {
    KeysOnce(Pairs(parts)) && forall p | p in parts :: p.value !in p.keys
  }

  ghost predicate Numbers(raw: seq<RawPart>) {
    forall i | 0 <= i < |raw| :: raw[i].0.Some? && raw[i].1.Some?
  }

  ghost function AsParts(raw: seq<RawPart>): seq<Part>
    requires Numbers(raw)
  {
    seq(|raw|, i requires 0 <= i < |raw| => Group(raw[i].0.value, raw[i].1.value))
  }

  function ParentOf(p: Part): int { p.value }

  /** No later entry has the parent of entry `i`. */
  ghost predicate LastOf(listed: seq<Part>, i: nat)
    requires i < |listed|
  {
    forall j | i < j < |listed| :: listed[j].value != listed[i].value
  }

  /** What `parts` and `child_parent` are once the entries `listed` went in. */
  ghost predicate Loaded(parts: seq<Part>, childParent: map<int, int>, listed: seq<Part>) {
    && Indexes(childParent, Pairs(listed)) && (forall p | p in listed :: p.value !in p.keys)
    && DistinctBy(ParentOf, parts) && (forall p | p in parts :: p in listed)
    && (DistinctBy(ParentOf, listed) ==> parts == listed)
    && (forall i | 0 <= i < |listed| && LastOf(listed, i) :: listed[i] in parts)
  }

  method AddPart(parts: seq<Part>, childParent: map<int, int>, p: Part, ghost listed: seq<Part>)
    returns (r: Option<(seq<Part>, map<int, int>)>)
    requires Loaded(parts, childParent, listed)
    ensures r.Some? <==> KeysOnce(Pairs(listed + [p])) && p.value !in p.keys
    ensures r.Some? ==> Loaded(r.value.0, r.value.1, listed + [p])
  {
    assert (listed + [p])[..|listed|] == listed;
    var grown := AddGroup(childParent, p, c => c == p.value, Pairs(listed));
    if grown.None? {
      return None;
    }
    PutMembers(ParentOf, parts, p);
    PutDistinct(ParentOf, parts, p);
    if DistinctBy(ParentOf, listed + [p]) {
      DistinctBefore(ParentOf, listed, p);
    }
    forall i | 0 <= i <= |listed| && LastOf(listed + [p], i) ensures (listed + [p])[i] in Put(ParentOf, parts, p) {
      if i < |listed| {
        assert (listed + [p])[|listed|].value != (listed + [p])[i].value;
        forall j | i < j < |listed| ensures listed[j].value != listed[i].value {
          assert (listed + [p])[j].value != (listed + [p])[i].value;
        }
        assert LastOf(listed, i);
      }
    }
    r := Some((Put(ParentOf, parts, p), grown.value));
  }

  /** The `parts` loops of `load_registry`.  `childParent` sends every child to the parent that lists it. */
  method LoadParts(raw: seq<RawPart>) returns (r: Option<(seq<Part>, map<int, int>)>)
    ensures r.Some? <==>
        && (forall i | 0 <= i < |raw| :: raw[i].0.Some? && raw[i].1.Some?)
        && (forall g | 0 <= g < |raw| :: raw[g].0.value !in raw[g].1.value)
        && OnceEach(ChildLists(raw))
    ensures r.Some? <==> Numbers(raw) && WellOrdered(AsParts(raw))
    ensures r.Some? ==> Inverts(r.value.1, AsParts(raw)) && Loaded(r.value.0, r.value.1, AsParts(raw))
  {
    var parts: seq<Part>, childParent: map<int, int> := [], map[];
    if Numbers(raw) {
      WellOrderedIs(raw);
    }
    for i := 0 to |raw|
      invariant Numbers(raw[..i]) && Loaded(parts, childParent, AsParts(raw[..i]))
    {
      if raw[i].0.None? || raw[i].1.None? {
        return None;
      }
      var p := Group(raw[i].0.value, raw[i].1.value);
      AsPartsNext(raw, i);
      var added := AddPart(parts, childParent, p, AsParts(raw[..i]));
      if added.None? {
        if Numbers(raw) && WellOrdered(AsParts(raw)) {
          Refused(raw, i);
        }
        return None;
      }
      parts, childParent := added.value.0, added.value.1;
    }
    TakeAll(raw);
    IndexesInverts(childParent, AsParts(raw));
    r := Some((parts, childParent));
  }

  /** The lists of children as they stand in the file. */
  function ChildLists(raw: seq<RawPart>): seq<seq<int>> {
    seq(|raw|, i requires 0 <= i < |raw| => if raw[i].1.Some? then raw[i].1.value else [])
  }

  lemma {:induction false} WellOrderedIs(raw: seq<RawPart>)
    requires Numbers(raw)
    ensures WellOrdered(AsParts(raw)) <==>
        (forall g | 0 <= g < |raw| :: raw[g].0.value !in raw[g].1.value) && OnceEach(ChildLists(raw))
  {
    var parts := AsParts(raw);
    OnceIs(parts);
    assert KeysOf(parts) == ChildLists(raw);
    if forall p | p in parts :: p.value !in p.keys {
      forall g | 0 <= g < |raw| ensures raw[g].0.value !in raw[g].1.value {
        assert parts[g] in parts && parts[g] == Group(raw[g].0.value, raw[g].1.value);
      }
    }
  }

  lemma AsPartsNext(raw: seq<RawPart>, i: nat)
    requires i < |raw| && Numbers(raw[..i]) && raw[i].0.Some? && raw[i].1.Some?
    ensures Numbers(raw[..i + 1])
    ensures AsParts(raw[..i + 1]) == AsParts(raw[..i]) + [Group(raw[i].0.value, raw[i].1.value)]
  {
    assert forall k | 0 <= k < i :: raw[..i + 1][k] == raw[..i][k];
  }

  /** What is refused at entry `i` is refused of the whole. */
  lemma Refused(raw: seq<RawPart>, i: nat)
    requires Numbers(raw) && i < |raw|
    requires WellOrdered(AsParts(raw))
    ensures KeysOnce(Pairs(AsParts(raw[..i + 1]))) && AsParts(raw)[i].value !in AsParts(raw)[i].keys
  {
    PairsPrefix(AsParts(raw), i + 1);
    assert AsParts(raw)[..i + 1] == AsParts(raw[..i + 1]);
    assert AsParts(raw)[i] in AsParts(raw);
  }

  // ---- plan_parts ----

  datatype Ref = Ref(open: bool, parent: Option<int>)

  type Refs = map<int, Ref>

  datatype Link = Link(parent: int, child: int)

  datatype PartsPlan = PartsPlan(links: seq<Link>, linked: nat, conflicts: seq<(int, int, int)>, missing: seq<int>,
        closed: seq<int>)

  const NOTHING := PartsPlan([], 0, [], [], [])

  function Join(p: PartsPlan, q: PartsPlan): PartsPlan {
    PartsPlan(p.links + q.links, p.linked + q.linked, p.conflicts + q.conflicts, p.missing + q.missing,
        p.closed + q.closed)
  }

  function PlanChild(parent: int, child: int, refs: Refs): PartsPlan {
    if child !in refs then NOTHING.(missing := [child])
    else match refs[child].parent
      case None => NOTHING.(links := [Link(parent, child)])
      case Some(p) => if p == parent then NOTHING.(linked := 1) else NOTHING.(conflicts := [(child, p, parent)])
  }

  function PlanChildren(parent: int, children: seq<int>, refs: Refs): PartsPlan {
    if children == [] then NOTHING
    else Join(PlanChildren(parent, children[..|children| - 1], refs), PlanChild(parent, children[|children| - 1], refs))
  }

  function PlanPart(part: Part, refs: Refs): PartsPlan {
    if part.value !in refs then NOTHING.(missing := [part.value])
    else if !refs[part.value].open then NOTHING.(closed := [part.value])
    else PlanChildren(part.value, part.keys, refs)
  }

  function PlanOf(parts: seq<Part>, refs: Refs): PartsPlan {
    if parts == [] then NOTHING
    else Join(PlanOf(parts[..|parts| - 1], refs), PlanPart(parts[|parts| - 1], refs))
  }

  lemma PlanNext(before: PartsPlan, parent: int, children: seq<int>, j: nat, refs: Refs)
    requires j < |children|
    ensures Join(before, PlanChildren(parent, children[..j + 1], refs)) ==
            Join(Join(before, PlanChildren(parent, children[..j], refs)), PlanChild(parent, children[j], refs))
  {
    TakeNext(children, j);
  }

  /** The body of the inner loop. */
  method PlanOne(parent: int, child: int, refs: Refs, before: PartsPlan) returns (p: PartsPlan)
    ensures p == Join(before, PlanChild(parent, child, refs))
  {
    if child !in refs {
      p := before.(missing := before.missing + [child]);
    } else if refs[child].parent == Some(parent) {
      p := before.(linked := before.linked + 1);
    } else if refs[child].parent.None? {
      p := before.(links := before.links + [Link(parent, child)]);
    } else {
      p := before.(conflicts := before.conflicts + [(child, refs[child].parent.value, parent)]);
    }
  }

  /** The inner loop: one child of an open parent after another. */
  method PlanUnder(parent: int, children: seq<int>, refs: Refs, before: PartsPlan) returns (p: PartsPlan)
    ensures p == Join(before, PlanChildren(parent, children, refs))
  {
    p := before;
    for j := 0 to |children|
      invariant p == Join(before, PlanChildren(parent, children[..j], refs))
    {
      PlanNext(before, parent, children, j, refs);
      p := PlanOne(parent, children[j], refs, p);
    }
    TakeAll(children);
  }

  method PlanParts(parts: seq<Part>, refs: Refs) returns (p: PartsPlan)
    ensures p == PlanOf(parts, refs)
  {
    p := NOTHING;
    for i := 0 to |parts|
      invariant p == PlanOf(parts[..i], refs)
    {
      var part := parts[i];
      TakeNext(parts, i);
      if part.value !in refs {
        p := p.(missing := p.missing + [part.value]);
      } else if !refs[part.value].open {
        p := p.(closed := p.closed + [part.value]);
      } else {
        p := PlanUnder(part.value, part.keys, refs, p);
      }
    }
    TakeAll(parts);
  }

  // ---- the issues after links landed ----

  /** Were a child given a second parent, the second would replace the first. */
  function Land(refs: Refs, l: Link): Refs {
    if l.child in refs then refs[l.child := refs[l.child].(parent := Some(l.parent))] else refs
  }

  function LandAll(refs: Refs, links: seq<Link>): Refs {
    if links == [] then refs else LandAll(Land(refs, links[0]), links[1..])
  }

  lemma {:induction false} LandedParent(refs: Refs, links: seq<Link>, child: int, parent: int)
    requires forall l | l in links && l.child == child :: l.parent == parent
    ensures LandAll(refs, links).Keys == refs.Keys
    ensures child in refs ==> LandAll(refs, links)[child] ==
                              refs[child].(parent :=
                                if Link(parent, child) in links then Some(parent) else refs[child].parent)
    decreases |links|
  {
    if links != [] {
      assert links == [links[0]] + links[1..];
      LandedParent(Land(refs, links[0]), links[1..], child, parent);
    }
  }

  lemma {:induction false} LandedOpen(refs: Refs, links: seq<Link>)
    ensures LandAll(refs, links).Keys == refs.Keys
    ensures forall n | n in refs :: LandAll(refs, links)[n].open == refs[n].open
    decreases |links|
  {
    if links != [] {
      LandedOpen(Land(refs, links[0]), links[1..]);
    }
  }

  // ---- planning again ----

  /** A plan of which the links in `part` became linked. */
  ghost predicate Advanced(p: PartsPlan, q: PartsPlan, part: seq<Link>) {
    && q.links == Rest(p.links, part) && q.linked + |q.links| == p.linked + |p.links|
    && q.conflicts == p.conflicts && q.missing == p.missing && q.closed == p.closed
  }

  lemma AdvancedJoin(a: PartsPlan, a': PartsPlan, b: PartsPlan, b': PartsPlan, part: seq<Link>)
    requires Advanced(a, a', part) && Advanced(b, b', part)
    ensures Advanced(Join(a, b), Join(a', b'), part)
  {
    SelectConcat(a.links, b.links, Unlanded(part));
  }

  /** Landed links that concern a child were planned for it under this parent, while it had none. */
  ghost predicate Belongs(parent: int, child: int, refs: Refs, part: seq<Link>) {
    forall l | l in part && l.child == child :: l.parent == parent && child in refs && refs[child].parent.None?
  }

  lemma ChildAgain(parent: int, child: int, refs: Refs, part: seq<Link>)
    requires Belongs(parent, child, refs, part)
    ensures Advanced(PlanChild(parent, child, refs), PlanChild(parent, child, LandAll(refs, part)), part)
  {
    LandedParent(refs, part, child, parent);
    var links := PlanChild(parent, child, refs).links;
    if links != [] {
      assert Select(links[1..], Unlanded(part)) == [] && Unlanded(part)(links[0]) == (links[0] !in part);
    }
  }

  lemma {:induction false} ChildrenAgain(parent: int, children: seq<int>, refs: Refs, part: seq<Link>)
    requires forall c | c in children :: Belongs(parent, c, refs, part)
    ensures Advanced(PlanChildren(parent, children, refs), PlanChildren(parent, children, LandAll(refs, part)), part)
  {
    if children != [] {
      var before, last := children[..|children| - 1], children[|children| - 1];
      ChildrenAgain(parent, before, refs, part);
      ChildAgain(parent, last, refs, part);
      AdvancedJoin(PlanChildren(parent, before, refs), PlanChildren(parent, before, LandAll(refs, part)),
                   PlanChild(parent, last, refs), PlanChild(parent, last, LandAll(refs, part)), part);
    }
  }

  lemma {:induction false} PartsAgain(parts: seq<Part>, refs: Refs, part: seq<Link>)
    requires forall p, c | p in parts && c in p.keys :: Belongs(p.value, c, refs, part)
    ensures Advanced(PlanOf(parts, refs), PlanOf(parts, LandAll(refs, part)), part)
  {
    if parts != [] {
      var before, last := parts[..|parts| - 1], parts[|parts| - 1];
      PartsAgain(before, refs, part);
      LandedOpen(refs, part);
      ChildrenAgain(last.value, last.keys, refs, part);
      AdvancedJoin(PlanOf(before, refs), PlanOf(before, LandAll(refs, part)),
                   PlanPart(last, refs), PlanPart(last, LandAll(refs, part)), part);
    }
  }

  // ---- completeness ----

  /** Exactly the declared links between issues that exist, to an open parent, of a child without one, are planned. */
  lemma {:induction false} PlannedIff(parts: seq<Part>, refs: Refs, l: Link)
    ensures l in PlanOf(parts, refs).links <==>
            && (exists p | p in parts :: p.value == l.parent && l.child in p.keys)
            && l.parent in refs && refs[l.parent].open && l.child in refs && refs[l.child].parent.None?
  {
    if parts != [] {
      var before, last := parts[..|parts| - 1], parts[|parts| - 1];
      assert parts == before + [last];
      PlannedIff(before, refs, l);
      if last.value in refs && refs[last.value].open {
        ChildrenPlannedIff(last.value, last.keys, refs, l);
      }
    }
  }

  lemma {:induction false} ChildrenPlannedIff(parent: int, children: seq<int>, refs: Refs, l: Link)
    ensures l in PlanChildren(parent, children, refs).links <==>
            l.parent == parent && l.child in children && l.child in refs && refs[l.child].parent.None?
  {
    if children != [] {
      var before, last := children[..|children| - 1], children[|children| - 1];
      assert children == before + [last];
      ChildrenPlannedIff(parent, before, refs, l);
    }
  }

  /** The plan of a list of parts is the plans of its parts one after another; so is that of a list of children. */
  lemma {:induction false} PlanJoins(a: seq<Part>, b: seq<Part>, refs: Refs)
    ensures var p, q, r := PlanOf(a, refs), PlanOf(b, refs), PlanOf(a + b, refs);
            && r.links == p.links + q.links && r.conflicts == p.conflicts + q.conflicts
            && r.missing == p.missing + q.missing && r.closed == p.closed + q.closed
            && r.linked == p.linked + q.linked
    decreases |b|
  {
    if b == [] {
      assert a + b == a;
    } else {
      var before, last := b[..|b| - 1], b[|b| - 1];
      assert (a + b)[..|a + b| - 1] == a + before && (a + b)[|a + b| - 1] == last;
      PlanJoins(a, before, refs);
      JoinAssociates(PlanOf(a, refs), PlanOf(before, refs), PlanPart(last, refs));
    }
  }

  lemma JoinAssociates(p: PartsPlan, q: PartsPlan, r: PartsPlan)
    ensures Join(Join(p, q), r) == Join(p, Join(q, r))
  {
    assert p.links + q.links + r.links == p.links + (q.links + r.links);
    assert p.conflicts + q.conflicts + r.conflicts == p.conflicts + (q.conflicts + r.conflicts);
    assert p.missing + q.missing + r.missing == p.missing + (q.missing + r.missing);
    assert p.closed + q.closed + r.closed == p.closed + (q.closed + r.closed);
  }

  lemma ChildrenJoin(parent: int, a: seq<int>, b: seq<int>, refs: Refs)
    requires parent in refs && refs[parent].open
    ensures var p, q, r := PlanOf([Group(parent, a)], refs), PlanOf([Group(parent, b)], refs),
              PlanOf([Group(parent, a + b)], refs);
            && r.links == p.links + q.links && r.conflicts == p.conflicts + q.conflicts
            && r.missing == p.missing + q.missing && r.closed == p.closed + q.closed
            && r.linked == p.linked + q.linked
  {
    OnePart(Group(parent, a), refs);
    OnePart(Group(parent, b), refs);
    OnePart(Group(parent, a + b), refs);
    PlanChildrenJoin(parent, a, b, refs);
  }

  lemma OnePart(part: Part, refs: Refs)
    ensures PlanOf([part], refs) == PlanPart(part, refs)
  {
    assert [part][..0] == [];
    assert PlanOf([part], refs) == Join(PlanOf([part][..0], refs), PlanPart(part, refs));
  }

  lemma {:induction false} PlanChildrenJoin(parent: int, a: seq<int>, b: seq<int>, refs: Refs)
    ensures PlanChildren(parent, a + b, refs) == Join(PlanChildren(parent, a, refs), PlanChildren(parent, b, refs))
    decreases |b|
  {
    if b == [] {
      assert a + b == a;
    } else {
      var before, last := b[..|b| - 1], b[|b| - 1];
      assert (a + b)[..|a + b| - 1] == a + before && (a + b)[|a + b| - 1] == last;
      PlanChildrenJoin(parent, a, before, refs);
      JoinAssociates(PlanChildren(parent, a, refs), PlanChildren(parent, before, refs), PlanChild(parent, last, refs));
    }
  }

  /** The parent is open, and the child is listed under it. */
  ghost predicate Listed(parts: seq<Part>, refs: Refs, parent: int, child: int) {
    && parent in refs && refs[parent].open
    && exists p | p in parts :: p.value == parent && child in p.keys
  }

  /** Exactly the children that stand under another parent are conflicts. */
  lemma {:induction false} ConflictsAre(parts: seq<Part>, refs: Refs, child: int, current: int, declared: int)
    ensures (child, current, declared) in PlanOf(parts, refs).conflicts <==>
            && Listed(parts, refs, declared, child)
            && child in refs && refs[child].parent == Some(current) && current != declared
  {
    if parts != [] {
      var before, last := parts[..|parts| - 1], parts[|parts| - 1];
      assert parts == before + [last];
      ConflictsAre(before, refs, child, current, declared);
      if last.value in refs && refs[last.value].open {
        ChildConflictsAre(last.value, last.keys, refs, child, current, declared);
      }
    }
  }

  lemma {:induction false} ChildConflictsAre(parent: int, children: seq<int>, refs: Refs, child: int, current: int,
        declared: int)
    ensures (child, current, declared) in PlanChildren(parent, children, refs).conflicts <==>
            && declared == parent && child in children
            && child in refs && refs[child].parent == Some(current) && current != parent
  {
    if children != [] {
      var before, last := children[..|children| - 1], children[|children| - 1];
      assert children == before + [last];
      ChildConflictsAre(parent, before, refs, child, current, declared);
    }
  }

  /** An issue is missing if it is not there: a parent, or a child under an open parent.  A closed parent is reported
      and its children are not looked at. */
  lemma {:induction false} MissingAndClosedAre(parts: seq<Part>, refs: Refs, n: int)
    ensures n in PlanOf(parts, refs).missing <==>
            n !in refs && ((exists p | p in parts :: p.value == n) || exists q :: Listed(parts, refs, q, n))
    ensures n in PlanOf(parts, refs).closed <==>
            n in refs && !refs[n].open && exists p | p in parts :: p.value == n
  {
    if parts != [] {
      var before, last := parts[..|parts| - 1], parts[|parts| - 1];
      assert parts == before + [last];
      MissingAndClosedAre(before, refs, n);
      forall q ensures Listed(parts, refs, q, n) <==>
          Listed(before, refs, q, n) || (q == last.value && n in last.keys && q in refs && refs[q].open) {
      }
      if last.value in refs && refs[last.value].open {
        ChildMissingAre(last.value, last.keys, refs, n);
        assert n in last.keys ==> Listed(parts, refs, last.value, n);
      }
    }
  }

  lemma {:induction false} ChildMissingAre(parent: int, children: seq<int>, refs: Refs, n: int)
    ensures n in PlanChildren(parent, children, refs).missing <==> n in children && n !in refs
    ensures PlanChildren(parent, children, refs).closed == []
  {
    if children != [] {
      var before, last := children[..|children| - 1], children[|children| - 1];
      assert children == before + [last];
      ChildMissingAre(parent, before, refs, n);
    }
  }

  /** How many outcomes a plan has: one for a parent that is missing or closed, one for each child of any other. */
  function Outcomes(parts: seq<Part>, refs: Refs): nat {
    if parts == [] then 0
    else
      var last := parts[|parts| - 1];
      Outcomes(parts[..|parts| - 1], refs) +
      if last.value in refs && refs[last.value].open then |last.keys| else 1
  }

  /** So a listed child that is in none of the other lists is counted as linked. */
  lemma {:induction false} EveryChildOnce(parts: seq<Part>, refs: Refs)
    ensures var p := PlanOf(parts, refs);
            |p.links| + p.linked + |p.conflicts| + |p.missing| + |p.closed| == Outcomes(parts, refs)
  {
    if parts != [] {
      var last := parts[|parts| - 1];
      EveryChildOnce(parts[..|parts| - 1], refs);
      if last.value in refs && refs[last.value].open {
        ChildrenOnce(last.value, last.keys, refs);
      }
    }
  }

  lemma {:induction false} ChildrenOnce(parent: int, children: seq<int>, refs: Refs)
    ensures var p := PlanChildren(parent, children, refs);
            |p.links| + p.linked + |p.conflicts| + |p.missing| + |p.closed| == |children|
  {
    if children != [] {
      ChildrenOnce(parent, children[..|children| - 1], refs);
    }
  }

  // ---- one parent each ----

  /** What loading guarantees: no child under two parents. */
  ghost predicate OneParent(parts: seq<Part>) {
    forall p, q, c | p in parts && q in parts && c in p.keys && c in q.keys :: p.value == q.value
  }

  lemma WellOrderedOneParent(raw: seq<RawPart>, childParent: map<int, int>, parts: seq<Part>)
    requires Numbers(raw) && Inverts(childParent, AsParts(raw)) && forall p | p in parts :: p in AsParts(raw)
    ensures OneParent(parts)
  {
    forall p, q, c | p in parts && q in parts && c in p.keys && c in q.keys ensures p.value == q.value {
      assert childParent[c] == p.value;
      assert childParent[c] == q.value;
    }
  }

  /** Whichever links of a plan landed, the next plan adds exactly the others, in order; conflicts, missing
      issues and closed parents are the same, and what landed is counted as linked. */
  lemma ReplanIsTheRest(parts: seq<Part>, refs: Refs, part: seq<Link>)
    requires OneParent(parts) && forall l | l in part :: l in PlanOf(parts, refs).links
    ensures Advanced(PlanOf(parts, refs), PlanOf(parts, LandAll(refs, part)), part)
  {
    forall p, c | p in parts && c in p.keys ensures Belongs(p.value, c, refs, part) {
      forall l | l in part && l.child == c ensures l.parent == p.value && c in refs && refs[c].parent.None? {
        PlannedIff(parts, refs, l);
        var q :| q in parts && q.value == l.parent && l.child in q.keys;
      }
    }
    PartsAgain(parts, refs, part);
  }

  /** No parent is replaced, and a child that gets one gets the one declared for it. */
  lemma ParentsKept(parts: seq<Part>, refs: Refs, part: seq<Link>, child: int)
    requires OneParent(parts) && (forall l | l in part :: l in PlanOf(parts, refs).links) && child in refs
    ensures var after := LandAll(refs, part);
            && child in after
            && (refs[child].parent.Some? ==> after[child] == refs[child])
            && (after[child] != refs[child] ==> exists p | p in parts ::
                after[child].parent == Some(p.value) && child in p.keys)
  {
    LandedOpen(refs, part);
    forall l | l in part && l.child == child
      ensures refs[child].parent.None? && exists p | p in parts :: p.value == l.parent && child in p.keys
    {
      PlannedIff(parts, refs, l);
    }
    if l :| l in part && l.child == child {
      var p :| p in parts && p.value == l.parent && child in p.keys;
      forall m | m in part && m.child == child ensures m.parent == l.parent {
        PlannedIff(parts, refs, m);
        var q :| q in parts && q.value == m.parent && child in q.keys;
      }
      LandedParent(refs, part, child, l.parent);
    } else {
      LandedParent(refs, part, child, 0);
    }
  }

  // ---- apply_parts ----

  /** `apply_parts`: one request a link, stopping at the first that fails; that one may still have landed. */
  method ApplyParts(remote: Remote<Link>, links: seq<Link>) returns (added: Option<nat>, ghost part: seq<Link>)
    modifies remote
    ensures remote.landed == old(remote.landed) + part
    ensures part <= links && (added.Some? ==> added.value == |links| && part == links)
    ensures remote.failures == old(remote.failures) + if added.None? then 1 else 0
  {
    part := [];
    for i := 0 to |links|
      invariant part == links[..i] && remote.landed == old(remote.landed) + part
      invariant remote.failures == old(remote.failures)
    {
      var ok;
      ghost var landing;
      ok, landing := remote.MutateOne(links[i]);
      part := part + landing;
      TakeNext(links, i);
      assert links[..i] <= links;
      if !ok {
        return None, part;
      }
    }
    TakeAll(links);
    added := Some(|links|);
  }

  /** Plan and apply: wherever it stopped, the next plan is what did not land. */
  method LinkParts(remote: Remote<Link>, parts: seq<Part>, refs: Refs)
    returns (added: Option<nat>, ghost part: seq<Link>)
    requires OneParent(parts)
    modifies remote
    ensures remote.landed == old(remote.landed) + part
    ensures remote.failures == old(remote.failures) + if added.None? then 1 else 0
    ensures Advanced(PlanOf(parts, refs), PlanOf(parts, LandAll(refs, part)), part)
    ensures added.Some? ==> PlanOf(parts, LandAll(refs, part)).links == [] && added.value == |PlanOf(parts, refs).links|
  {
    var p := PlanParts(parts, refs);
    added, part := ApplyParts(remote, p.links);
    forall l | l in part ensures l in p.links {
      var i :| 0 <= i < |part| && part[i] == l;
      assert p.links[i] == l;
    }
    ReplanIsTheRest(parts, refs, part);
    NothingLeft(p.links);
  }
}
