/** configuration.py `_deep_update` as a function, and the laws of layered configuration. */
module Layers {
  import opened Values

  function Merge(base: Value, over: Value): Value
    decreases over
  {
    if !over.Map? then over
    else
      var b := if base.Map? then base.m else map[];
      Map(map k | k in b.Keys + over.m.Keys ::
            if k in over.m then Merge(Child(base, k), over.m[k]) else b[k])
  }

  /** The upper layer decides wherever it speaks; elsewhere the lower one shows through. */
  lemma {:induction false} MergeResolves(base: Value, over: Value, p: Path)
    ensures Resolve(Merge(base, over), p) ==
            if Speaks(over, p) then Resolve(over, p) else Resolve(base, p)
    decreases |p|
  {
    if p != [] && over.Map? && p[0] in over.m {
      MergeResolves(Child(base, p[0]), over.m[p[0]], p[1..]);
    }
  }

  /** A mapping merged onto a leaf starts from nothing. */
  lemma MergeOntoLeaf(base: Value, over: Value)
    requires over.Map?
    ensures Merge(base, over) == Merge(if base.Map? then base else EMPTY, over)
  {
    assert !base.Map? ==> forall k :: Child(base, k) == Child(EMPTY, k);
  }

  /** An empty mapping on top keeps a mapping whole and replaces anything else. */
  lemma EmptyMappingOverrides(base: Value)
    ensures Merge(base, EMPTY) == if base.Map? then base else EMPTY
  {
  }

  lemma {:induction false} MergeOntoEmpty(over: Value)
    ensures Merge(EMPTY, over) == over
  {
    if over.Map? {
      forall k | k in over.m ensures Merge(EMPTY, over.m[k]) == over.m[k] {
        MergeOntoEmpty(over.m[k]);
      }
    }
  }

  /** Merging the same overrides again changes nothing. */
  lemma {:induction false} RemergeSame(base: Value, over: Value)
    ensures Merge(Merge(base, over), over) == Merge(base, over)
    decreases over
  {
    if over.Map? {
      forall k | k in over.m ensures Merge(Child(Merge(base, over), k), over.m[k]) == Merge(base, over).m[k] {
        RemergeSame(Child(base, k), over.m[k]);
      }
    }
  }

  // ---- any number of layers ----

  /** The layers merged one after another, the last on top. */
  function Fold(layers: seq<Value>): Value
    requires layers != []
    decreases |layers|
  {
    var last := layers[|layers| - 1];
    if |layers| == 1 then last else Merge(Fold(layers[..|layers| - 1]), last)
  }

  lemma {:induction false} SilentResolvesNothing(v: Value, p: Path)
    requires !Speaks(v, p)
    ensures Resolve(v, p) == None && Get(v, p) == None
    decreases |p|
  {
    if p[0] in v.m {
      SilentResolvesNothing(v.m[p[0]], p[1..]);
    }
  }

  lemma FoldLast(layers: seq<Value>, p: Path)
    requires |layers| > 1
    ensures var last := layers[|layers| - 1];
            Resolve(Fold(layers), p) ==
                if Speaks(last, p) then Resolve(last, p) else Resolve(Fold(layers[..|layers| - 1]), p)
  {
    MergeResolves(Fold(layers[..|layers| - 1]), layers[|layers| - 1], p);
  }

  lemma {:induction false} FoldSilent(layers: seq<Value>, p: Path)
    requires layers != [] && forall i | 0 <= i < |layers| :: !Speaks(layers[i], p)
    ensures Resolve(Fold(layers), p) == None
    decreases |layers|
  {
    if |layers| == 1 {
      SilentResolvesNothing(layers[0], p);
    } else {
      FoldLast(layers, p);
      FoldSilent(layers[..|layers| - 1], p);
    }
  }

  /** Layer `i` speaks at `p`, and none after it does. */
  predicate LastToSpeak(layers: seq<Value>, p: Path, i: nat) {
    i < |layers| && Speaks(layers[i], p) && forall j | i < j < |layers| :: !Speaks(layers[j], p)
  }

  lemma {:induction false} FoldSpeaks(layers: seq<Value>, p: Path, i: nat)
    requires LastToSpeak(layers, p, i)
    ensures Resolve(Fold(layers), p) == Resolve(layers[i], p)
    decreases |layers|
  {
    if |layers| > 1 {
      FoldLast(layers, p);
      if i < |layers| - 1 {
        FoldSpeaks(layers[..|layers| - 1], p, i);
      }
    }
  }

  /** Every path reads as it does in the last layer that speaks there, whatever the layers hold. */
  lemma {:induction false} FoldResolves(layers: seq<Value>, p: Path)
    requires layers != []
    ensures forall i: nat | LastToSpeak(layers, p, i) :: Resolve(Fold(layers), p) == Resolve(layers[i], p)
    ensures (forall i | 0 <= i < |layers| :: !Speaks(layers[i], p)) ==> Resolve(Fold(layers), p) == None
  {
    forall i: nat | LastToSpeak(layers, p, i)
      ensures Resolve(Fold(layers), p) == Resolve(layers[i], p)
    {
      FoldSpeaks(layers, p, i);
    }
    if forall i | 0 <= i < |layers| :: !Speaks(layers[i], p) {
      FoldSilent(layers, p);
    }
  }

  lemma FoldNext(layers: seq<Value>, next: Value)
    requires layers != []
    ensures Fold(layers + [next]) == Merge(Fold(layers), next)
  {
    assert (layers + [next])[..|layers|] == layers;
  }

  // ---- when the grouping of layers does not matter ----

  /** Nothing of `a` shows once `c` is merged on top. */
  predicate Covers(c: Value, a: Value)
    decreases c
  {
    c.Map? && a.Map? ==> forall k | k in a.m :: k in c.m && Covers(c.m[k], a.m[k])
  }

  lemma {:induction false} CoversHides(c: Value, a: Value)
    ensures Covers(c, a) <==> Merge(a, c) == c
    decreases c
  {
    if c.Map? && a.Map? {
      forall k | k in c.m ensures k in a.m ==> (Covers(c.m[k], a.m[k]) <==> Merge(a.m[k], c.m[k]) == c.m[k])
        ensures k !in a.m ==> Merge(Child(a, k), c.m[k]) == c.m[k]
      {
        if k in a.m { CoversHides(c.m[k], a.m[k]); } else { MergeOntoEmpty(c.m[k]); }
      }
      assert Merge(a, c) == c ==> forall k | k in a.m :: k in Merge(a, c).m;
    } else if c.Map? {
      MergeOntoLeaf(a, c);
      MergeOntoEmpty(c);
    }
  }

  /** Wherever `b` puts a leaf between two mappings, `c` covers what `a` has there. */
  predicate Associates(a: Value, b: Value, c: Value)
    decreases c
  {
    c.Map? ==>
      if !b.Map? then Covers(c, a)
      else forall k | k in c.m && k in b.m :: Associates(Child(a, k), b.m[k], c.m[k])
  }

  lemma {:induction false} MergeAssociates(a: Value, b: Value, c: Value)
    ensures Merge(Merge(a, b), c) == Merge(a, Merge(b, c)) <==> Associates(a, b, c)
    decreases c
  {
    if c.Map? && !b.Map? {
      MergeOntoLeaf(b, c);
      MergeOntoEmpty(c);
      CoversHides(c, a);
    } else if c.Map? {
      var l, r := Merge(Merge(a, b), c), Merge(a, Merge(b, c));
      assert l.m.Keys == r.m.Keys;
      forall k | k in l.m
        ensures if k in c.m && k in b.m then l.m[k] == r.m[k] <==> Associates(Child(a, k), b.m[k], c.m[k])
                else l.m[k] == r.m[k]
      {
        if k in c.m && k in b.m {
          MergeAssociates(Child(a, k), b.m[k], c.m[k]);
        } else if k in c.m {
          MergeOntoEmpty(c.m[k]);
        }
      }
      assert l == r <==> forall k | k in l.m :: l.m[k] == r.m[k];
    }
  }

  /** No path is a mapping in one layer and a leaf in the other. */
  predicate SameShape(a: Value, b: Value)
    decreases a
  {
    && a.Map? == b.Map?
    && (a.Map? ==> forall k | k in a.m && k in b.m :: SameShape(a.m[k], b.m[k]))
  }

  /** The path is not a mapping in one layer and a leaf in the other. */
  ghost predicate AgreeAt(a: Value, b: Value, p: Path) {
    Get(a, p).Some? && Get(b, p).Some? ==> Get(a, p).value.Map? == Get(b, p).value.Map?
  }

  lemma {:induction false} SameShapeIs(a: Value, b: Value)
    ensures SameShape(a, b) <==> forall p :: AgreeAt(a, b, p)
    decreases a
  {
    if SameShape(a, b) {
      forall p ensures AgreeAt(a, b, p) {
        if p != [] && a.Map? && p[0] in a.m && p[0] in b.m {
          SameShapeIs(a.m[p[0]], b.m[p[0]]);
          assert AgreeAt(a.m[p[0]], b.m[p[0]], p[1..]);
        }
      }
    }
    if forall p :: AgreeAt(a, b, p) {
      assert AgreeAt(a, b, []);
      if a.Map? {
        forall k | k in a.m && k in b.m ensures SameShape(a.m[k], b.m[k]) {
          SameShapeIs(a.m[k], b.m[k]);
          forall p ensures AgreeAt(a.m[k], b.m[k], p) {
            assert AgreeAt(a, b, [k] + p) && ([k] + p)[1..] == p;
          }
        }
      }
    }
  }

  lemma {:induction false} SameShapeAssociates(a: Value, b: Value, c: Value)
    requires SameShape(b, c)
    ensures Merge(Merge(a, b), c) == Merge(a, Merge(b, c))
    decreases c
  {
    SameShapeGivesAssociates(a, b, c);
    MergeAssociates(a, b, c);
  }

  lemma {:induction false} SameShapeGivesAssociates(a: Value, b: Value, c: Value)
    requires SameShape(b, c)
    ensures Associates(a, b, c)
    decreases c
  {
    if c.Map? {
      forall k | k in c.m && k in b.m ensures Associates(Child(a, k), b.m[k], c.m[k]) {
        SameShapeGivesAssociates(Child(a, k), b.m[k], c.m[k]);
      }
    }
  }

  /** A leaf in the middle layer tells the two groupings apart. */
  lemma MergeIsNotAssociative()
    ensures var a, b, c := Map(map["k" := Map(map["x" := Int(1)])]), Map(map["k" := Int(5)]),
        Map(map["k" := Map(map["y" := Int(2)])]);
            Merge(Merge(a, b), c) != Merge(a, Merge(b, c))
  {
    var a, b, c := Map(map["k" := Map(map["x" := Int(1)])]), Map(map["k" := Int(5)]),
        Map(map["k" := Map(map["y" := Int(2)])]);
    MergeAssociates(a, b, c);
    assert !Covers(c.m["k"], a.m["k"]) by { assert "x" in a.m["k"].m && "x" !in c.m["k"].m; }
    assert !Associates(Child(a, "k"), b.m["k"], c.m["k"]);
    assert !Associates(a, b, c);
  }

  lemma SameShapeAt(a: Value, b: Value, p: Path)
    requires SameShape(a, b) && Get(a, p).Some? && Get(b, p).Some?
    ensures Get(a, p).value.Map? == Get(b, p).value.Map?
    decreases |p|
  {
  }

  // ---- what merging does to where a layer speaks ----

  /** `b` lays a mapping over a leaf that `a` has above `p`. */
  predicate Overlaid(a: Value, b: Value, p: Path) {
    p != [] && b.Map? && (!a.Map? || (p[0] in a.m && p[0] in b.m && Overlaid(a.m[p[0]], b.m[p[0]], p[1..])))
  }

  lemma {:induction false} MergeSpeaks(a: Value, b: Value, p: Path)
    ensures Speaks(Merge(a, b), p) <==> Speaks(b, p) || (Speaks(a, p) && !Overlaid(a, b, p))
    decreases |p|
  {
    if p != [] && b.Map? && p[0] in b.m {
      MergeSpeaks(Child(a, p[0]), b.m[p[0]], p[1..]);
    }
  }

  lemma {:induction false} OverlaidMutes(a: Value, b: Value, p: Path)
    requires Overlaid(a, b, p)
    ensures Speaks(a, p) && Resolve(a, p) == None
    decreases |p|
  {
    if a.Map? {
      OverlaidMutes(a.m[p[0]], b.m[p[0]], p[1..]);
    }
  }
}
