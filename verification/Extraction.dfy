/** credentials.py `extract_common_secrets`: what moving shared secrets does to what an environment reads. */
module Extraction {
  import opened Values
  import opened Layers
  import opened DottedKeys
  import opened Partition

  /** common.yaml, then {env}.yaml, then common.enc.yaml, then {env}.enc.yaml. */
  function Config(common: Value, env: Value, commonEnc: Value, envEnc: Value): Value {
    Fold([common, env, commonEnc, envEnc])
  }

  lemma ConfigNested(common: Value, env: Value, commonEnc: Value, envEnc: Value)
    ensures Config(common, env, commonEnc, envEnc) == Merge(Merge(Merge(common, env), commonEnc), envEnc)
  {
    FoldNext([common], env);
    FoldNext([common, env], commonEnc);
    FoldNext([common, env, commonEnc], envEnc);
    assert [common] + [env] == [common, env] && [common, env] + [commonEnc] == [common, env, commonEnc];
    assert [common, env, commonEnc] + [envEnc] == [common, env, commonEnc, envEnc];
  }

  /** The order of the files: the environment's secrets decide, then the common secrets, then the environment's values,
      then the common ones. */
  lemma {:induction false} Precedence(common: Value, env: Value, commonEnc: Value, envEnc: Value, q: Path)
    ensures Resolve(Config(common, env, commonEnc, envEnc), q) ==
            if Speaks(envEnc, q) then Resolve(envEnc, q)
            else if Speaks(commonEnc, q) then Resolve(commonEnc, q)
            else if Speaks(env, q) then Resolve(env, q)
            else Resolve(common, q)
  {
    ConfigNested(common, env, commonEnc, envEnc);
    MergeResolves(Merge(Merge(common, env), commonEnc), envEnc, q);
    MergeResolves(Merge(common, env), commonEnc, q);
    MergeResolves(common, env, q);
  }

  /** A leaf of the plain files at `q`, which common.enc.yaml used to hide with a leaf of its own above
      `q`, shows again: the shared part lays a mapping over that leaf, and the environment's own
      secrets say nothing at `q`. */
  predicate Resurfaces(plain: Value, commonEnc: Value, shared: Value, envEnc: Value, q: Path) {
    !Speaks(envEnc, q) && Overlaid(commonEnc, shared, q) && Resolve(plain, q).Some?
  }

  /** A leaf of the lower layers at `q` shows once the mapping without leaves that covered it is gone. */
  predicate Uncovered(lower: Value, shared: Value, envEnc: Value, q: Path) {
    && Get(envEnc, q).Some? && Prune(Get(envEnc, q).value) == EMPTY
    && !Speaks(shared, q) && Resolve(lower, q).Some?
  }

  /** After the first write: exactly the paths that resurface read differently. */
  lemma {:induction false} FirstWriteAt(plain: Value, commonEnc: Value, shared: Value, envEnc: Value, q: Path)
    requires Holds(shared, envEnc, SHARED)
    ensures Resolve(Merge(Merge(plain, Merge(commonEnc, shared)), envEnc), q)
         != Resolve(Merge(Merge(plain, commonEnc), envEnc), q)
        <==> Resurfaces(plain, commonEnc, shared, envEnc, q)
  {
    MergeResolves(Merge(plain, Merge(commonEnc, shared)), envEnc, q);
    MergeResolves(Merge(plain, commonEnc), envEnc, q);
    if !Speaks(envEnc, q) {
      LowerLayers(plain, commonEnc, shared, envEnc, q);
    }
  }

  /** Below the environment's secrets, where those and the shared part are silent. */
  lemma LowerLayers(plain: Value, commonEnc: Value, shared: Value, envEnc: Value, q: Path)
    requires Holds(shared, envEnc, SHARED) && !Speaks(envEnc, q)
    ensures !Speaks(shared, q)
    ensures Resolve(Merge(plain, Merge(commonEnc, shared)), q)
         == if Overlaid(commonEnc, shared, q) then Resolve(plain, q) else Resolve(Merge(plain, commonEnc), q)
    ensures Overlaid(commonEnc, shared, q) ==> Resolve(Merge(plain, commonEnc), q) == None
  {
    SharedApart();
    if Speaks(shared, q) {
      SharedSpeaks(envEnc, shared, SHARED, q);
    }
    MergeResolves(plain, Merge(commonEnc, shared), q);
    MergeResolves(plain, commonEnc, q);
    MergeResolves(commonEnc, shared, q);
    MergeSpeaks(commonEnc, shared, q);
    if Overlaid(commonEnc, shared, q) {
      OverlaidMutes(commonEnc, shared, q);
    }
  }

  /** A leaf of the environment's secrets is a leaf of one of the parts. */
  lemma LeafInParts(shared: Value, envOnly: Value, envEnc: Value, q: Path)
    requires Parts(envEnc, shared, envOnly) && Resolve(envEnc, q).Some?
    ensures Resolve(shared, q).Some? || Resolve(envOnly, q).Some?
  {
    SharedApart();
    SharedResolves(envEnc, shared, SHARED, q);
  }

  lemma LeafMakesSpeak(v: Value, q: Path, r: Path)
    requires Resolve(v, q + r).Some?
    ensures Speaks(v, q)
  {
    GetThrough(v, q, q + r);
    GotSpeaks(v, q);
  }

  lemma PrunedLeaf(v: Value, q: Path, r: Path)
    requires Resolve(v, q + r).Some?
    ensures Get(v, q).Some? && Prune(Get(v, q).value) != EMPTY
  {
    GetThrough(v, q, q + r);
    assert (q + r)[|q|..] == r;
    PruneResolves(Get(v, q).value, r);
  }

  /** Where the environment's own part still speaks nothing is uncovered. */
  lemma KeptCovers(shared: Value, envOnly: Value, envEnc: Value, q: Path)
    requires Parts(envEnc, shared, envOnly) && Speaks(envOnly, q) && q != [] && Get(envEnc, q).Some?
    ensures Prune(Get(envEnc, q).value) != EMPTY
  {
    var i := SpeaksHow(envOnly, q);
    if i < |q| {
      assert Resolve(envEnc, q[..i]).Some?;
      LeafAbove(envEnc, q, i);
    } else {
      assert q[..i] == q;
      if Resolve(envOnly, q).Some? {
        assert Resolve(envEnc, q).Some? && q + [] == q;
        PrunedLeaf(envEnc, q, []);
      } else {
        var r := LeafBelow(envOnly, q);
        assert Resolve(envEnc, q + r).Some?;
        PrunedLeaf(envEnc, q, r);
      }
    }
  }

  /** The environment's secrets speak where neither part does: at a mapping without leaves. */
  lemma BothSilent(shared: Value, envOnly: Value, envEnc: Value, q: Path)
    requires Parts(envEnc, shared, envOnly)
    requires Speaks(envEnc, q) && !Speaks(shared, q) && !Speaks(envOnly, q)
    ensures Get(envEnc, q).Some? && Prune(Get(envEnc, q).value) == EMPTY
  {
    var i := SpeaksHow(envEnc, q);
    if i < |q| {
      LeafInParts(shared, envOnly, envEnc, q[..i]);
      if Resolve(shared, q[..i]).Some? { LeafSpeaks(shared, q, i); } else { LeafSpeaks(envOnly, q, i); }
    } else {
      assert q[..i] == q;
      var v := Get(envEnc, q).value;
      if Prune(v) != EMPTY {
        PruneLeavesNoEmpty(v);
        var r := SomeLeaf(Prune(v));
        PruneResolves(v, r);
        GetThrough(envEnc, q, q + r);
        assert (q + r)[|q|..] == r;
        LeafInParts(shared, envOnly, envEnc, q + r);
        if Resolve(shared, q + r).Some? { LeafMakesSpeak(shared, q, r); } else { LeafMakesSpeak(envOnly, q, r); }
      }
    }
  }

  lemma SharedShows(plain: Value, commonEnc: Value, shared: Value, envEnc: Value, q: Path)
    requires Holds(shared, envEnc, SHARED) && envEnc.Map? && Speaks(shared, q)
    ensures Resolve(Merge(plain, Merge(commonEnc, shared)), q) == Resolve(envEnc, q)
  {
    SharedApart();
    MergeResolves(plain, Merge(commonEnc, shared), q);
    MergeResolves(commonEnc, shared, q);
    MergeSpeaks(commonEnc, shared, q);
    if q != [] {
      SharedSpeaks(envEnc, shared, SHARED, q);
    }
  }

  /** After the second write: the same paths, and those a leafless mapping no longer covers. */
  lemma SecondWriteAt(plain: Value, commonEnc: Value, shared: Value, envOnly: Value, envEnc: Value, q: Path)
    requires Parts(envEnc, shared, envOnly) && envEnc.Map?
    ensures Resolve(Merge(Merge(plain, Merge(commonEnc, shared)), envOnly), q)
         != Resolve(Merge(Merge(plain, commonEnc), envEnc), q)
        <==> Resurfaces(plain, commonEnc, shared, envEnc, q)
             || Uncovered(Merge(plain, Merge(commonEnc, shared)), shared, envEnc, q)
  {
    var lower := Merge(plain, Merge(commonEnc, shared));
    MergeResolves(lower, envOnly, q);
    MergeResolves(Merge(plain, commonEnc), envEnc, q);
    if Speaks(envOnly, q) {
      EnvSpeaks(envEnc, envOnly, SHARED, q);
      if Get(envEnc, q).Some? && q != [] {
        KeptCovers(shared, envOnly, envEnc, q);
      }
    } else {
      SilentBelow(plain, commonEnc, shared, envOnly, envEnc, q);
    }
  }

  lemma SilentBelow(plain: Value, commonEnc: Value, shared: Value, envOnly: Value, envEnc: Value, q: Path)
    requires Parts(envEnc, shared, envOnly) && envEnc.Map? && !Speaks(envOnly, q)
    ensures var lower := Merge(plain, Merge(commonEnc, shared));
            Resolve(lower, q) != (if Speaks(envEnc, q) then Resolve(envEnc, q) else Resolve(Merge(plain, commonEnc), q))
            <==> Resurfaces(plain, commonEnc, shared, envEnc, q) || Uncovered(lower, shared, envEnc, q)
  {
    if !Speaks(envEnc, q) {
      LowerLayers(plain, commonEnc, shared, envEnc, q);
      SilentResolvesNothing(envEnc, q);
    } else if Speaks(shared, q) {
      SharedShows(plain, commonEnc, shared, envEnc, q);
    } else {
      BothSilent(shared, envOnly, envEnc, q);
      assert Resolve(envEnc, q) == None;
    }
  }

  // ---- every path at once ----

  /** Consumers cannot tell the two configurations apart. */
  ghost predicate ReadAlike(a: Value, b: Value) {
    forall q :: Resolve(a, q) == Resolve(b, q)
  }

  /** With common.enc.yaml rewritten and the environment's file not yet, every path reads as before
      exactly when nothing resurfaces. */
  lemma {:induction false} FirstWritePreserves(common: Value, env: Value, commonEnc: Value, envEnc: Value,
        shared: Value)
    requires Holds(shared, envEnc, SHARED)
    ensures ReadAlike(Config(common, env, Merge(commonEnc, shared), envEnc), Config(common, env, commonEnc, envEnc))
        <==> forall q :: !Resurfaces(Merge(common, env), commonEnc, shared, envEnc, q)
  {
    var plain := Merge(common, env);
    ConfigNested(common, env, commonEnc, envEnc);
    ConfigNested(common, env, Merge(commonEnc, shared), envEnc);
    forall q { FirstWriteAt(plain, commonEnc, shared, envEnc, q); }
  }

  /** With both files rewritten: exactly when moreover nothing is uncovered. */
  lemma {:induction false} SecondWritePreserves(common: Value, env: Value, commonEnc: Value, envEnc: Value,
        shared: Value, envOnly: Value)
    requires Parts(envEnc, shared, envOnly) && envEnc.Map?
    ensures ReadAlike(Config(common, env, Merge(commonEnc, shared), envOnly), Config(common, env, commonEnc, envEnc))
        <==> forall q :: !Resurfaces(Merge(common, env), commonEnc, shared, envEnc, q)
                      && !Uncovered(Merge(Merge(common, env), Merge(commonEnc, shared)), shared, envEnc, q)
  {
    var plain := Merge(common, env);
    ConfigNested(common, env, commonEnc, envEnc);
    ConfigNested(common, env, Merge(commonEnc, shared), envOnly);
    forall q { SecondWriteAt(plain, commonEnc, shared, envOnly, envEnc, q); }
  }

  // ---- with a file that cannot be decrypted ----

  /** What common.enc.yaml said at `q`, nothing above saying anything, is not what the plain files say. */
  predicate Dropped(plain: Value, commonEnc: Value, envEnc: Value, q: Path) {
    !Speaks(envEnc, q) && Speaks(commonEnc, q) && Resolve(commonEnc, q) != Resolve(plain, q)
  }

  /** Without common.enc.yaml: exactly the paths it decided otherwise read differently, in any environment. */
  lemma {:induction false} WithoutCommonAt(plain: Value, commonEnc: Value, envEnc: Value, q: Path)
    ensures Resolve(Merge(Merge(plain, EMPTY), envEnc), q) != Resolve(Merge(Merge(plain, commonEnc), envEnc), q)
        <==> Dropped(plain, commonEnc, envEnc, q)
  {
    MergeResolves(Merge(plain, EMPTY), envEnc, q);
    MergeResolves(Merge(plain, commonEnc), envEnc, q);
    MergeResolves(plain, EMPTY, q);
    MergeResolves(plain, commonEnc, q);
  }

  /** What the environment's secrets said at `q`, the shared part silent, is not what the lower layers say. */
  predicate OwnLost(lower: Value, shared: Value, envEnc: Value, q: Path) {
    Speaks(envEnc, q) && !Speaks(shared, q) && Resolve(envEnc, q) != Resolve(lower, q)
  }

  /** Without the environment's file, after the first write: the paths that resurface, and those of its own that no
      lower layer repeats. */
  lemma {:induction false} WithoutSourceAt(plain: Value, commonEnc: Value, shared: Value, envEnc: Value, q: Path)
    requires Holds(shared, envEnc, SHARED) && envEnc.Map?
    ensures Resolve(Merge(Merge(plain, Merge(commonEnc, shared)), EMPTY), q)
         != Resolve(Merge(Merge(plain, commonEnc), envEnc), q)
        <==> Resurfaces(plain, commonEnc, shared, envEnc, q)
             || OwnLost(Merge(plain, Merge(commonEnc, shared)), shared, envEnc, q)
  {
    var lower := Merge(plain, Merge(commonEnc, shared));
    MergeResolves(lower, EMPTY, q);
    MergeResolves(Merge(plain, commonEnc), envEnc, q);
    if !Speaks(envEnc, q) {
      LowerLayers(plain, commonEnc, shared, envEnc, q);
    } else if Speaks(shared, q) {
      SharedShows(plain, commonEnc, shared, envEnc, q);
    }
  }

  /** Every path: without common.enc.yaml, and without the environment's file. */
  lemma {:induction false} WithoutCommonPreserves(common: Value, env: Value, commonEnc: Value, envEnc: Value)
    ensures ReadAlike(Config(common, env, EMPTY, envEnc), Config(common, env, commonEnc, envEnc))
        <==> forall q :: !Dropped(Merge(common, env), commonEnc, envEnc, q)
  {
    ConfigNested(common, env, EMPTY, envEnc);
    ConfigNested(common, env, commonEnc, envEnc);
    forall q { WithoutCommonAt(Merge(common, env), commonEnc, envEnc, q); }
  }

  lemma {:induction false} WithoutSourcePreserves(common: Value, env: Value, commonEnc: Value, envEnc: Value,
        shared: Value)
    requires Holds(shared, envEnc, SHARED) && envEnc.Map?
    ensures ReadAlike(Config(common, env, Merge(commonEnc, shared), EMPTY), Config(common, env, commonEnc, envEnc))
        <==> forall q :: !Resurfaces(Merge(common, env), commonEnc, shared, envEnc, q)
                      && !OwnLost(Merge(Merge(common, env), Merge(commonEnc, shared)), shared, envEnc, q)
  {
    ConfigNested(common, env, commonEnc, envEnc);
    ConfigNested(common, env, Merge(commonEnc, shared), EMPTY);
    forall q { WithoutSourceAt(Merge(common, env), commonEnc, shared, envEnc, q); }
  }

  // ---- layers that agree on shapes ----

  lemma {:induction false} OverlaidHow(a: Value, b: Value, q: Path) returns (i: nat)
    requires Overlaid(a, b, q)
    ensures i < |q| && Get(a, q[..i]).Some? && !Get(a, q[..i]).value.Map?
    ensures Get(b, q[..i]).Some? && Get(b, q[..i]).value.Map?
    decreases |q|
  {
    if !a.Map? {
      i := 0;
    } else {
      var j := OverlaidHow(a.m[q[0]], b.m[q[0]], q[1..]);
      i := j + 1;
      assert q[..i] == [q[0]] + q[1..][..j];
    }
  }

  /** A mapping of the shared part is a mapping of the file it came from, or at a shared place. */
  lemma SharedMapping(shared: Value, envEnc: Value, q: Path)
    requires Holds(shared, envEnc, SHARED) && envEnc.Map? && Get(shared, q).Some? && Get(shared, q).value.Map?
    ensures Get(envEnc, q).Some? && Get(envEnc, q).value.Map?
  {
    if q != [] {
      var p :| p in SHARED && Get(envEnc, p).Some? && (p <= q || q < p);
      if q < p {
        GetThrough(envEnc, q, p);
      }
    }
  }

  lemma NoOverlay(commonEnc: Value, shared: Value, envEnc: Value, q: Path)
    requires Holds(shared, envEnc, SHARED) && envEnc.Map? && SameShape(commonEnc, envEnc)
    ensures !Overlaid(commonEnc, shared, q)
  {
    if Overlaid(commonEnc, shared, q) {
      var i := OverlaidHow(commonEnc, shared, q);
      SharedMapping(shared, envEnc, q[..i]);
      SameShapeAt(commonEnc, envEnc, q[..i]);
    }
  }

  /** A leaf in a layer of the same shape is no mapping in the file. */
  lemma NoLeafOverMapping(layer: Value, envEnc: Value, q: Path)
    requires SameShape(layer, envEnc) && Resolve(layer, q).Some? && Get(envEnc, q).Some?
    ensures !Get(envEnc, q).value.Map?
  {
    SameShapeAt(layer, envEnc, q);
  }

  /** When no lower layer differs in shape from the environment's secrets, extraction changes nothing
      that environment reads, between the writes and after them. */
  lemma {:induction false} SameShapesPreserve(common: Value, env: Value, commonEnc: Value, envEnc: Value,
        shared: Value, envOnly: Value)
    requires Parts(envEnc, shared, envOnly) && envEnc.Map?
    requires SameShape(common, envEnc) && SameShape(env, envEnc) && SameShape(commonEnc, envEnc)
    ensures ReadAlike(Config(common, env, Merge(commonEnc, shared), envEnc), Config(common, env, commonEnc, envEnc))
    ensures ReadAlike(Config(common, env, Merge(commonEnc, shared), envOnly), Config(common, env, commonEnc, envEnc))
  {
    var plain := Merge(common, env);
    var lower := Merge(plain, Merge(commonEnc, shared));
    forall q ensures !Resurfaces(plain, commonEnc, shared, envEnc, q) && !Uncovered(lower, shared, envEnc, q) {
      NoOverlay(commonEnc, shared, envEnc, q);
      if Uncovered(lower, shared, envEnc, q) {
        MergeResolves(plain, Merge(commonEnc, shared), q);
        MergeResolves(commonEnc, shared, q);
        MergeResolves(common, env, q);
        if Resolve(commonEnc, q).Some? { NoLeafOverMapping(commonEnc, envEnc, q); }
        if Resolve(env, q).Some? { NoLeafOverMapping(env, envEnc, q); }
        if Resolve(common, q).Some? { NoLeafOverMapping(common, envEnc, q); }
      }
    }
    FirstWritePreserves(common, env, commonEnc, envEnc, shared);
    SecondWritePreserves(common, env, commonEnc, envEnc, shared, envOnly);
  }

  // ---- the other environments ----

  /** Away from the shared places, a path that another environment leaves to the lower layers: the shared part
      lays a mapping over a leaf there, or over a leaf of common.enc.yaml above it that hid one of the plain files. */
  predicate Strays(plain: Value, commonEnc: Value, shared: Value, otherEnc: Value, q: Path) {
    !Speaks(otherEnc, q) &&
    if Speaks(shared, q) then Resolve(Merge(plain, commonEnc), q).Some?
    else Overlaid(commonEnc, shared, q) && Resolve(plain, q).Some?
  }

  /** After the write to common.enc.yaml, under any secrets on top: what the shared part says where it speaks, and
      what the plain files say where it only clears the way. */
  lemma {:induction false} OtherReads(plain: Value, commonEnc: Value, shared: Value, otherEnc: Value, q: Path)
    ensures Resolve(Merge(Merge(plain, Merge(commonEnc, shared)), otherEnc), q) ==
            if Speaks(otherEnc, q) then Resolve(otherEnc, q)
            else if Speaks(shared, q) then Resolve(shared, q)
            else if Overlaid(commonEnc, shared, q) then Resolve(plain, q)
            else Resolve(Merge(plain, commonEnc), q)
  {
    MergeResolves(Merge(plain, Merge(commonEnc, shared)), otherEnc, q);
    MergeResolves(plain, Merge(commonEnc, shared), q);
    MergeResolves(plain, commonEnc, q);
    MergeResolves(commonEnc, shared, q);
    MergeSpeaks(commonEnc, shared, q);
  }

  /** Away from the shared places another environment's reading changes exactly where the path strays. */
  lemma {:induction false} OtherEnvironmentAt(plain: Value, commonEnc: Value, shared: Value, envEnc: Value,
        otherEnc: Value, q: Path)
    requires Holds(shared, envEnc, SHARED) && !Under(SHARED, q)
    ensures Resolve(Merge(Merge(plain, Merge(commonEnc, shared)), otherEnc), q)
         != Resolve(Merge(Merge(plain, commonEnc), otherEnc), q)
        <==> Strays(plain, commonEnc, shared, otherEnc, q)
  {
    OtherReads(plain, commonEnc, shared, otherEnc, q);
    MergeResolves(Merge(plain, commonEnc), otherEnc, q);
    MergeResolves(plain, commonEnc, q);
    SharedApart();
    SharedResolves(envEnc, shared, SHARED, q);
    if Overlaid(commonEnc, shared, q) {
      OverlaidMutes(commonEnc, shared, q);
    }
  }

  /** At and below a shared place it changes exactly where that environment is silent and the source's value,
      if the source has the place, is another than the lower layers gave. */
  lemma {:induction false} OtherSharedAt(plain: Value, commonEnc: Value, shared: Value, envEnc: Value, otherEnc: Value,
        q: Path)
    requires Holds(shared, envEnc, SHARED) && Under(SHARED, q)
    ensures Resolve(Merge(Merge(plain, Merge(commonEnc, shared)), otherEnc), q)
         != Resolve(Merge(Merge(plain, commonEnc), otherEnc), q)
        <==> !Speaks(otherEnc, q) &&
             if Speaks(shared, q) then Resolve(envEnc, q) != Resolve(Merge(plain, commonEnc), q)
             else Overlaid(commonEnc, shared, q) && Resolve(plain, q).Some?
  {
    OtherReads(plain, commonEnc, shared, otherEnc, q);
    MergeResolves(Merge(plain, commonEnc), otherEnc, q);
    MergeResolves(plain, commonEnc, q);
    SharedApart();
    SharedResolves(envEnc, shared, SHARED, q);
    if Overlaid(commonEnc, shared, q) {
      OverlaidMutes(commonEnc, shared, q);
    }
  }

  /** Only paths at or below shared places change for another environment, exactly when no other path strays. */
  lemma {:induction false} OtherEnvironment(common: Value, env: Value, commonEnc: Value, otherEnc: Value, envEnc: Value,
                                            shared: Value)
    requires Holds(shared, envEnc, SHARED)
    ensures (forall q | !Under(SHARED, q) ::
               Resolve(Config(common, env, Merge(commonEnc, shared), otherEnc), q) ==
               Resolve(Config(common, env, commonEnc, otherEnc), q))
        <==> forall q | !Under(SHARED, q) :: !Strays(Merge(common, env), commonEnc, shared, otherEnc, q)
  {
    ConfigNested(common, env, commonEnc, otherEnc);
    ConfigNested(common, env, Merge(commonEnc, shared), otherEnc);
    forall q | !Under(SHARED, q) { OtherEnvironmentAt(Merge(common, env), commonEnc, shared, envEnc, otherEnc, q); }
  }

  /** With lower layers that agree in shape with the secrets extracted, no path strays. */
  lemma {:induction false} SameShapesStayShared(common: Value, env: Value, commonEnc: Value, otherEnc: Value,
        envEnc: Value, shared: Value, q: Path)
    requires Holds(shared, envEnc, SHARED) && envEnc.Map? && !Under(SHARED, q)
    requires SameShape(common, envEnc) && SameShape(env, envEnc) && SameShape(commonEnc, envEnc)
    ensures !Strays(Merge(common, env), commonEnc, shared, otherEnc, q)
  {
    NoOverlay(commonEnc, shared, envEnc, q);
    if Speaks(shared, q) && q != [] {
      SpeaksUnder(shared, envEnc, q);
      MergeResolves(Merge(common, env), commonEnc, q);
      MergeResolves(common, env, q);
      if Resolve(commonEnc, q).Some? { NoLeafOverMapping(commonEnc, envEnc, q); }
      if Resolve(env, q).Some? { NoLeafOverMapping(env, envEnc, q); }
      if Resolve(common, q).Some? { NoLeafOverMapping(common, envEnc, q); }
    }
  }

  lemma SpeaksUnder(shared: Value, envEnc: Value, q: Path)
    requires Holds(shared, envEnc, SHARED) && envEnc.Map? && Speaks(shared, q) && q != []
    ensures Under(SHARED, q) || (Resolve(shared, q) == None && Get(envEnc, q).Some? && Get(envEnc, q).value.Map?)
  {
    SharedApart();
    var i := SpeaksHow(shared, q);
    if i < |q| {
      SharedResolves(envEnc, shared, SHARED, q[..i]);
      assert Resolve(shared, q[..i]).Some?;
      var p :| p in SHARED && p <= q[..i];
      assert p <= q;
    } else {
      assert q[..i] == q;
      SharedResolves(envEnc, shared, SHARED, q);
      if Get(shared, q).value.Map? {
        SharedMapping(shared, envEnc, q);
      }
    }
  }

  // ---- both conditions are needed ----

  const AUTOMATION: Path := ["apps", "services", "automation"]

  /** Secrets that set one shared place, under apps. */
  function Automated(): Value {
    Map(map["apps" := Map(map["services" := Map(map["automation" := Int(1)])])])
  }

  lemma AutomationIsShared()
    ensures AUTOMATION in SHARED
  {
    assert SHARED_NESTED[3] == AUTOMATION;
  }

  lemma AutomationIsSet()
    ensures Get(Automated(), AUTOMATION) == Some(Int(1))
  {
    assert AUTOMATION[1..] == ["services", "automation"] && AUTOMATION[1..][1..] == ["automation"];
    assert AUTOMATION[1..][1..][1..] == [];
  }

  lemma FirstKey(s: Value, p: Path)
    requires s.Map? && p != [] && Get(s, p[..1]).Some? && Get(s, p[..1]).value.Map?
    ensures p[0] in s.m && s.m[p[0]].Map?
  {
    assert p[..1][1..] == [];
  }

  lemma AppsIsMapping(s: Value)
    requires Holds(s, Automated(), SHARED)
    ensures "apps" in s.m && s.m["apps"].Map?
  {
    AutomationIsShared();
    AutomationIsSet();
    assert AUTOMATION[..1] < AUTOMATION;
    FirstKey(s, AUTOMATION);
  }

  /** common.yaml sets apps.x, common.enc.yaml replaces apps by a leaf, the environment shares something
      under apps: after the first write apps.x is back. */
  lemma ResurfacingHappens(s: Value)
    requires Holds(s, Automated(), SHARED)
    ensures var plain, c := Map(map["apps" := Map(map["x" := Int(1)])]), Map(map["apps" := Int(5)]);
            Resurfaces(plain, c, s, Automated(), ["apps", "x"])
  {
    AppsIsMapping(s);
    XResurfaces(s, Automated());
  }

  lemma NoPlaceAt(q: Path)
    requires |q| == 2 && q[0] == "apps" && q[1] == "x"
    ensures forall p | p in SHARED :: !(p <= q) && !(q < p)
  {
    assert forall p | p in SHARED :: SharedPlace(p);
    forall p | p in SHARED ensures !(p <= q) && !(q < p) {
      SharedShape(p);
    }
  }

  /** In the same configuration an environment that sets nothing sees apps.x come back, which no shared place covers. */
  lemma {:induction false} StrayingHappens(s: Value)
    requires Holds(s, Automated(), SHARED)
    ensures var plain, c := Map(map["apps" := Map(map["x" := Int(1)])]), Map(map["apps" := Int(5)]);
            !Under(SHARED, ["apps", "x"]) && Strays(plain, c, s, EMPTY, ["apps", "x"])
  {
    ResurfacingHappens(s);
    NoPlaceAt(["apps", "x"]);
    AppsIsMapping(s);
    NothingElsewhere(s, Automated(), SHARED, ["apps", "x"]);
  }

  /** The shared part says nothing off the ways to its places, below its own mappings. */
  lemma NothingElsewhere(s: Value, t: Value, ps: set<Path>, q: Path)
    requires Holds(s, t, ps) && |q| == 2 && forall p | p in ps :: !(p <= q) && !(q < p)
    requires q[0] in s.m && s.m[q[0]].Map?
    ensures !Speaks(s, q)
  {
    assert q[1..][0] == q[1] && q[1..][1..] == [];
    assert Get(s, q) == Get(s.m[q[0]], q[1..]) == if q[1] in s.m[q[0]].m then Some(s.m[q[0]].m[q[1]]) else None;
    assert Get(s, q) == None;
  }

  lemma XResurfaces(s: Value, t: Value)
    requires s.Map? && "apps" in s.m && s.m["apps"].Map?
    requires t.Map? && "apps" in t.m && t.m["apps"].Map? && "x" !in t.m["apps"].m
    ensures Resurfaces(Map(map["apps" := Map(map["x" := Int(1)])]), Map(map["apps" := Int(5)]), s, t, ["apps", "x"])
  {
    var q := ["apps", "x"];
    assert q[1..] == ["x"] && q[1..][1..] == [];
    assert Get(Map(map["apps" := Map(map["x" := Int(1)])]), q) == Some(Int(1));
  }

  /** The environment lays an empty mapping over a leaf of common.yaml: cleaning its file drops the
      mapping and the leaf is back. */
  lemma {:induction false} UncoveringHappens(s: Value)
    requires Holds(s, Map(map["foo" := EMPTY, "dockerhub" := Int(1)]), SHARED)
    ensures var plain, t := Map(map["foo" := Int(5)]), Map(map["foo" := EMPTY, "dockerhub" := Int(1)]);
            Uncovered(Merge(plain, Merge(EMPTY, s)), s, t, ["foo"])
  {
    var plain, t := Map(map["foo" := Int(5)]), Map(map["foo" := EMPTY, "dockerhub" := Int(1)]);
    var q := ["foo"];
    FooIsSilent(s, t);
    OneKey(plain, "foo");
    OneKey(t, "foo");
    MergeResolves(plain, Merge(EMPTY, s), q);
    MergeOntoEmpty(s);
  }

  lemma OneKey(t: Value, k: string)
    requires t.Map?
    ensures Get(t, [k]) == (if k in t.m then Some(t.m[k]) else None) && (Speaks(t, [k]) <==> k in t.m)
  {
    assert [k][1..] == [];
  }

  lemma FooIsSilent(s: Value, t: Value)
    requires Holds(s, t, SHARED)
    ensures !Speaks(s, ["foo"])
  {
    var q := ["foo"];
    assert forall p | p in SHARED :: SharedPlace(p);
    forall p | p in SHARED ensures !(p <= q) && !(q < p) {
      SharedShape(p);
    }
    OneKey(s, "foo");
  }
}
