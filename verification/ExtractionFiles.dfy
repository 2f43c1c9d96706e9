/** credentials.py `extract_common_secrets` against the two encrypted files it rewrites. */
module ExtractionFiles {
  import opened Values
  import opened Layers
  import opened PyDicts
  import opened Configuration
  import opened Partition
  import opened PartitionDicts
  import opened Extraction

  /** A secrets file: sealed by SOPS, or left in the clear by an encryption that failed. */
  datatype Stored = Sealed(v: Value) | Clear(v: Value)

  const COMMON := "common"

  // ---- yaml.safe_load and yaml.dump ----

  method Load(v: Value) returns (d: PyDict)
    requires v.Map?
    ensures d.Valid() && fresh(d.Repr) && d.Tree == v
    decreases v, 1
  {
    d := new PyDict();
    var todo := v.m.Keys;
    ghost var done := {};
    CopiedAll(v);
    while todo != {}
      invariant todo !! done && todo + done == v.m.Keys
      invariant d.Valid() && fresh(d.Repr) && d.Tree == Copied(v, done)
      decreases todo
    {
      var key :| key in todo;
      CopiedStep(v, done, key);
      LoadKey(v, key, d);
      todo, done := todo - {key}, done + {key};
    }
  }

  method LoadKey(v: Value, key: string, d: PyDict)
    requires v.Map? && key in v.m && d.Valid()
    modifies d
    ensures d.Valid() && fresh(d.Repr - old(d.Repr)) && d.Tree == Map(old(d.Tree).m[key := v.m[key]])
    decreases v, 0
  {
    if v.m[key].Map? {
      var sub := Load(v.m[key]);
      ghost var rest := Opened(d, key);
      Attach(d, key, sub, rest);
    } else {
      SetAtom(d, key, v.m[key]);
    }
  }

  method Dump(d: PyDict) returns (v: Value)
    requires d.Valid()
    ensures v == d.Tree
    decreases d.Repr
  {
    v := EMPTY;
    var todo := d.items.Keys;
    ghost var t, done := d.Tree, {};
    CopiedAll(t);
    while todo != {}
      invariant todo !! done && todo + done == t.m.Keys == d.items.Keys
      invariant v == Copied(t, done)
      decreases todo
    {
      var key :| key in todo;
      CopiedStep(t, done, key);
      ghost var rest := Opened(d, key);
      var sub: Value;
      if d.items[key].Ref? {
        sub := Dump(d.items[key].d);
      } else {
        sub := d.items[key].v;
      }
      v := Map(v.m[key := sub]);
      todo, done := todo - {key}, done + {key};
    }
  }

  /** What decrypting `name` yields: nothing when the file is missing, or not sealed, or no mapping. */
  function Decrypted(files: map<string, Stored>, name: string): (v: Value)
    ensures v.Map?
  {
    if name in files && files[name].Sealed? && files[name].v.Map? then files[name].v else EMPTY
  }

  class Vault {
    var files: map<string, Stored>
    /** How many encryptions failed. */
    ghost var failures: nat

    function Readable(name: string): Value
      reads this
    {
      Decrypted(files, name)
    }

    method Decrypt(name: string) returns (d: PyDict)
      ensures d.Valid() && fresh(d.Repr) && d.Tree == Readable(name)
    {
      d := Load(Readable(name));
    }

    /** Creates an empty sealed file if there is none; a failure leaves no file behind. */
    method EnsureFile(name: string) returns (ok: bool)
      modifies this
      ensures failures == old(failures) + if ok then 0 else 1
      ensures name in old(files) ==> ok && files == old(files)
      ensures name !in old(files) ==> files == if ok then old(files)[name := Sealed(EMPTY)] else old(files)
    {
      if name in files { return true; }
      if * {
        files := files[name := Sealed(EMPTY)];
        ok := true;
      } else {
        ok := false;
        failures := failures + 1;
      }
    }

    /** Writes the plain text, then encrypts in place; a failed encryption leaves the plain text. */
    method Encrypt(name: string, d: PyDict) returns (ok: bool)
      requires d.Valid()
      modifies this
      ensures failures == old(failures) + if ok then 0 else 1
      ensures files == old(files)[name := if ok then Sealed(d.Tree) else Clear(d.Tree)]
    {
      var v := Dump(d);
      files := files[name := Clear(v)];
      if * {
        files := files[name := Sealed(v)];
        ok := true;
      } else {
        ok := false;
        failures := failures + 1;
      }
    }
  }

  /** How far the extraction came. */
  datatype Stage = Untouched | CommonClear | CommonWritten | SourceClear | BothWritten

  /** The files once the extraction has come to `stage`. */
  function FilesAt(files: map<string, Stored>, env: string, merged: Value, envOnly: Value,
        stage: Stage): map<string, Stored> {
    match stage
    case Untouched => files
    case CommonClear => files[COMMON := Clear(merged)]
    case CommonWritten => files[COMMON := Sealed(merged)]
    case SourceClear => files[COMMON := Sealed(merged)][env := Clear(envOnly)]
    case BothWritten => files[COMMON := Sealed(merged)][env := Sealed(envOnly)]
  }

  /** At every stage: what common.enc.yaml holds, what the environment's file holds, and that no other is touched. */
  lemma FilesAre(files: map<string, Stored>, env: string, merged: Value, envOnly: Value, stage: Stage)
    requires env != "common"
    ensures var now := FilesAt(files, env, merged, envOnly, stage);
            && (stage.Untouched? ==> now == files)
            && (!stage.Untouched? ==>
                  "common" in now && now["common"] == if stage.CommonClear? then Clear(merged) else Sealed(merged))
            && (stage.SourceClear? || stage.BothWritten? ==>
                  env in now && now[env] == if stage.SourceClear? then Clear(envOnly) else Sealed(envOnly))
            && (forall other | other != "common" && (other != env || stage.CommonClear? || stage.CommonWritten?) ::
                  (other in now <==> other in files) && (other in files ==> now[other] == files[other]))
  {
  }

  method ExtractCommonSecrets(vault: Vault, env: string, cleanSource: bool, sops: bool)
    returns (ok: bool, ghost stage: Stage, ghost s: Value, ghost e: Value)
    requires env != COMMON
    modifies vault
    ensures Parts(old(vault.Readable(env)), s, e)
    ensures vault.files == FilesAt(old(vault.files), env, Merge(old(vault.Readable(COMMON)), s), e, stage)
    ensures ok <==> stage == if cleanSource && e != EMPTY then BothWritten else CommonWritten
    ensures stage.BothWritten? || stage.SourceClear? ==> cleanSource && e != EMPTY
    // it goes ahead exactly when there is something shared and SOPS is there, up to the first encryption that fails
    ensures var goes := sops && s != EMPTY && old(vault.Readable(env)) != EMPTY;
            && (stage.Untouched? <==> !goes || (COMMON !in old(vault.files) && vault.failures > old(vault.failures)
                                                && vault.files == old(vault.files)))
            && (ok <==> goes && vault.failures == old(vault.failures))
            && vault.failures == old(vault.failures) + if goes && !ok then 1 else 0
  {
    stage, ok := Untouched, false;
    var empty, shared, envOnly := ReadParts(vault, env);
    s, e := shared.Tree, envOnly.Tree;
    if !empty && shared.items != map[] && sops {
      ok, stage := WriteParts(vault, env, shared, envOnly, cleanSource);
    }
  }

  /** The environment's file decrypted and split. */
  method ReadParts(vault: Vault, env: string) returns (empty: bool, shared: PyDict, envOnly: PyDict)
    ensures shared.Valid() && envOnly.Valid() && Parts(vault.Readable(env), shared.Tree, envOnly.Tree)
    ensures empty <==> vault.Readable(env) == EMPTY
  {
    var source := vault.Decrypt(env);
    empty := source.items == map[];
    shared, envOnly := PartitionSecrets(source);
  }

  /** Merges the shared part into common.enc.yaml and writes it back. */
  method MergeShared(vault: Vault, shared: PyDict) returns (ok: bool)
    requires shared.Valid()
    modifies vault
    ensures vault.failures == old(vault.failures) + if ok then 0 else 1
    ensures var merged := Merge(old(vault.Readable(COMMON)), shared.Tree);
            vault.files == old(vault.files)[COMMON := if ok then Sealed(merged) else Clear(merged)]
  {
    var existing := vault.Decrypt(COMMON);
    DeepUpdate(existing, shared);
    ok := vault.Encrypt(COMMON, existing);
  }

  /** The two writes, the second only when asked for and when something is left to keep. */
  method WriteParts(vault: Vault, env: string, shared: PyDict, envOnly: PyDict, cleanSource: bool)
    returns (ok: bool, ghost stage: Stage)
    requires env != COMMON && shared.Valid() && envOnly.Valid()
    modifies vault
    ensures vault.files == FilesAt(old(vault.files), env, Merge(old(vault.Readable(COMMON)), shared.Tree),
        envOnly.Tree, stage)
    ensures ok <==> stage == if cleanSource && envOnly.Tree != EMPTY then BothWritten else CommonWritten
    ensures stage.BothWritten? || stage.SourceClear? ==> cleanSource && envOnly.Tree != EMPTY
    ensures vault.failures == old(vault.failures) + if ok then 0 else 1
    ensures stage.Untouched? <==> COMMON !in old(vault.files) && !ok && vault.files == old(vault.files)
  {
    stage := Untouched;
    ghost var files, merged := vault.files, Merge(vault.Readable(COMMON), shared.Tree);
    ok := vault.EnsureFile(COMMON);
    if !ok {
      return;
    }
    assert vault.Readable(COMMON) == old(vault.Readable(COMMON));
    ok := MergeShared(vault, shared);
    assert vault.files == files[COMMON := if ok then Sealed(merged) else Clear(merged)];
    stage := if ok then CommonWritten else CommonClear;
    if ok && cleanSource && envOnly.items != map[] {
      ok := vault.Encrypt(env, envOnly);
      stage := if ok then BothWritten else SourceClear;
    }
  }

  // ---- what the environments read, stage by stage ----

  /** The configuration of `env`, whose own values are `own`, with the given secrets files. */
  function Reading(common: Value, own: Value, files: map<string, Stored>, env: string): Value {
    Config(common, own, Decrypted(files, COMMON), Decrypted(files, env))
  }

  /** What the environment extracted from reads at each stage. */
  lemma SourceReads(common: Value, own: Value, files: map<string, Stored>, env: string, s: Value, e: Value)
    requires env != COMMON && Parts(Decrypted(files, env), s, e)
    ensures var t, m := Decrypted(files, env), Merge(Decrypted(files, COMMON), s);
            && Reading(common, own, FilesAt(files, env, m, e, CommonClear), env) == Config(common, own, EMPTY, t)
            && Reading(common, own, FilesAt(files, env, m, e, CommonWritten), env) == Config(common, own, m, t)
            && Reading(common, own, FilesAt(files, env, m, e, SourceClear), env) == Config(common, own, m, EMPTY)
            && Reading(common, own, FilesAt(files, env, m, e, BothWritten), env) == Config(common, own, m, e)
  {
    var m := Merge(Decrypted(files, COMMON), s);
    PartsAreMappings(Decrypted(files, env), Decrypted(files, COMMON), s, e);
    SealedReads(files, env, m, e);
    ClearReads(files, env, m, e);
  }

  lemma SealedReads(files: map<string, Stored>, env: string, m: Value, e: Value)
    requires env != COMMON && m.Map? && e.Map?
    ensures var written := FilesAt(files, env, m, e, CommonWritten);
            Decrypted(written, COMMON) == m && Decrypted(written, env) == Decrypted(files, env)
    ensures var both := FilesAt(files, env, m, e, BothWritten);
            Decrypted(both, COMMON) == m && Decrypted(both, env) == e
  {
  }

  lemma ClearReads(files: map<string, Stored>, env: string, m: Value, e: Value)
    requires env != COMMON && m.Map?
    ensures var clear := FilesAt(files, env, m, e, CommonClear);
            Decrypted(clear, COMMON) == EMPTY && Decrypted(clear, env) == Decrypted(files, env)
    ensures var source := FilesAt(files, env, m, e, SourceClear);
            Decrypted(source, COMMON) == m && Decrypted(source, env) == EMPTY
  {
  }

  /** Exactly when the environment extracted from reads as before, after each write. */
  lemma StagesPreserve(common: Value, own: Value, files: map<string, Stored>, env: string, s: Value, e: Value)
    requires env != COMMON && Parts(Decrypted(files, env), s, e)
    ensures var t, c, before := Decrypted(files, env), Decrypted(files, COMMON), Reading(common, own, files, env);
            var written := FilesAt(files, env, Merge(c, s), e, CommonWritten);
            var both := FilesAt(files, env, Merge(c, s), e, BothWritten);
            && (ReadAlike(Reading(common, own, written, env), before) <==>
                forall q :: !Resurfaces(Merge(common, own), c, s, t, q))
            && (ReadAlike(Reading(common, own, both, env), before) <==>
                forall q :: !Resurfaces(Merge(common, own), c, s, t, q)
                         && !Uncovered(Merge(Merge(common, own), Merge(c, s)), s, t, q))
  {
    var t, c := Decrypted(files, env), Decrypted(files, COMMON);
    FirstWritePreserves(common, own, c, t, s);
    SecondWritePreserves(common, own, c, t, s, e);
    SourceReads(common, own, files, env, s, e);
  }

  /** The same where an encryption failed and left a file that no longer decrypts. */
  lemma ClearStagesPreserve(common: Value, own: Value, files: map<string, Stored>, env: string, s: Value, e: Value)
    requires env != COMMON && Parts(Decrypted(files, env), s, e)
    ensures var t, c, before := Decrypted(files, env), Decrypted(files, COMMON), Reading(common, own, files, env);
            var commonClear := FilesAt(files, env, Merge(c, s), e, CommonClear);
            var sourceClear := FilesAt(files, env, Merge(c, s), e, SourceClear);
            && (ReadAlike(Reading(common, own, commonClear, env), before) <==>
                forall q :: !Dropped(Merge(common, own), c, t, q))
            && (ReadAlike(Reading(common, own, sourceClear, env), before) <==>
                forall q :: !Resurfaces(Merge(common, own), c, s, t, q)
                         && !OwnLost(Merge(Merge(common, own), Merge(c, s)), s, t, q))
  {
    var t, c := Decrypted(files, env), Decrypted(files, COMMON);
    WithoutCommonPreserves(common, own, c, t);
    WithoutSourcePreserves(common, own, c, t, s);
    SourceReads(common, own, files, env, s, e);
  }

  lemma PartsAreMappings(t: Value, c: Value, s: Value, e: Value)
    requires Parts(t, s, e)
    ensures s.Map? && e.Map? && Merge(c, s).Map?
  {
  }

  /** With layers of one shape, every stage with sealed files reads as before. */
  lemma SameShapeStages(common: Value, own: Value, files: map<string, Stored>, env: string, s: Value, e: Value,
        stage: Stage)
    requires env != COMMON && Parts(Decrypted(files, env), s, e) && !stage.CommonClear? && !stage.SourceClear?
    requires var t := Decrypted(files, env);
             SameShape(common, t) && SameShape(own, t) && SameShape(Decrypted(files, COMMON), t)
    ensures ReadAlike(Reading(common, own, FilesAt(files, env, Merge(Decrypted(files, COMMON), s), e, stage), env),
                      Reading(common, own, files, env))
  {
    var t, c := Decrypted(files, env), Decrypted(files, COMMON);
    SourceReads(common, own, files, env, s, e);
    SameShapesPreserve(common, own, c, t, s, e);
  }

  /** Exactly which paths of another environment read differently once common.enc.yaml was written, whatever became
      of the source's own file. */
  lemma {:induction false} OthersSee(common: Value, own: Value, files: map<string, Stored>, env: string, other: string,
                                     s: Value, e: Value, stage: Stage, q: Path)
    requires env != COMMON && other != COMMON && other != env && Parts(Decrypted(files, env), s, e)
    requires stage.CommonWritten? || stage.SourceClear? || stage.BothWritten?
    requires !Under(SHARED, q)
    ensures var c := Decrypted(files, COMMON);
            (Resolve(Reading(common, own, FilesAt(files, env, Merge(c, s), e, stage), other), q)
             != Resolve(Reading(common, own, files, other), q)
             <==> Strays(Merge(common, own), c, s, Decrypted(files, other), q))
  {
    OthersRead(common, own, files, env, other, s, e, stage);
    var t, c, o := Decrypted(files, env), Decrypted(files, COMMON), Decrypted(files, other);
    ConfigNested(common, own, c, o);
    ConfigNested(common, own, Merge(c, s), o);
    OtherEnvironmentAt(Merge(common, own), c, s, t, o, q);
  }

  /** What another environment reads once common.enc.yaml was written. */
  lemma OthersRead(common: Value, own: Value, files: map<string, Stored>, env: string, other: string,
                   s: Value, e: Value, stage: Stage)
    requires env != COMMON && other != COMMON && other != env && Parts(Decrypted(files, env), s, e)
    requires stage.CommonWritten? || stage.SourceClear? || stage.BothWritten?
    ensures Reading(common, own, FilesAt(files, env, Merge(Decrypted(files, COMMON), s), e, stage), other) ==
            Config(common, own, Merge(Decrypted(files, COMMON), s), Decrypted(files, other))
  {
    PartsAreMappings(Decrypted(files, env), Decrypted(files, COMMON), s, e);
  }

  /** At every such stage the others see changes at and below shared places only, exactly when no other path strays. */
  lemma {:induction false} OthersSeeSharedOnly(common: Value, own: Value, files: map<string, Stored>, env: string,
        other: string, s: Value, e: Value, stage: Stage)
    requires env != COMMON && other != COMMON && other != env && Parts(Decrypted(files, env), s, e)
    requires stage.CommonWritten? || stage.SourceClear? || stage.BothWritten?
    ensures var c := Decrypted(files, COMMON);
            ((forall q | !Under(SHARED, q) ::
                Resolve(Reading(common, own, FilesAt(files, env, Merge(c, s), e, stage), other), q) ==
                Resolve(Reading(common, own, files, other), q))
             <==> forall q | !Under(SHARED, q) :: !Strays(Merge(common, own), c, s, Decrypted(files, other), q))
  {
    OthersRead(common, own, files, env, other, s, e, stage);
    OtherEnvironment(common, own, Decrypted(files, COMMON), Decrypted(files, other), Decrypted(files, env), s);
  }

  /** While common.enc.yaml is in the clear, exactly the paths it decided otherwise read differently elsewhere. */
  lemma {:induction false} OthersSeeClear(common: Value, own: Value, files: map<string, Stored>, env: string,
        other: string, m: Value, e: Value, q: Path)
    requires other != COMMON
    ensures Resolve(Reading(common, own, FilesAt(files, env, m, e, CommonClear), other), q)
         != Resolve(Reading(common, own, files, other), q)
        <==> Dropped(Merge(common, own), Decrypted(files, COMMON), Decrypted(files, other), q)
  {
    var c, o := Decrypted(files, COMMON), Decrypted(files, other);
    assert Reading(common, own, FilesAt(files, env, m, e, CommonClear), other) == Config(common, own, EMPTY, o);
    ConfigNested(common, own, EMPTY, o);
    ConfigNested(common, own, c, o);
    WithoutCommonAt(Merge(common, own), c, o, q);
  }

  // ---- running it again ----

  /** What a second run finds: the source and common.enc.yaml as they decrypt at that stage. */
  lemma {:induction false} SecondRunFinds(files: map<string, Stored>, env: string, s: Value, e: Value, stage: Stage,
        s': Value, e': Value)
    requires env != COMMON && Parts(Decrypted(files, env), s, e)
    requires Parts(Decrypted(FilesAt(files, env, Merge(Decrypted(files, COMMON), s), e, stage), env), s', e')
    ensures var c := Decrypted(files, COMMON);
            var merged := Merge(Decrypted(FilesAt(files, env, Merge(c, s), e, stage), COMMON), s');
            match stage
            case Untouched => s' == s && e' == e && merged == Merge(c, s)
            case CommonClear => s' == s && e' == e && merged == s
            case CommonWritten => s' == s && e' == e && merged == Merge(c, s)
            case SourceClear => s' == EMPTY
            case BothWritten => s' == EMPTY && e' == e
  {
    var t, c := Decrypted(files, env), Decrypted(files, COMMON);
    PartsAreMappings(t, c, s, e);
    SealedReads(files, env, Merge(c, s), e);
    ClearReads(files, env, Merge(c, s), e);
    match stage
    case Untouched => PartsUnique(t, s, e, s', e');
    case CommonClear =>
      PartsUnique(t, s, e, s', e');
      MergeOntoEmpty(s);
    case CommonWritten =>
      PartsUnique(t, s, e, s', e');
      RemergeSame(c, s);
    case SourceClear => NothingOfNothing(s', e');
    case BothWritten => PartsAgain(t, s, e, s', e');
  }

  lemma NothingOfNothing(s: Value, e: Value)
    requires Parts(EMPTY, s, e)
    ensures s == EMPTY
  {
    SharedApart();
    forall k ensures k !in s.m {
      assert [k][1..] == [];
      assert Get(s, [k]) == None;
    }
  }

  /** Where the second run leaves the files, when the first stopped at `stage` and the second at `again`. */
  function RerunAt(files: map<string, Stored>, env: string, c: Value, s: Value, e: Value, stage: Stage,
        again: Stage): map<string, Stored> {
    if again.Untouched? then FilesAt(files, env, Merge(c, s), e, stage)
    else if stage.CommonClear? then FilesAt(files, env, s, e, again)
    else FilesAt(files, env, Merge(c, s), e, again)
  }

  /** A second run's writes cover the first's, if those were to common.enc.yaml alone. */
  lemma FilesAgain(files: map<string, Stored>, env: string, m: Value, e: Value, stage: Stage, m': Value, again: Stage)
    requires env != COMMON && !stage.SourceClear? && !stage.BothWritten?
    ensures FilesAt(FilesAt(files, env, m, e, stage), env, m', e, again) ==
            if again.Untouched? then FilesAt(files, env, m, e, stage) else FilesAt(files, env, m', e, again)
  {
    if !stage.Untouched? && !again.Untouched? {
      var first := if stage.CommonClear? then Clear(m) else Sealed(m);
      var second := if again.CommonClear? then Clear(m') else Sealed(m');
      assert files[COMMON := first][COMMON := second] == files[COMMON := second];
    }
  }

  /** A run after one that stopped anywhere.  With all files sealed it goes on to what one run would have written; with
      common.enc.yaml in the clear it writes the shared part alone; with the source in the clear, or finished, it
      writes nothing. */
  method ExtractTwice(vault: Vault, env: string, cleanSource: bool, sops: bool)
    returns (ok: bool, ghost stage: Stage, ghost again: Stage, ghost s: Value, ghost e: Value)
    requires env != COMMON
    modifies vault
    ensures Parts(old(vault.Readable(env)), s, e)
    ensures vault.files == RerunAt(old(vault.files), env, old(vault.Readable(COMMON)), s, e, stage, again)
    ensures stage.SourceClear? || stage.BothWritten? ==> again.Untouched? && !ok
    ensures ok ==> again == if cleanSource && e != EMPTY then BothWritten else CommonWritten
  {
    ghost var files, c := vault.files, vault.Readable(COMMON);
    ok, stage, s, e := ExtractCommonSecrets(vault, env, cleanSource, sops);
    ghost var s', e';
    ok, again, s', e' := ExtractCommonSecrets(vault, env, cleanSource, sops);
    SecondRunFinds(files, env, s, e, stage, s', e');
    if !stage.SourceClear? && !stage.BothWritten? {
      FilesAgain(files, env, Merge(c, s), e, stage, if stage.CommonClear? then s else Merge(c, s), again);
    }
  }

  /** After a run that left common.enc.yaml in the clear, a second one reads the merged secrets exactly when the shared
      part speaks for every leaf that was there. */
  lemma {:induction false} RerunReads(c: Value, s: Value)
    ensures ReadAlike(s, Merge(c, s)) <==> forall q :: Resolve(c, q).Some? ==> Speaks(s, q)
  {
    forall q ensures Resolve(s, q) != Resolve(Merge(c, s), q) <==> Resolve(c, q).Some? && !Speaks(s, q) {
      MergeResolves(c, s, q);
      if !Speaks(s, q) {
        SilentResolvesNothing(s, q);
      }
    }
  }
}
