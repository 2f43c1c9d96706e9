/** cli/sync.py, `_run_with_check`: snapshot the generated files, generate them again, compare, put them back. */
module DriftCheck {
  import opened Values
  import opened Sequences

  type Files = map<string, string>

  function At(files: Files, p: string): Option<string> {
    if p in files then Some(files[p]) else None
  }

  class Disk {
    var files: Files
    /** How many writes failed, and how each sync ended and what it left. */
    ghost var failures: nat
    ghost var syncs: seq<(End, Files)>

    /** `write_bytes` or `unlink(missing_ok=True)`; a write that fails may leave anything at its path. */
    method Put(p: string, content: Option<string>) returns (ok: bool)
      modifies this`files, this`failures
      ensures failures == old(failures) + if ok then 0 else 1
      ensures forall q | q != p :: At(files, q) == At(old(files), q)
      ensures ok ==> At(files, p) == content
    {
      ok := *;
      failures := failures + if ok then 0 else 1;
      var left: Option<string> := *;
      if ok {
        left := content;
      }
      files := if left.Some? then files[p := left.value] else files - {p};
    }
  }

  /** How `sync_fn` ended: with a return code, an `Exception`, or one that is none, as SystemExit and
      KeyboardInterrupt are. */
  datatype End = Returned(code: int) | Raised | Exited

  /** A sync function: it may do anything to the files in its scope. */
  method Sync(disk: Disk, scope: set<string>) returns (end: End)
    modifies disk`files, disk`syncs
    ensures disk.syncs == old(disk.syncs) + [(end, disk.files)]
    ensures forall p | p !in scope :: At(disk.files, p) == At(old(disk.files), p)
  {
    var written: Files := *;
    disk.files := (disk.files - scope) + map p | p in written && p in scope :: written[p];
    end := *;
    disk.syncs := disk.syncs + [(end, disk.files)];
  }

  /** The first `done` of `paths` are put back, and the next one, if there is one, is the one that failed: it may be
      anything, and those after it are as they were. */
  ghost predicate BackUpTo(before: map<string, Option<string>>, after: Files, now: Files, paths: seq<string>,
        done: nat) {
    && done <= |paths|
    && (forall p | p in paths[..done] && p in before && (done < |paths| ==> p != paths[done]) ::
          At(now, p) == before[p])
    && (forall p | p !in paths[..done] && (done < |paths| ==> p != paths[done]) :: At(now, p) == At(after, p))
  }

  /** `_restore_snapshots`, path by path until one fails. */
  method Restore(disk: Disk, paths: seq<string>, snapshots: map<string, Option<string>>)
    returns (ok: bool, ghost done: nat)
    requires forall p | p in paths :: p in snapshots
    modifies disk`files, disk`failures
    ensures disk.failures == old(disk.failures) + if ok then 0 else 1
    ensures BackUpTo(snapshots, old(disk.files), disk.files, paths, done) && (ok <==> done == |paths|)
    ensures forall p | p !in paths :: At(disk.files, p) == At(old(disk.files), p)
    ensures ok ==> forall p | p in paths :: At(disk.files, p) == snapshots[p]
  {
    for i := 0 to |paths|
      invariant disk.failures == old(disk.failures)
      invariant forall p | p !in paths[..i] :: At(disk.files, p) == At(old(disk.files), p)
      invariant forall p | p in paths[..i] :: At(disk.files, p) == snapshots[p]
    {
      TakeNext(paths, i);
      ok := disk.Put(paths[i], snapshots[paths[i]]);
      if !ok {
        done := i;
        return;
      }
    }
    TakeAll(paths);
    ok, done := true, |paths|;
  }

  // ---- compare ----

  /** What one path must be not to have drifted. */
  predicate Same(before: Option<string>, after: Option<string>, normalise: string -> string) {
    match (before, after)
    case (None, None) => true
    case (Some(b), Some(a)) => normalise(b) == normalise(a)
    case _ => false
  }

  method Compare(paths: seq<string>, snapshots: map<string, Option<string>>, news: map<string, Option<string>>,
        normalise: string -> string)
    returns (drifted: seq<string>)
    requires forall p | p in paths :: p in snapshots && p in news
    ensures forall p :: p in drifted <==> p in paths && !Same(snapshots[p], news[p], normalise)
  {
    drifted := [];
    for i := 0 to |paths|
      invariant forall p :: p in drifted <==> p in paths[..i] && !Same(snapshots[p], news[p], normalise)
    {
      var p := paths[i];
      TakeNext(paths, i);
      if snapshots[p].None? && news[p].None? {
        continue;
      }
      if snapshots[p].None? || news[p].None? {
        drifted := drifted + [p];
        continue;
      }
      if normalise(snapshots[p].value) != normalise(news[p].value) {
        drifted := drifted + [p];
      }
    }
    TakeAll(paths);
  }

  method ReadAll(files: Files, paths: seq<string>) returns (contents: map<string, Option<string>>)
    ensures contents.Keys == set p | p in paths
    ensures forall p | p in paths :: contents[p] == At(files, p)
  {
    contents := map[];
    for i := 0 to |paths|
      invariant contents.Keys == set p | p in paths[..i]
      invariant forall p | p in paths[..i] :: contents[p] == At(files, p)
    {
      TakeNext(paths, i);
      contents := contents[paths[i] := At(files, paths[i])];
    }
    TakeAll(paths);
  }

  // ---- the check ----

  /** No output directory is one that holds no file. */
  type Direct = string -> bool

  /** The files of the output directory that were not listed, in the order the directory gives them. */
  method NewFiles(files: Files, listed: seq<string>, direct: Direct) returns (found: seq<string>)
    ensures forall p :: p in found <==> p in files && direct(p) && p !in listed
  {
    found := [];
    var left := files.Keys;
    while left != {}
      invariant left <= files.Keys
      invariant forall p :: p in found <==> p in files && p !in left && direct(p) && p !in listed
      decreases left
    {
      var p :| p in left;
      left := left - {p};
      if direct(p) && p !in listed {
        found := found + [p];
      }
    }
  }

  datatype Verdict = InSync | Drifted | SyncFailed | RestoreFailed | Interrupted

  /** No known path drifted: each listed one is the same, and the directory holds no file that was not listed. */
  ghost predicate Unmoved(before: Files, after: Files, listed: seq<string>, direct: Direct,
        normalise: string -> string) {
    && (forall p | p in listed :: Same(At(before, p), At(after, p), normalise))
    && (forall p | p in after && direct(p) :: p in listed)
  }

  /** Outright: each listed path is there on both sides or on neither, with the same content after normalisation, and
      the directory holds no file that was not listed. */
  lemma UnmovedIs(before: Files, after: Files, listed: seq<string>, direct: Direct, normalise: string -> string)
    ensures Unmoved(before, after, listed, direct, normalise) <==>
            && (forall p | p in listed ::
                  && (p in before <==> p in after)
                  && (p in after && p in before ==> normalise(before[p]) == normalise(after[p])))
            && (forall p | p in after && direct(p) :: p in listed)
  {
    forall p ensures Same(At(before, p), At(after, p), normalise) <==>
        (p in before <==> p in after) && (p in after && p in before ==> normalise(before[p]) == normalise(after[p])) {
    }
  }

  /** The disk as a check that ran to its end leaves it. */
  ghost predicate PutBack(before: Files, after: Files, now: Files, listed: seq<string>, direct: Direct) {
    forall p :: At(now, p) == if p in listed then At(before, p) else if direct(p) then None else At(after, p)
  }

  /** After a sync that returned, whatever its code. */
  method CompareAndRestore(disk: Disk, listed: seq<string>, snapshots: map<string, Option<string>>, direct: Direct,
      normalise: string -> string, ghost before: Files)
    returns (verdict: Verdict, ghost done: nat)
    requires snapshots.Keys == (set p | p in listed) && forall p | p in listed :: snapshots[p] == At(before, p)
    modifies disk`files, disk`failures
    ensures disk.failures == old(disk.failures) + if verdict.RestoreFailed? then 1 else 0
    ensures verdict.InSync? || verdict.Drifted? || verdict.RestoreFailed?
    ensures verdict.InSync? ==> Unmoved(before, old(disk.files), listed, direct, normalise)
    ensures verdict.Drifted? ==> !Unmoved(before, old(disk.files), listed, direct, normalise)
    ensures !verdict.RestoreFailed? ==> PutBack(before, old(disk.files), disk.files, listed, direct)
    ensures verdict.RestoreFailed? ==> PartlyBack(before, old(disk.files), disk.files, listed, direct, done)
  {
    var found := NewFiles(disk.files, listed, direct);
    var paths := listed + found;
    var known := snapshots + map p | p in found :: None;
    var news := ReadAll(disk.files, paths);
    KnownIs(listed, found, snapshots, before);
    var restored;
    restored, done := Restore(disk, paths, known);
    if !restored {
      KnownBack(before, old(disk.files), disk.files, listed, found, direct, known, done);
      verdict := RestoreFailed;
      return;
    }
    var drifted := Compare(paths, known, news, normalise);
    verdict := if drifted == [] then InSync else Drifted;
    VerdictIs(before, old(disk.files), listed, found, direct, normalise, drifted);
  }

  /** A restore that failed at its entry `done`: the listed paths before that one are back, and a path that is neither
      listed nor in the directory is as the sync left it. */
  ghost predicate PartlyBack(before: Files, after: Files, now: Files, listed: seq<string>, direct: Direct, done: nat) {
    && (forall i | 0 <= i < |listed| && i < done && (done < |listed| ==> listed[i] != listed[done]) ::
          At(now, listed[i]) == At(before, listed[i]))
    && (forall p | p !in listed && !direct(p) :: At(now, p) == At(after, p))
    && (done < |listed| ==> forall p | p !in listed[..done + 1] :: At(now, p) == At(after, p))
  }

  lemma KnownBack(before: Files, after: Files, now: Files, listed: seq<string>, found: seq<string>, direct: Direct,
        known: map<string, Option<string>>, done: nat)
    requires forall p | p in listed :: p in known && known[p] == At(before, p)
    requires forall p | p in found :: p !in listed && direct(p)
    requires BackUpTo(known, after, now, listed + found, done) && done < |listed + found|
    ensures PartlyBack(before, after, now, listed, direct, done)
  {
    var paths := listed + found;
    forall i | 0 <= i < |listed| && i < done && (done < |listed| ==> listed[i] != listed[done])
      ensures At(now, listed[i]) == At(before, listed[i])
    {
      assert paths[i] == listed[i] && paths[..done][i] == paths[i];
      if done >= |listed| {
        assert paths[done] == found[done - |listed|] && paths[done] in found;
      }
    }
    forall p | p !in listed && !direct(p) ensures At(now, p) == At(after, p) {
      assert paths[done] in paths && p !in paths;
    }
    if done < |listed| {
      TakeNext(listed, done);
      assert paths[..done] == listed[..done] && paths[done] == listed[done];
    }
  }

  lemma KnownIs(listed: seq<string>, found: seq<string>, snapshots: map<string, Option<string>>, before: Files)
    requires forall p | p in listed :: p in snapshots && snapshots[p] == At(before, p)
    requires forall p | p in found :: p !in listed
    ensures var known := snapshots + map p | p in found :: None;
            forall p | p in listed + found :: p in known && known[p] == if p in listed then At(before, p) else None
  {
  }

  /** The list of drifted paths is empty exactly when nothing moved. */
  lemma VerdictIs(before: Files, after: Files, listed: seq<string>, found: seq<string>, direct: Direct,
      normalise: string -> string, drifted: seq<string>)
    requires forall p :: p in found <==> p in after && direct(p) && p !in listed
    requires forall p :: p in drifted <==>
               p in listed + found && !Same(if p in listed then At(before, p) else None, At(after, p), normalise)
    ensures drifted == [] <==> Unmoved(before, after, listed, direct, normalise)
  {
    if drifted != [] {
      assert drifted[0] in drifted;
    }
    forall p | p in found ensures p in drifted {
      assert p in listed + found;
    }
    forall p | p in listed && !Same(At(before, p), At(after, p), normalise) ensures p in drifted {
      assert p in listed + found;
    }
  }

  method RunWithCheck(disk: Disk, listed: seq<string>, scope: set<string>, direct: Direct, normalise: string -> string)
    returns (verdict: Verdict, restored: bool, ghost after: Files, ghost done: nat)
    modifies disk
    ensures forall p | p !in scope :: At(after, p) == At(old(disk.files), p)
    // the sync runs once, and how it ended decides between an answer and an exception; a failed write is one too
    ensures |disk.syncs| == |old(disk.syncs)| + 1 && disk.syncs[|old(disk.syncs)|].1 == after
    ensures verdict.Interrupted? <==> disk.syncs[|old(disk.syncs)|].0.Exited?
    ensures verdict.SyncFailed? <==> disk.syncs[|old(disk.syncs)|].0.Raised?
    ensures disk.failures == old(disk.failures)
        + if verdict.RestoreFailed? || (verdict.SyncFailed? && !restored) then 1 else 0
    // the verdict is about files alone: each listed path absent on both sides or the same after normalisation, and
    // nothing else in the directory
    ensures verdict.InSync? || verdict.Drifted? ==>
        (verdict.InSync? <==>
         && (forall p | p in listed ::
               && (p in old(disk.files) <==> p in after)
               && (p in after && p in old(disk.files) ==> normalise(old(disk.files)[p]) == normalise(after[p])))
         && (forall p | p in after && direct(p) :: p in listed))
    // what is left on disk
    ensures verdict.InSync? || verdict.Drifted? ==> PutBack(old(disk.files), after, disk.files, listed, direct)
    ensures verdict.SyncFailed? && restored ==> forall p ::
        At(disk.files, p) == At(if p in listed then old(disk.files) else after, p)
    // a restore that fails at its entry `done` has put back the listed paths before it
    ensures verdict.RestoreFailed? || (verdict.SyncFailed? && !restored) ==>
        PartlyBack(old(disk.files), after, disk.files, listed, direct, done)
    ensures verdict.SyncFailed? && !restored ==> done < |listed|
    ensures verdict.Interrupted? ==> disk.files == after
  {
    var snapshots := ReadAll(disk.files, listed);
    ghost var before := disk.files;
    restored, done := false, 0;
    var end := Sync(disk, scope);
    after := disk.files;
    UnmovedIs(before, after, listed, direct, normalise);
    match end
    case Exited =>
      verdict := Interrupted;
    case Raised =>
      verdict := SyncFailed;
      restored, done := Restore(disk, listed, snapshots);
      if !restored {
        assert listed + [] == listed;
        KnownBack(before, after, disk.files, listed, [], direct, snapshots, done);
      }
    case Returned(code) =>
      verdict, done := CompareAndRestore(disk, listed, snapshots, direct, normalise, before);
      restored := !verdict.RestoreFailed?;
  }

  // ---- no trace ----

  /** No file of the output directory was there unlisted. */
  ghost predicate AllListed(before: Files, listed: seq<string>, direct: Direct) {
    forall p | p in before && direct(p) :: p in listed
  }

  ghost predicate Covers(scope: set<string>, listed: seq<string>, direct: Direct) {
    forall p | p in scope :: p in listed || direct(p)
  }

  lemma SameFiles(a: Files, b: Files)
    requires forall p :: At(a, p) == At(b, p)
    ensures a == b
  {
    forall p ensures p in a <==> p in b {
      assert At(a, p) == At(b, p);
    }
    forall p | p in a ensures a[p] == b[p] {
      assert At(a, p) == At(b, p);
    }
  }

  /** A completed check of a sync that stays in its outputs leaves no trace exactly when every file the directory
      held was listed; one that was not is deleted. */
  lemma NoTraceIffAllListed(before: Files, after: Files, now: Files, listed: seq<string>, direct: Direct,
        scope: set<string>)
    requires Covers(scope, listed, direct) && forall p | p !in scope :: At(after, p) == At(before, p)
    requires PutBack(before, after, now, listed, direct)
    ensures now == before <==> AllListed(before, listed, direct)
    ensures forall p | p in before && direct(p) && p !in listed :: p !in now
  {
    forall p | p in before && direct(p) && p !in listed ensures p !in now {
      assert At(now, p) == None;
    }
    if AllListed(before, listed, direct) {
      SameFiles(now, before);
    }
  }

  /** With every file listed, in sync means that every known path is absent on both sides or the same. */
  lemma UnmovedIffSame(before: Files, after: Files, listed: seq<string>, direct: Direct, normalise: string -> string)
    requires AllListed(before, listed, direct)
    ensures Unmoved(before, after, listed, direct, normalise) <==>
            forall p | p in listed || direct(p) :: Same(At(before, p), At(after, p), normalise)
  {
    if forall p | p in listed || direct(p) :: Same(At(before, p), At(after, p), normalise) {
      forall p | p in after && direct(p) ensures p in listed {
        assert Same(At(before, p), At(after, p), normalise);
      }
    }
    if Unmoved(before, after, listed, direct, normalise) {
      forall p | p in listed || direct(p) ensures Same(At(before, p), At(after, p), normalise) {
        if p !in listed {
          assert At(before, p) == None && At(after, p) == None;
        }
      }
    }
  }

  /** `sync homepage --check` lists whatever files the directory holds, so it leaves no trace. */
  method HomepageCheck(disk: Disk, scope: set<string>, direct: Direct, normalise: string -> string)
    returns (verdict: Option<Verdict>, restored: bool, ghost after: Files)
    requires forall p | p in scope :: direct(p)
    modifies disk
    // unless the directory is empty the sync runs once, and how it ended decides as above
    ensures if verdict.None? then disk.syncs == old(disk.syncs) && disk.failures == old(disk.failures)
            else
              && |disk.syncs| == |old(disk.syncs)| + 1 && disk.syncs[|old(disk.syncs)|].1 == after
              && (verdict.value.Interrupted? <==> disk.syncs[|old(disk.syncs)|].0.Exited?)
              && (verdict.value.SyncFailed? <==> disk.syncs[|old(disk.syncs)|].0.Raised?)
              && disk.failures == old(disk.failures)
                   + if verdict.value.RestoreFailed? || (verdict.value.SyncFailed? && !restored) then 1 else 0
    // after an exception what the directory held is as it was, and after an interruption nothing is put back
    ensures verdict == Some(SyncFailed) && restored ==>
        forall p | p in old(disk.files) && direct(p) :: At(disk.files, p) == At(old(disk.files), p)
    ensures verdict == Some(Interrupted) ==> disk.files == after
    ensures verdict.None? || verdict.value.InSync? || verdict.value.Drifted? ==> disk.files == old(disk.files)
    ensures verdict.None? <==> forall p | p in old(disk.files) :: !direct(p)
    ensures verdict == Some(InSync) || verdict == Some(Drifted) ==>
        (verdict == Some(InSync) <==>
         forall p | direct(p) ::
           && (p in old(disk.files) <==> p in after)
           && (p in after && p in old(disk.files) ==> normalise(old(disk.files)[p]) == normalise(after[p])))
  {
    ghost var before := disk.files;
    restored, after := false, before;
    var listed := NewFiles(disk.files, [], direct);
    if listed == [] {
      return None, false, after;
    }
    assert listed[0] in listed;
    var end;
    ghost var done;
    end, restored, after, done := RunWithCheck(disk, listed, scope, direct, normalise);
    if end.InSync? || end.Drifted? {
      NoTraceIffAllListed(before, after, disk.files, listed, direct, scope);
    }
    verdict := Some(end);
  }

  /** A file of the directory that was not listed is gone after a check of a sync that wrote nothing. */
  lemma UnlistedIsDeleted(files: Files, now: Files, p: string)
    requires files == map[p := "kept by hand"] && PutBack(files, files, now, [], q => true)
    ensures now == map[]
  {
    forall q ensures q !in now {
      assert At(now, q) == None;
    }
  }
}
