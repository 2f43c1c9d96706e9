/** Google Secret Manager as the sync sees it: versions of a secret, the newest of which is `latest`. */
module SecretStore {
  import opened Values

  datatype State = Enabled | Disabled | Destroyed

  datatype Version = Version(value: string, state: State)

  /** A secret's versions, oldest first. */
  type Versions = seq<Version>

  /** What `versions access latest` prints before newlines are translated: the newest version, if it is enabled. */
  function Latest(vs: Versions): Option<string> {
    if vs != [] && vs[|vs| - 1].state.Enabled? then Some(vs[|vs| - 1].value) else None
  }

  function EnabledCount(vs: Versions): nat {
    if vs == [] then 0 else EnabledCount(vs[1..]) + if vs[0].state.Enabled? then 1 else 0
  }

  /** Where the enabled versions are, newest first. */
  function EnabledAt(vs: Versions): (r: seq<nat>)
    ensures forall i :: i in r <==> 0 <= i < |vs| && vs[i].state.Enabled?
    ensures forall i, j | 0 <= i < j < |r| :: r[j] < r[i]
  {
    if vs == [] then []
    else
      var n := |vs| - 1;
      var rest := EnabledAt(vs[..n]);
      assert forall k | 0 <= k < |rest| :: rest[k] in rest;
      (if vs[n].state.Enabled? then [n] else []) + rest
  }

  lemma {:induction false} CountAtMostOne(vs: Versions, only: nat)
    requires forall i | 0 <= i < |vs| && i != only :: !vs[i].state.Enabled?
    ensures EnabledCount(vs) <= 1
  {
    if vs != [] {
      if only == 0 {
        CountNone(vs[1..]);
      } else {
        CountAtMostOne(vs[1..], only - 1);
      }
    }
  }

  lemma {:induction false} CountNone(vs: Versions)
    requires forall i | 0 <= i < |vs| :: !vs[i].state.Enabled?
    ensures EnabledCount(vs) == 0
  {
    if vs != [] {
      CountNone(vs[1..]);
    }
  }

  lemma {:induction false} CountAppend(vs: Versions, v: Version)
    ensures EnabledCount(vs + [v]) == EnabledCount(vs) + if v.state.Enabled? then 1 else 0
  {
    if vs == [] {
      assert [v][1..] == [];
    } else {
      assert (vs + [v])[1..] == vs[1..] + [v];
      CountAppend(vs[1..], v);
    }
  }

  /** Nothing was added or rewritten, and what was destroyed had a newer enabled version that still is. */
  ghost predicate Cleaned(vs: Versions, vs': Versions) {
    && |vs'| == |vs|
    && (forall i | 0 <= i < |vs| :: vs'[i] == vs[i] || (vs[i].state.Enabled? && vs'[i] == vs[i].(state := Destroyed)))
    && (forall i | 0 <= i < |vs| && vs'[i] != vs[i] :: exists j | i < j < |vs| ::
        vs'[j] == vs[j] && vs[j].state.Enabled?)
  }

  lemma {:induction false} CleanedCount(vs: Versions, vs': Versions)
    requires |vs'| == |vs|
    requires forall i | 0 <= i < |vs| ::
        vs'[i] == vs[i] || (vs[i].state.Enabled? && vs'[i] == vs[i].(state := Destroyed))
    ensures EnabledCount(vs') <= EnabledCount(vs)
  {
    if vs != [] {
      CleanedCount(vs[1..], vs'[1..]);
    }
  }

  /** The store.  While it is `flaky` any call may fail, and a call that fails may have been carried out. */
  class Store {
    var secrets: map<string, Versions>
    var flaky: bool
    /** How many calls failed that should have worked. */
    ghost var failures: nat
    /** How many calls that were to write a value did not say that they had. */
    ghost var refusals: nat

    constructor (flaky: bool) {
      failures, refusals := 0, 0;
      secrets := map[];
      this.flaky := flaky;
    }

    ghost predicate OnlyAt(id: string, before: map<string, Versions>)
      reads this`secrets
    {
      forall other | other != id :: (other in secrets <==> other in before)
          && (other in before ==> secrets[other] == before[other])
    }

    method Describe(id: string) returns (ok: bool)
      modifies this`failures
      ensures ok ==> id in secrets
      ensures !flaky ==> ok == (id in secrets)
      ensures failures == old(failures) + if id in secrets && !ok then 1 else 0
    {
      var fails: bool := *;
      ok := id in secrets && !(flaky && fails);
      failures := failures + if id in secrets && !ok then 1 else 0;
    }

    method AccessLatest(id: string) returns (value: Option<string>)
      modifies this`failures
      ensures failures == old(failures) + if id in secrets && value != Latest(secrets[id]) then 1 else 0
      ensures value.Some? ==> id in secrets && Latest(secrets[id]) == value
      ensures !flaky && id in secrets ==> value == Latest(secrets[id])
    {
      var fails: bool := *;
      value := if id in secrets && !(flaky && fails) then Latest(secrets[id]) else None;
      failures := failures + if id in secrets && value != Latest(secrets[id]) then 1 else 0;
    }

    method Create(id: string, value: string) returns (ok: bool)
      modifies this`secrets, this`failures, this`refusals
      ensures refusals == old(refusals) + if ok then 0 else 1
      ensures failures == old(failures) + if id !in old(secrets) && !ok then 1 else 0
      ensures OnlyAt(id, old(secrets))
      ensures id in old(secrets) ==> !ok && secrets == old(secrets)
      ensures id !in old(secrets) && id in secrets ==> secrets[id] == [Version(value, Enabled)]
      ensures ok ==> id in secrets
      ensures !flaky && id !in old(secrets) ==> ok
    {
      var fails: bool, lost: bool := *, *;
      ok := id !in secrets && !(flaky && fails);
      failures := failures + if id !in secrets && !ok then 1 else 0;
      refusals := refusals + if ok then 0 else 1;
      if id !in secrets && (ok || lost) {
        secrets := secrets[id := [Version(value, Enabled)]];
      }
    }

    method AddVersion(id: string, value: string) returns (ok: bool)
      requires id in secrets
      modifies this`secrets, this`failures, this`refusals
      ensures refusals == old(refusals) + if ok then 0 else 1
      ensures failures == old(failures) + if ok then 0 else 1
      ensures OnlyAt(id, old(secrets)) && id in secrets
      ensures secrets[id] == old(secrets[id]) || secrets[id] == old(secrets[id]) + [Version(value, Enabled)]
      ensures ok ==> secrets[id] == old(secrets[id]) + [Version(value, Enabled)]
      ensures !flaky ==> ok
    {
      var fails: bool, lost: bool := *, *;
      ok := !(flaky && fails);
      failures := failures + if ok then 0 else 1;
      refusals := refusals + if ok then 0 else 1;
      if ok || lost {
        secrets := secrets[id := secrets[id] + [Version(value, Enabled)]];
      }
    }

    method ListEnabled(id: string) returns (listed: Option<seq<nat>>)
      requires id in secrets
      modifies this`failures
      ensures failures == old(failures) + if listed.Some? then 0 else 1
      ensures listed.Some? ==> listed.value == EnabledAt(secrets[id])
      ensures !flaky ==> listed.Some?
    {
      var fails: bool := *;
      listed := if flaky && fails then None else Some(EnabledAt(secrets[id]));
      failures := failures + if listed.Some? then 0 else 1;
    }

    method Destroy(id: string, i: nat) returns (ok: bool)
      requires id in secrets && i < |secrets[id]|
      modifies this`secrets, this`failures
      ensures failures == old(failures) + if ok then 0 else 1
      ensures OnlyAt(id, old(secrets)) && id in secrets
      ensures secrets[id] == old(secrets[id])
        || secrets[id] == old(secrets[id])[i := old(secrets[id])[i].(state := Destroyed)]
      ensures ok ==> secrets[id] == old(secrets[id])[i := old(secrets[id])[i].(state := Destroyed)]
      ensures !flaky ==> ok
    {
      var fails: bool, lost: bool := *, *;
      ok := !(flaky && fails);
      failures := failures + if ok then 0 else 1;
      if ok || lost {
        secrets := secrets[id := secrets[id][i := secrets[id][i].(state := Destroyed)]];
      }
    }
  }
}
