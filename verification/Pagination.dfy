/** gitea_client.py: walking the pages of a listing until one comes back short. */
module Pagination {
  import opened Values
  import opened Sequences

  const PAGE_SIZE := 50

  /** A decoded response body. */
  datatype Payload<T> = Array(items: seq<T>) | Object(fields: map<string, Payload<T>>) | Scalar

  datatype Reply<T> = RequestFailed | Answer(payload: Payload<T>)

  function Min(a: nat, b: nat): nat { if a < b then a else b }

  /** Items `from` and on, at most `size` of them. */
  function Slice<T>(all: seq<T>, from: nat, size: nat): seq<T> {
    if |all| <= from then [] else all[from..Min(|all|, from + size)]
  }

  /** A server that holds `all` and gives at most `cap` items a page; under `key` it wraps them. */
  class Server<T> {
    const all: seq<T>
    const cap: nat
    const key: Option<string>
    /** Requests sent, and how many of them failed. */
    var requests: nat
    ghost var failures: nat

    constructor (all: seq<T>, cap: nat, key: Option<string>)
      requires cap > 0
      ensures this.all == all && this.cap == cap && this.key == key && requests == 0
    {
      this.all, this.cap, this.key, requests := all, cap, key, 0;
    }

    /** A page, or a failure: of the request, or an answer that is no listing. */
    method Page(page: nat, limit: nat) returns (r: Reply<T>)
      requires page > 0
      modifies this
      ensures requests == old(requests) + 1
      ensures failures == old(failures) + if r.Answer? && Items(r.payload, key).Some? then 0 else 1
      ensures r.Answer? && Items(r.payload, key).Some? ==>
          r.payload == Wrapped(Slice(all, (page - 1) * Min(limit, cap), Min(limit, cap)))
    {
      requests := requests + 1;
      var fails: bool, garbled: bool := *, *;
      r := if fails then RequestFailed
           else if garbled then Answer(Scalar)
           else Answer(Wrapped(Slice(all, (page - 1) * Min(limit, cap), Min(limit, cap))));
      failures := failures + if fails || garbled then 1 else 0;
    }

    function Wrapped(items: seq<T>): Payload<T> {
      match key case None => Array(items) case Some(k) => Object(map[k := Array(items)])
    }
  }

  /** `payload.get(key, [])`, or the payload itself; None when what is there is not a list. */
  function Items<T>(payload: Payload<T>, key: Option<string>): Option<seq<T>> {
    match key
    case None => if payload.Array? then Some(payload.items) else None
    case Some(k) =>
      if !payload.Object? then None
      else if k !in payload.fields then Some([])
      else if payload.fields[k].Array? then Some(payload.fields[k].items)
      else None
  }

  /** A bare answer must be a list; in a wrapped one a missing list reads as an empty one; anything else is refused. */
  lemma ItemsAre<T>(xs: seq<T>, k: string, others: map<string, Payload<T>>)
    ensures Items(Array(xs), None) == Some(xs) && Items(Object(others), None) == None
    ensures Items(Object(others[k := Array(xs)]), Some(k)) == Some(xs) && Items(Array(xs), Some(k)) == None
    ensures k !in others ==> Items(Object(others), Some(k)) == Some([])
    ensures k in others && !others[k].Array? ==> Items(Object(others), Some(k)) == None
  {
  }

  /** What the walk gives: everything where a full page can be had, else the first page. */
  function Walked<T>(all: seq<T>, cap: nat): seq<T> {
    if cap >= PAGE_SIZE then all else all[..Min(|all|, cap)]
  }

  /** `_paginate`: what was yielded, and whether the walk came to its end. */
  method Paginate<T>(server: Server<T>) returns (yielded: seq<T>, done: bool)
    requires server.cap > 0
    modifies server
    ensures done ==> yielded == Walked(server.all, server.cap)
    ensures yielded <= server.all
    ensures server.failures == old(server.failures) + if done then 0 else 1
    ensures done ==>
        server.requests == old(server.requests) + (if server.cap >= PAGE_SIZE then |server.all| / PAGE_SIZE + 1 else 1)
    ensures !done ==> |yielded| % PAGE_SIZE == 0 && server.requests == old(server.requests) + |yielded| / PAGE_SIZE + 1
  {
    yielded, done := [], false;
    var page := 1;
    while true
      invariant page > 0 && |yielded| == (page - 1) * PAGE_SIZE <= |server.all| && yielded == server.all[..|yielded|]
      invariant page > 1 ==> server.cap >= PAGE_SIZE
      invariant server.requests == old(server.requests) + page - 1 && server.failures == old(server.failures)
      decreases |server.all| - |yielded|
    {
      var reply := server.Page(page, PAGE_SIZE);
      if reply.RequestFailed? {
        return;
      }
      var items := Items(reply.payload, server.key);
      if items.None? {
        return;
      }
      yielded := yielded + items.value;
      if |items.value| < PAGE_SIZE {
        done := true;
        return;
      }
      page := page + 1;
    }
  }

  /** The walk gives the whole listing exactly when a page holds as many as asked for, or one page holds it all. */
  lemma WholeIffPageHolds<T>(all: seq<T>, cap: nat)
    ensures Walked(all, cap) == all <==> cap >= 50 || |all| <= cap
  {
    if cap < PAGE_SIZE {
      assert |Walked(all, cap)| == Min(|all|, cap);
      if |all| <= cap {
        TakeAll(all);
      }
    }
  }

  // ---- the listings ----

  datatype Repo = Repo(owner: string, name: string, isPrivate: bool)

  function FullName(r: Repo): string { r.owner + "/" + r.name }

  /** `list_repos`: what the walk gave, by name; of two entries with one name the later counts. */
  function ByName(repos: seq<Repo>): map<string, bool> {
    if repos == [] then map[]
    else
      var last := repos[|repos| - 1];
      ByName(repos[..|repos| - 1])[FullName(last) := last.isPrivate]
  }

  method ListRepos(server: Server<Repo>) returns (repos: Option<map<string, bool>>)
    requires server.cap > 0
    modifies server
    ensures repos.Some? ==> repos.value == ByName(Walked(server.all, server.cap))
    ensures repos.None? <==> server.failures > old(server.failures)
  {
    var items, done := Paginate(server);
    if !done {
      return None;
    }
    var found: map<string, bool> := map[];
    for i := 0 to |items|
      invariant found == ByName(items[..i]) && server.failures == old(server.failures)
    {
      TakeNext(items, i);
      found := found[FullName(items[i]) := items[i].isPrivate];
    }
    TakeAll(items);
    repos := Some(found);
  }

  /** A name is in the listing exactly when a repository has it. */
  lemma {:induction false} NamesListed(repos: seq<Repo>, name: string)
    ensures name in ByName(repos) <==> exists r | r in repos :: r.owner + "/" + r.name == name
  {
    if repos != [] {
      var init, last := repos[..|repos| - 1], repos[|repos| - 1];
      NamesListed(init, name);
      assert repos == init + [last];
      assert FullName(last) == last.owner + "/" + last.name;
    }
  }

  /** And it has the visibility of the last one that does. */
  lemma {:induction false} LastOfName(repos: seq<Repo>, i: nat)
    requires i < |repos| && forall j | i < j < |repos| :: FullName(repos[j]) != FullName(repos[i])
    ensures FullName(repos[i]) in ByName(repos) && ByName(repos)[FullName(repos[i])] == repos[i].isPrivate
  {
    if i < |repos| - 1 {
      LastOfName(repos[..|repos| - 1], i);
    }
  }

  /** Of sixty items on a server that gives thirty a page, thirty are seen. */
  lemma SmallCapTruncates<T>(all: seq<T>)
    requires |all| == 60
    ensures |Walked(all, 30)| == 30
  {
  }
}
