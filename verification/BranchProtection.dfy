/** branch_protection.py: changing two fields of an object that can only be replaced whole. */
module BranchProtection {
  import opened Values
  import opened Ordering
  import opened Sequences

  const FLAGS := ["enforce_admins", "required_linear_history", "allow_force_pushes", "allow_deletions",
                  "block_creations", "required_conversation_resolution", "lock_branch", "allow_fork_syncing"]
  const ADMINS := "enforce_admins"
  const READ_ONLY := {"url", "required_signatures", "contexts_url"}

  // ---- what is read, what is sent ----

  /** A boolean as a response may carry it: not at all, bare, or as an object whose `enabled` may be missing. */
  datatype Flag = Missing | Bare(b: bool) | Wrapped(enabled: Option<bool>)

  datatype Who = Who(login: Option<string>, slug: Option<string>)

  datatype People<T> = People(users: seq<T>, teams: seq<T>, apps: seq<T>)

  datatype Checks = Checks(strict: bool, contexts: seq<string>, others: map<string, Value>)

  /** The object a GET answers with. */
  datatype Live = Live(flags: map<string, Flag>, reviews: Option<map<string, Value>>,
                       restrictions: Option<People<Who>>, checks: Option<Checks>)

  /** The body of a PUT. */
  datatype Body = Body(flags: map<string, bool>, reviews: Option<map<string, Value>>,
                       restrictions: Option<People<Option<string>>>, strict: bool, contexts: seq<string>)

  datatype Declared = Declared(strict: bool, contexts: seq<string>)

  function FlagAt(live: Live, name: string): Flag {
    if name in live.flags then live.flags[name] else Missing
  }

  function Truth(flag: Flag): bool {
    match flag
    case Missing => false
    case Bare(b) => b
    case Wrapped(enabled) => enabled == Some(true)
  }

  // ---- protection_changes ----

  datatype Change = StrictChange(bool, bool) | ContextsChange(seq<string>, seq<string>)

  function LiveStrict(live: Live): bool { live.checks.Some? && live.checks.value.strict }

  function LiveContexts(live: Live): seq<string> { if live.checks.Some? then live.checks.value.contexts else [] }

  ghost function ChangesOf(live: Live, declared: Declared): seq<Change> {
    (if LiveStrict(live) != declared.strict then [StrictChange(LiveStrict(live), declared.strict)] else []) +
    if multiset(LiveContexts(live)) != multiset(declared.contexts)
    then [ContextsChange(LiveContexts(live), declared.contexts)] else []
  }

  /** Nothing differs exactly when the live checks have the declared strictness and the same contexts in any order; live
      checks that are not there are not strict and have no contexts. */
  lemma NothingDiffers(live: Live, declared: Declared)
    ensures ChangesOf(live, declared) == [] <==>
            match live.checks
            case None => !declared.strict && declared.contexts == []
            case Some(checks) =>
              checks.strict == declared.strict && multiset(checks.contexts) == multiset(declared.contexts)
    ensures live.checks.Some? && live.checks.value.strict != declared.strict ==>
        StrictChange(live.checks.value.strict, declared.strict) in ChangesOf(live, declared)
    ensures live.checks.Some? && multiset(live.checks.value.contexts) != multiset(declared.contexts) ==>
        ContextsChange(live.checks.value.contexts, declared.contexts) in ChangesOf(live, declared)
  {
    if live.checks.None? && declared.contexts != [] {
      assert declared.contexts[0] in multiset(declared.contexts);
    }
  }

  /** Contexts are compared sorted, which is comparing what they contain. */
  method SameContexts(a: seq<string>, b: seq<string>) returns (same: bool)
    ensures same == (multiset(a) == multiset(b))
  {
    same := Sort(Itself, a) == Sort(Itself, b);
    SortedEqual(a, b);
  }

  method ProtectionChanges(live: Live, declared: Declared) returns (changes: seq<Change>)
    ensures changes == ChangesOf(live, declared)
  {
    changes := [];
    if LiveStrict(live) != declared.strict {
      changes := changes + [StrictChange(LiveStrict(live), declared.strict)];
    }
    var same := SameContexts(LiveContexts(live), declared.contexts);
    if !same {
      changes := changes + [ContextsChange(LiveContexts(live), declared.contexts)];
    }
  }

  // ---- put_body ----

  function NameOf(who: Who): Option<string> {
    if who.login.Some? && who.login.value != "" then who.login else who.slug
  }

  function NamesOf(whos: seq<Who>): seq<Option<string>> {
    seq(|whos|, i requires 0 <= i < |whos| => NameOf(whos[i]))
  }

  function BodyOf(live: Live, declared: Declared): Body {
    Body(map name | name in FLAGS :: Truth(FlagAt(live, name)),
         match live.reviews case None => None case Some(r) => Some(r - READ_ONLY),
         match live.restrictions case None => None
                                 case Some(p) => Some(People(NamesOf(p.users), NamesOf(p.teams), NamesOf(p.apps))),
         declared.strict, declared.contexts)
  }

  method PutBody(live: Live, declared: Declared) returns (body: Body)
    ensures body == BodyOf(live, declared)
  {
    var flags: map<string, bool> := map[];
    for i := 0 to |FLAGS|
      invariant flags == map name | name in FLAGS[..i] :: Truth(FlagAt(live, name))
    {
      flags := flags[FLAGS[i] := Truth(FlagAt(live, FLAGS[i]))];
      TakeNext(FLAGS, i);
    }
    TakeAll(FLAGS);
    var reviews := if live.reviews.None? then None else Some(live.reviews.value - READ_ONLY);
    var restrictions := None;
    if live.restrictions.Some? {
      var p := live.restrictions.value;
      restrictions := Some(People(NamesOf(p.users), NamesOf(p.teams), NamesOf(p.apps)));
    }
    body := Body(flags, reviews, restrictions, declared.strict, declared.contexts);
  }

  /** The flags that are sent, whatever the response carried: a bare boolean, or the `enabled` of an object; what is
      missing is sent as false.  Reviews go without the three links, people by login or else by slug. */
  lemma BodyCarries(live: Live, declared: Declared)
    ensures var body := BodyOf(live, declared);
            && body.flags.Keys == {"enforce_admins", "required_linear_history", "allow_force_pushes", "allow_deletions",
                  "block_creations", "required_conversation_resolution", "lock_branch", "allow_fork_syncing"}
            && (forall name | name in body.flags :: body.flags[name] <==>
                  name in live.flags && (live.flags[name] == Bare(true) || live.flags[name] == Wrapped(Some(true))))
            && body.strict == declared.strict && body.contexts == declared.contexts
            && (live.reviews.None? <==> body.reviews.None?) && (live.restrictions.None? <==> body.restrictions.None?)
            && (live.reviews.Some? ==>
                  body.reviews.value == live.reviews.value - {"url", "required_signatures", "contexts_url"})
  {
    FlagNames();
    assert BodyOf(live, declared).flags.Keys == set name | name in FLAGS;
    forall name {
      FlagTrue(live, name);
    }
  }

  lemma FlagTrue(live: Live, name: string)
    ensures Truth(FlagAt(live, name)) <==>
            name in live.flags && (live.flags[name] == Bare(true) || live.flags[name] == Wrapped(Some(true)))
  {
    match FlagAt(live, name)
    case Missing =>
    case Bare(b) =>
    case Wrapped(b) =>
  }

  lemma FlagNames()
    ensures (set name | name in FLAGS) ==
            {"enforce_admins", "required_linear_history", "allow_force_pushes", "allow_deletions", "block_creations",
             "required_conversation_resolution", "lock_branch", "allow_fork_syncing"}
  {
    assert FLAGS[0] == "enforce_admins" && FLAGS[1] == "required_linear_history" && FLAGS[2] == "allow_force_pushes"
        && FLAGS[3] == "allow_deletions" && FLAGS[4] == "block_creations"
        && FLAGS[5] == "required_conversation_resolution" && FLAGS[6] == "lock_branch"
        && FLAGS[7] == "allow_fork_syncing" && |FLAGS| == 8;
  }

  lemma {:induction false} BodyNames(live: Live, declared: Declared)
    requires live.restrictions.Some?
    ensures var people, sent := live.restrictions.value, BodyOf(live, declared).restrictions.value;
            CarriesNames(people.users, sent.users) && CarriesNames(people.teams, sent.teams)
            && CarriesNames(people.apps, sent.apps)
  {
  }

  ghost predicate CarriesNames(whos: seq<Who>, names: seq<Option<string>>) {
    |names| == |whos| && forall i | 0 <= i < |whos| ::
      names[i] == match whos[i].login case Some(login) => (if login != "" then Some(login) else whos[i].slug)
                                      case None => whos[i].slug
  }

  // ---- a server that replaces the whole object ----

  /** What the server keeps; restrictions are by name. */
  datatype Stored = Stored(flags: map<string, bool>, reviews: Option<map<string, Value>>,
                           restrictions: Option<People<string>>, checks: Option<Checks>)

  /** Every flag has a value, names are not empty, and links are not part of what is kept. */
  ghost predicate Kept(s: Stored) {
    && s.flags.Keys == (set name | name in FLAGS)
    && (s.reviews.Some? ==> s.reviews.value.Keys !! READ_ONLY)
    && (s.restrictions.Some? ==> "" !in s.restrictions.value.users)
  }

  function AsLogin(name: string): Who { Who(Some(name), None) }

  function AsSlug(name: string): Who { Who(None, Some(name)) }

  function Each<A, B>(xs: seq<A>, f: A -> B): (r: seq<B>)
    ensures |r| == |xs| && forall i | 0 <= i < |xs| :: r[i] == f(xs[i])
  {
    seq(|xs|, i requires 0 <= i < |xs| => f(xs[i]))
  }

  /** GET wraps the booleans, adds links, and answers with people as objects. */
  function ReadOf(s: Stored, link: Value): Live {
    Live(map name | name in s.flags :: Wrapped(Some(s.flags[name])),
         match s.reviews case None => None case Some(r) => Some(r["url" := link]),
         match s.restrictions case None => None
                              case Some(p) =>
                                Some(People(Each(p.users, AsLogin), Each(p.teams, AsSlug), Each(p.apps, AsSlug))),
         s.checks)
  }

  function Named(names: seq<Option<string>>): seq<string> {
    if names == [] then [] else (if names[0].Some? then [names[0].value] else []) + Named(names[1..])
  }

  /** PUT keeps nothing of what was there: a flag that is not sent is false, and the status checks are what is sent. */
  function ReplaceBy(body: Body): Stored {
    Stored(map name | name in FLAGS :: name in body.flags && body.flags[name],
           match body.reviews case None => None case Some(r) => Some(r - READ_ONLY),
           match body.restrictions case None => None
                                   case Some(p) => Some(People(Named(p.users), Named(p.teams), Named(p.apps))),
           Some(Checks(body.strict, body.contexts, map[])))
  }

  lemma {:induction false} NamesReadBack(names: seq<string>, as': string -> Who)
    requires forall n | n in names :: NameOf(as'(n)) == Some(n)
    ensures Named(NamesOf(Each(names, as'))) == names
  {
    if names != [] {
      NamesReadBack(names[1..], as');
      var all := NamesOf(Each(names, as'));
      assert all[1..] == NamesOf(Each(names[1..], as'));
      assert names[0] in names && all[0] == Some(names[0]);
    }
  }

  /** Reading, overlaying the declaration and writing back: the two declared fields, and nothing else but the
      status checks' other settings, which are lost. */
  lemma WriteBack(s: Stored, declared: Declared, link: Value)
    requires Kept(s)
    ensures ReplaceBy(BodyOf(ReadOf(s, link), declared)) ==
            s.(checks := Some(Checks(declared.strict, declared.contexts, map[])))
  {
    var live := ReadOf(s, link);
    var after := ReplaceBy(BodyOf(live, declared));
    forall name | name in FLAGS ensures after.flags[name] == s.flags[name] {
      assert name in s.flags && FlagAt(live, name) == Wrapped(Some(s.flags[name]));
    }
    assert after.flags.Keys == s.flags.Keys;
    if s.reviews.Some? {
      assert after.reviews.value == s.reviews.value;
    }
    if s.restrictions.Some? {
      var p := s.restrictions.value;
      NamesReadBack(p.users, AsLogin);
      NamesReadBack(p.teams, AsSlug);
      NamesReadBack(p.apps, AsSlug);
    }
  }

  /** Only `strict` and the contexts change exactly when the status checks carried nothing else. */
  lemma OnlyDeclaredIffNoOthers(s: Stored, declared: Declared, link: Value)
    requires Kept(s) && s.checks.Some?
    ensures ReplaceBy(BodyOf(ReadOf(s, link), declared)) ==
              s.(checks := Some(s.checks.value.(strict := declared.strict, contexts := declared.contexts)))
            <==> s.checks.value.others == map[]
  {
    WriteBack(s, declared, link);
  }

  // ---- ensure_protection ----

  /** A request and what came of it. */
  datatype Exchange = Got(reply: Option<Option<Live>>) | Put(body: Body, ok: bool)

  /** The endpoints of one branch.  A `faithful` server replaces whole and reads back what it keeps; any other may
      answer anything.  Either may fail a request, and a PUT that fails may have been carried out. */
  class Client {
    var stored: Option<Stored>
    var puts: nat
    /** Every exchange, in order. */
    ghost var log: seq<Exchange>
    const faithful: bool
    const link: Value

    constructor (stored: Option<Stored>, faithful: bool, link: Value) {
      this.stored := stored;
      this.faithful := faithful;
      this.link := link;
      puts := 0;
      log := [];
    }

    /** None when the request fails; Some(None) when the branch is not protected. */
    method Get() returns (r: Option<Option<Live>>)
      modifies this`log
      ensures log == old(log) + [Got(r)]
      ensures faithful && r.Some? ==> r.value == match stored case None => None case Some(s) => Some(ReadOf(s, link))
    {
      r := *;
      if faithful && r.Some? {
        r := Some(match stored case None => None case Some(s) => Some(ReadOf(s, link)));
      }
      log := log + [Got(r)];
    }

    method Replace(body: Body) returns (ok: bool)
      modifies this`stored, this`puts, this`log
      ensures log == old(log) + [Put(body, ok)]
      ensures puts == old(puts) + 1
      ensures faithful ==> stored == Some(ReplaceBy(body)) || (!ok && stored == old(stored))
    {
      ok := *;
      puts := puts + 1;
      var lost: bool := *;
      if ok || lost {
        stored := *;
        if faithful {
          stored := Some(ReplaceBy(body));
        }
      }
      log := log + [Put(body, ok)];
    }
  }

  datatype Result =
    | Applied(changes: seq<Change>)
    | NotProtected
    | Gone
    | StillDisagrees(changes: seq<Change>)
    | AdminsChanged
    | AdminsUnreadable
    | RequestFailed

  /** What the exchanges of one run come to: read; if anything differs, send the whole object back and read again. */
  ghost predicate Ends(sent: seq<Exchange>, declared: Declared, r: Result) {
    && sent != [] && sent[0].Got?
    && match sent[0].reply
       case None => |sent| == 1 && r.RequestFailed?
       case Some(None) => |sent| == 1 && r.NotProtected?
       case Some(Some(live)) =>
         if ChangesOf(live, declared) == [] then |sent| == 1 && r == Applied([])
         else
           && |sent| >= 2 && sent[1].Put? && sent[1].body == BodyOf(live, declared)
           && if !sent[1].ok then |sent| == 2 && r.RequestFailed?
              else |sent| == 3 && sent[2].Got? && Confirms(sent[2].reply, live, declared, r)
  }

  /** What the second read comes to. */
  ghost predicate Confirms(reply: Option<Option<Live>>, live: Live, declared: Declared, r: Result) {
    match reply
    case None => r.RequestFailed?
    case Some(None) => r.Gone?
    case Some(Some(after)) =>
      if ChangesOf(after, declared) != [] then r == StillDisagrees(ChangesOf(after, declared))
      else if FlagAt(after, "enforce_admins") == Bare(true) || FlagAt(live, "enforce_admins") == Bare(true)
      then r.AdminsUnreadable?
      else if (FlagAt(after, "enforce_admins") == Wrapped(Some(true)))
              != (FlagAt(live, "enforce_admins") == Wrapped(Some(true))) then r.AdminsChanged?
      else r == Applied(ChangesOf(live, declared))
  }

  /** The whole object sent back and read again. */
  method Reconcile(client: Client, declared: Declared, live: Live) returns (r: Result, ghost after: Option<Live>)
    requires ChangesOf(live, declared) != []
    requires client.faithful ==> client.stored.Some? && live == ReadOf(client.stored.value, client.link)
    modifies client`stored, client`puts, client`log
    ensures old(client.log) <= client.log
    ensures Ends([Got(Some(Some(live)))] + client.log[|old(client.log)|..], declared, r)
    ensures r.Applied? ==> after.Some? && ChangesOf(after.value, declared) == []
    ensures r.Applied? ==> r.changes == ChangesOf(live, declared)
    ensures r.Applied? ==> Truth(FlagAt(after.value, ADMINS)) == Truth(FlagAt(live, ADMINS))
    ensures r.StillDisagrees? ==> after.Some? && r.changes == ChangesOf(after.value, declared) != []
    ensures !r.NotProtected? && client.puts == old(client.puts) + 1
    ensures client.faithful && Kept(old(client.stored).value) ==> r.Applied? || r.RequestFailed?
    ensures client.faithful && Kept(old(client.stored).value) ==>
      client.stored == old(client.stored) ||
      client.stored ==
          Some(old(client.stored).value.(checks := Some(Checks(declared.strict, declared.contexts, map[]))))
    ensures client.faithful && r.Applied? ==>
        client.stored.Some? && after.value == ReadOf(client.stored.value, client.link)
  {
    after := None;
    ghost var start := client.log;
    var body := PutBody(live, declared);
    if client.faithful && Kept(client.stored.value) {
      WriteBack(client.stored.value, declared, client.link);
    }
    var ok := client.Replace(body);
    if !ok {
      assert client.log[|start|..] == [Put(body, false)];
      return RequestFailed, None;
    }
    var second := client.Get();
    assert client.log[|start|..] == [Put(body, true), Got(second)];
    if second.None? {
      return RequestFailed, None;
    }
    if second.value.None? {
      return Gone, None;
    }
    after := second.value;
    r := Confirm(live, second.value.value, declared);
  }

  /** The post-conditions of the command. */
  method Confirm(live: Live, after: Live, declared: Declared) returns (r: Result)
    ensures Confirms(Some(Some(after)), live, declared, r)
    ensures r.Applied? ==> Truth(FlagAt(after, ADMINS)) == Truth(FlagAt(live, ADMINS))
  {
    var remaining := ProtectionChanges(after, declared);
    if remaining != [] {
      return StillDisagrees(remaining);
    }
    var before, now := FlagAt(live, ADMINS), FlagAt(after, ADMINS);
    if now == Bare(true) || before == Bare(true) {
      return AdminsUnreadable;
    }
    if Truth(now) != Truth(before) {
      return AdminsChanged;
    }
    var pending := ProtectionChanges(live, declared);
    r := Applied(pending);
  }

  /** `ensure_protection`; `live` and `after` are the first and the last object read. */
  method EnsureProtection(client: Client, declared: Declared)
    returns (r: Result, ghost live: Option<Live>, ghost after: Option<Live>)
    modifies client`stored, client`puts, client`log
    // exactly what was exchanged, and what it comes to
    ensures old(client.log) <= client.log && Ends(client.log[|old(client.log)|..], declared, r)
    ensures live == match client.log[|old(client.log)|].reply case None => None case Some(first) => first
    // any server: a normal return means the last read agrees, and that admins are enforced as they were
    ensures r.Applied? ==> live.Some? && after.Some? && ChangesOf(after.value, declared) == []
    ensures r.Applied? ==> r.changes == ChangesOf(live.value, declared)
    ensures live.Some? && ChangesOf(live.value, declared) == [] ==> r == Applied([]) && after == live
    ensures live.None? ==> r.NotProtected? || r.RequestFailed?
    ensures r.StillDisagrees? ==> after.Some? && r.changes == ChangesOf(after.value, declared) != []
    ensures r.Applied? ==> Truth(FlagAt(after.value, ADMINS)) == Truth(FlagAt(live.value, ADMINS))
    // one PUT if anything was pending, and none otherwise
    ensures client.puts == old(client.puts) + (if live.Some? && ChangesOf(live.value, declared) != [] then 1 else 0)
    ensures live.None? || ChangesOf(live.value, declared) == [] ==> client.stored == old(client.stored)
    // a server that replaces the whole object and says so: nothing but a lost request goes wrong
    ensures client.faithful && old(client.stored).Some? && Kept(old(client.stored).value) ==>
      r.Applied? || r.RequestFailed?
    ensures client.faithful && old(client.stored).Some? && Kept(old(client.stored).value) ==>
      client.stored == old(client.stored) ||
      client.stored ==
          Some(old(client.stored).value.(checks := Some(Checks(declared.strict, declared.contexts, map[]))))
    ensures client.faithful && live.Some? ==>
        old(client.stored).Some? && live.value == ReadOf(old(client.stored).value, client.link)
    ensures client.faithful && r.Applied? ==>
        client.stored.Some? && after.value == ReadOf(client.stored.value, client.link)
  {
    live, after := None, None;
    ghost var start := client.log;
    var first := client.Get();
    assert client.log[|start|..] == [Got(first)];
    if first.None? {
      return RequestFailed, live, after;
    }
    if first.value.None? {
      return NotProtected, live, after;
    }
    live, after := first.value, first.value;
    var pending := ProtectionChanges(first.value.value, declared);
    if pending == [] {
      return Applied([]), live, after;
    }
    r, after := Reconcile(client, declared, first.value.value);
    assert client.log[|start|..] == [Got(first)] + client.log[|start| + 1..];
  }

  /** A second run on such a server finds nothing to change, sends no PUT and leaves the object alone. */
  method EnsureTwice(client: Client, declared: Declared)
    returns (first: Result, second: Result, ghost puts: nat, ghost stored: Option<Stored>)
    requires client.faithful && client.stored.Some? && Kept(client.stored.value)
    modifies client`stored, client`puts, client`log
    ensures first.Applied? ==> second == Applied([]) || second.RequestFailed?
    ensures first.Applied? ==> client.puts == puts && client.stored == stored
    ensures puts <= old(client.puts) + 1
    ensures first.Applied? ==> stored.Some? && Kept(stored.value) &&
                               ChangesOf(ReadOf(stored.value, client.link), declared) == []
  {
    ghost var live, after;
    first, live, after := EnsureProtection(client, declared);
    puts, stored := client.puts, client.stored;
    assert first.Applied? ==> ChangesOf(ReadOf(client.stored.value, client.link), declared) == [];
    second, live, after := EnsureProtection(client, declared);
  }
}
