/** configuration.py `_inject_contact_email_derivations`: one declared address fills the places left blank. */
module ContactEmail {
  import opened Values
  import opened Configuration

  const SOURCE: Path := ["apps", "contact", "email"]
  const ACME: Path := ["edge", "traefik", "acme_email"]
  const KUMA: Path := ["apps", "services", "observability", "uptime_kuma", "admin_email"]
  const GITEA: Path := ["apps", "services", "core", "gitea", "admin_email"]
  const USERS: Path := ["apps", "services", "security", "authelia", "users"]

  /** Python truth. */
  predicate Truthy(v: Value) {
    match v
    case Null => false
    case Bool(b) => b
    case Int(n) => n != 0
    case Str(s) => s != ""
    case List(xs) => xs != []
    case Map(m) => m != map[]
  }

  /** `t.get(k0, {}).get(k1, {})...get(kn)`: the outer None is the AttributeError of a step that is no
      mapping, the inner one an absent key. */
  function GetChain(t: Value, keys: Path): Option<Option<Value>>
    requires keys != []
    decreases |keys|
  {
    if !t.Map? then None
    else if keys[0] !in t.m then Some(None)
    else if |keys| == 1 then Some(Some(t.m[keys[0]]))
    else GetChain(t.m[keys[0]], keys[1..])
  }

  /** `t.setdefault(k0, {})...` down to the last key, which takes `email` unless it holds something true. */
  function Fill(t: Value, keys: Path, email: Value): Option<Value>
    requires keys != []
    decreases |keys|
  {
    if !t.Map? then None
    else if |keys| == 1 then
      if keys[0] in t.m && Truthy(t.m[keys[0]]) then Some(t) else Some(Map(t.m[keys[0] := email]))
    else
      var sub := Fill(Child(t, keys[0]), keys[1..], email);
      if sub.None? then None else Some(Map(t.m[keys[0] := sub.value]))
  }

  predicate Blank(user: Value)
    requires user.Map?
  {
    && "identity" in user.m && Truthy(user.m["identity"])
    && !("email" in user.m && Truthy(user.m["email"]))
  }

  /** The users with blank addresses filled; None when one of them is no mapping. */
  function FillUsers(users: seq<Value>, email: Value): (r: Option<seq<Value>>)
    ensures r.Some? ==> |r.value| == |users|
  {
    if users == [] then Some([])
    else if !users[0].Map? then None
    else
      var rest := FillUsers(users[1..], email);
      if rest.None? then None
      else Some([if Blank(users[0]) then Map(users[0].m["email" := email]) else users[0]] + rest.value)
  }

  /** What stands under a users key can be walked through: a list, or something empty. */
  function UsersIn(v: Option<Value>): Option<seq<Value>> {
    if v.None? then Some([])
    else match v.value
      case List(xs) => Some(xs)
      case Map(m) => if m == map[] then Some([]) else None
      case Str(s) => if s == "" then Some([]) else None
      case _ => None
  }

  function FillAllUsers(t: Value, email: Value): Option<Value> {
    var found := GetChain(t, USERS);
    if found.None? then None
    else
      var users := UsersIn(found.value);
      var filled := if users.None? then None else FillUsers(users.value, email);
      if filled.None? then None
      else if users.value == [] then Some(t)
      else Some(SetAt(t, USERS, List(filled.value)))
  }

  function FillOpt(t: Option<Value>, keys: Path, email: Value): Option<Value>
    requires keys != []
  {
    if t.None? then None else Fill(t.value, keys, email)
  }

  /** The three derived places, one after another. */
  function Places(t: Value, email: Value): Option<Value> {
    FillOpt(FillOpt(FillOpt(Some(t), ACME, email), KUMA, email), GITEA, email)
  }

  /** The fill, once the declared address was looked up. */
  function InjectFrom(t: Value, email: Option<Option<Value>>): Option<Value> {
    if email.None? then None
    else if email.value.None? || !Truthy(email.value.value) then Some(t)
    else
      var filled := Places(t, email.value.value);
      if filled.None? then None else FillAllUsers(filled.value, email.value.value)
  }

  /** None is an exception on the way. */
  function Inject(t: Value): Option<Value> {
    InjectFrom(t, GetChain(t, SOURCE))
  }

  /** A user that has an identity and no address gets one; nothing else of any user changes. */
  lemma {:induction false} FillUsersAt(users: seq<Value>, email: Value)
    ensures FillUsers(users, email).None? <==> exists i | 0 <= i < |users| :: !users[i].Map?
    ensures FillUsers(users, email).Some? ==>
        forall i | 0 <= i < |users| :: users[i].Map? && var u := users[i].m;
          FillUsers(users, email).value[i] ==
          if "identity" in u && Truthy(u["identity"]) && !("email" in u && Truthy(u["email"]))
          then Map(u["email" := email]) else users[i]
  {
    if users != [] {
      FillUsersAt(users[1..], email);
      assert forall i | 0 < i < |users| :: users[i] == users[1..][i - 1];
    }
  }

  method FillEach(users: seq<Value>, email: Value) returns (r: Option<seq<Value>>)
    ensures r == FillUsers(users, email)
    ensures r.None? <==> exists i | 0 <= i < |users| :: !users[i].Map?
    ensures r.Some? ==> |r.value| == |users| && forall i | 0 <= i < |users| :: var u := users[i].m;
        r.value[i] ==
        if "identity" in u && Truthy(u["identity"]) && !("email" in u && Truthy(u["email"]))
        then Map(u["email" := email]) else users[i]
  {
    FillUsersAt(users, email);
    var done: seq<Value> := [];
    assert users[0..] == users && forall rest: seq<Value> :: done + rest == rest;
    for i := 0 to |users|
      invariant FillUsers(users, email) ==
                var rest := FillUsers(users[i..], email);
                if rest.None? then None else Some(done + rest.value)
    {
      if !users[i].Map? { return None; }
      var user := users[i];
      if Blank(user) {
        user := Map(user.m["email" := email]);
      }
      assert users[i..][1..] == users[i + 1..];
      assert forall rest: seq<Value> :: done + ([user] + rest) == done + [user] + rest;
      done := done + [user];
    }
    assert users[|users|..] == [] && done + [] == done;
    r := Some(done);
  }

  // ---- what one fill does ----

  lemma {:induction false} ChainGets(t: Value, keys: Path)
    requires keys != []
    ensures GetChain(t, keys).Some? ==> GetChain(t, keys).value == Get(t, keys)
    ensures Get(t, keys).Some? ==> GetChain(t, keys) == Some(Get(t, keys))
    decreases |keys|
  {
    if t.Map? && keys[0] in t.m {
      if |keys| == 1 { assert keys[1..] == []; } else { ChainGets(t.m[keys[0]], keys[1..]); }
    }
  }

  lemma {:induction false} FillGets(t: Value, keys: Path, email: Value)
    requires keys != [] && Fill(t, keys, email).Some? && Truthy(email)
    ensures Get(Fill(t, keys, email).value, keys)
         == Some(if Get(t, keys).Some? && Truthy(Get(t, keys).value) then Get(t, keys).value else email)
    decreases |keys|
  {
    if |keys| == 1 {
      assert keys[1..] == [];
    } else {
      FillGets(Child(t, keys[0]), keys[1..], email);
    }
  }

  /** A chain of keys that parts from `keys` reads the same after the fill. */
  lemma {:induction false} FillLeaves(t: Value, keys: Path, email: Value, q: Path)
    requires keys != [] && q != [] && !(keys <= q) && !(q <= keys) && Fill(t, keys, email).Some?
    requires GetChain(t, q).Some?
    ensures GetChain(Fill(t, keys, email).value, q) == GetChain(t, q)
    decreases |keys|
  {
    if q[0] == keys[0] {
      PrefixTail(keys, q);
      PrefixTail(q, keys);
      if |keys| > 1 && |q| > 1 {
        FillLeaves(Child(t, keys[0]), keys[1..], email, q[1..]);
      }
    }
  }

  lemma {:induction false} FillAgain(t: Value, keys: Path, email: Value)
    requires keys != [] && t.Map? && Get(t, keys).Some? && Truthy(Get(t, keys).value)
    ensures Fill(t, keys, email) == Some(t)
    decreases |keys|
  {
    if |keys| == 1 {
      assert keys[1..] == [];
    } else {
      FillAgain(t.m[keys[0]], keys[1..], email);
      assert t.m[keys[0] := t.m[keys[0]]] == t.m;
    }
  }

  lemma {:induction false} FillElsewhere(t: Value, keys: Path, email: Value, q: Path)
    requires keys != [] && !(keys <= q) && !(q <= keys) && Fill(t, keys, email).Some?
    ensures Get(Fill(t, keys, email).value, q) == Get(t, q)
    decreases |keys|
  {
    if q[0] == keys[0] {
      PrefixTail(keys, q);
      PrefixTail(q, keys);
      if |keys| > 1 {
        FillElsewhere(Child(t, keys[0]), keys[1..], email, q[1..]);
        if q[0] !in t.m { assert Get(EMPTY, q[1..]) == None; }
      }
    }
  }

  lemma {:induction false} FillUsersAgain(users: seq<Value>, email: Value)
    requires FillUsers(users, email).Some? && Truthy(email)
    ensures FillUsers(FillUsers(users, email).value, email) == FillUsers(users, email)
  {
    if users != [] {
      FillUsersAgain(users[1..], email);
      var r := FillUsers(users, email).value;
      assert r[1..] == FillUsers(users[1..], email).value;
      assert !Blank(r[0]);
    }
  }

  lemma {:induction false} SetAtSame(t: Value, keys: Path)
    requires keys != [] && Get(t, keys).Some?
    ensures SetAt(t, keys, Get(t, keys).value) == t
    decreases |keys|
  {
    assert t.m[keys[0] := t.m[keys[0]]] == t.m;
    if |keys| == 1 { assert keys[1..] == []; } else { SetAtSame(t.m[keys[0]], keys[1..]); }
  }

  /** The places read and written do not run through one another. */
  lemma PlacesPart()
    ensures var ps := [SOURCE, ACME, KUMA, GITEA, USERS];
            forall i, j | 0 <= i < |ps| && 0 <= j < |ps| && i != j :: !(ps[i] <= ps[j])
  {
    assert SOURCE[1] == "contact" && KUMA[1] == "services" && GITEA[1] == "services" && USERS[1] == "services";
    assert KUMA[2] == "observability" && GITEA[2] == "core" && USERS[2] == "security";
    assert ACME[0] == "edge" && SOURCE[0] == KUMA[0] == GITEA[0] == USERS[0] == "apps";
  }

  /** After the fill each derived place is settled, and the declared address still stands. */
  lemma FilledThrice(t: Value, e: Value)
    requires Truthy(e) && GetChain(t, SOURCE) == Some(Some(e))
    requires Places(t, e).Some?
    ensures var r := Places(t, e).value;
            && r.Map? && GetChain(r, SOURCE) == Some(Some(e))
            && (forall p | p in [ACME, KUMA, GITEA] :: Get(r, p).Some? && Truthy(Get(r, p).value))
  {
    PlacesPart();
    var ps := [SOURCE, ACME, KUMA, GITEA, USERS];
    assert forall i, j | 0 <= i < 4 && 0 <= j < 4 && i != j :: !(ps[i] <= ps[j]);
    Filled3(t, e, ACME, KUMA, GITEA, SOURCE);
  }

  lemma Filled3(t: Value, e: Value, a: Path, b: Path, c: Path, q: Path)
    requires a != [] && b != [] && c != [] && q != [] && Truthy(e) && GetChain(t, q) == Some(Some(e))
    requires !(a <= b) && !(b <= a) && !(a <= c) && !(c <= a) && !(b <= c) && !(c <= b)
    requires !(a <= q) && !(q <= a) && !(b <= q) && !(q <= b) && !(c <= q) && !(q <= c)
    requires FillOpt(FillOpt(FillOpt(Some(t), a, e), b, e), c, e).Some?
    ensures var r := FillOpt(FillOpt(FillOpt(Some(t), a, e), b, e), c, e).value;
            && r.Map? && GetChain(r, q) == Some(Some(e))
            && (forall p | p in [a, b, c] :: Get(r, p).Some? && Truthy(Get(r, p).value))
  {
    var t1 := Fill(t, a, e).value;
    var t2 := Fill(t1, b, e).value;
    FillGets(t, a, e);
    FillGets(t1, b, e);
    FillGets(t2, c, e);
    FillElsewhere(t1, b, e, a);
    FillElsewhere(t2, c, e, a);
    FillElsewhere(t2, c, e, b);
    FillLeaves(t, a, e, q);
    FillLeaves(t1, b, e, q);
    FillLeaves(t2, c, e, q);
  }

  lemma UsersFilled(t: Value, e: Value, q: Path)
    requires FillAllUsers(t, e).Some? && t.Map? && !(USERS <= q) && !(q <= USERS)
    ensures FillAllUsers(t, e).value.Map? && Get(FillAllUsers(t, e).value, q) == Get(t, q)
  {
    SetAtGets(t, USERS, List(FillUsers(UsersIn(GetChain(t, USERS).value).value, e).value), q);
  }

  /** The list read back after the fill is the filled one. */
  lemma UsersRead(t: Value, users: seq<Value>)
    requires t.Map?
    ensures var r := SetAt(t, USERS, List(users));
            r.Map? && Get(r, USERS) == Some(List(users)) && GetChain(r, USERS) == Some(Some(List(users)))
    ensures SetAt(SetAt(t, USERS, List(users)), USERS, List(users)) == SetAt(t, USERS, List(users))
  {
    var r := SetAt(t, USERS, List(users));
    SetAtGets(t, USERS, List(users), USERS);
    assert USERS[|USERS|..] == [];
    ChainGets(r, USERS);
    SetAtSame(r, USERS);
  }

  lemma UsersAgain(t: Value, e: Value)
    requires FillAllUsers(t, e).Some? && t.Map? && Truthy(e)
    ensures FillAllUsers(FillAllUsers(t, e).value, e) == FillAllUsers(t, e)
  {
    var users := UsersIn(GetChain(t, USERS).value).value;
    if users != [] {
      FillUsersAgain(users, e);
      UsersRead(t, FillUsers(users, e).value);
    }
  }

  /** Filling twice is filling once. */
  lemma {:induction false} InjectTwice(t: Value)
    requires Inject(t).Some?
    ensures Inject(Inject(t).value) == Inject(t)
  {
    var email := GetChain(t, SOURCE).value;
    if email.Some? && Truthy(email.value) {
      var e := email.value;
      FilledThrice(t, e);
      var t3 := Places(t, e).value;
      var r := Inject(t).value;
      PlacesPart();
      ChainGets(t3, SOURCE);
      UsersFilled(t3, e, SOURCE);
      UsersFilled(t3, e, ACME);
      UsersFilled(t3, e, KUMA);
      UsersFilled(t3, e, GITEA);
      ChainGets(r, SOURCE);
      FillAgain(r, ACME, e);
      FillAgain(r, KUMA, e);
      FillAgain(r, GITEA, e);
      UsersAgain(t3, e);
    }
  }

  /** Places away from the derived ones read as before. */
  lemma {:induction false} InjectElsewhere(t: Value, q: Path)
    requires Inject(t).Some? && forall p | p in [ACME, KUMA, GITEA, USERS] :: !(p <= q) && !(q <= p)
    ensures Get(Inject(t).value, q) == Get(t, q)
  {
    var email := GetChain(t, SOURCE).value;
    if email.Some? && Truthy(email.value) {
      var e := email.value;
      FilledThrice(t, e);
      var t1 := Fill(t, ACME, e).value;
      var t2 := Fill(t1, KUMA, e).value;
      assert ACME in [ACME, KUMA, GITEA, USERS] && KUMA in [ACME, KUMA, GITEA, USERS]
          && GITEA in [ACME, KUMA, GITEA, USERS] && USERS in [ACME, KUMA, GITEA, USERS];
      FillElsewhere(t, ACME, e, q);
      FillElsewhere(t1, KUMA, e, q);
      FillElsewhere(t2, GITEA, e, q);
      UsersFilled(Fill(t2, GITEA, e).value, e, q);
    }
  }

  // ---- nothing true is overwritten ----

  /** Whatever `a` holds that is true, `b` holds too, mappings and lists element by element. */
  predicate Keeps(a: Value, b: Value) {
    Truthy(a) ==>
      match a
      case Map(m) => b.Map? && forall k | k in m :: k in b.m && Keeps(m[k], b.m[k])
      case List(xs) => b.List? && |b.xs| == |xs| && forall i | 0 <= i < |xs| :: Keeps(xs[i], b.xs[i])
      case _ => b == a
  }

  lemma {:induction false} KeepsItself(a: Value)
    ensures Keeps(a, a)
  {
    match a
    case Map(m) => forall k | k in m { KeepsItself(m[k]); }
    case List(xs) => forall i | 0 <= i < |xs| { KeepsItself(xs[i]); }
    case _ =>
  }

  lemma {:induction false} KeepsThrough(a: Value, b: Value, c: Value)
    requires Keeps(a, b) && Keeps(b, c)
    ensures Keeps(a, c)
  {
    if Truthy(a) {
      match a
      case Map(m) =>
        var k0 :| k0 in m;
        assert b.m != map[];
        forall k | k in m { KeepsThrough(m[k], b.m[k], c.m[k]); }
      case List(xs) =>
        forall i | 0 <= i < |xs| { KeepsThrough(xs[i], b.xs[i], c.xs[i]); }
      case _ =>
    }
  }

  lemma {:induction false} FillKeeps(t: Value, keys: Path, email: Value)
    requires keys != [] && Fill(t, keys, email).Some?
    ensures Keeps(t, Fill(t, keys, email).value)
    decreases |keys|
  {
    var r := Fill(t, keys, email).value;
    forall k | k in t.m ensures k in r.m && Keeps(t.m[k], r.m[k]) {
      KeepsItself(t.m[k]);
      if k == keys[0] && |keys| > 1 {
        FillKeeps(t.m[k], keys[1..], email);
      }
    }
  }

  lemma {:induction false} FillUsersKeeps(users: seq<Value>, email: Value)
    requires FillUsers(users, email).Some?
    ensures Keeps(List(users), List(FillUsers(users, email).value))
  {
    if users != [] {
      FillUsersKeeps(users[1..], email);
      var r := FillUsers(users, email).value;
      assert r[1..] == FillUsers(users[1..], email).value;
      forall i | 0 <= i < |users| ensures Keeps(users[i], r[i]) {
        if i == 0 {
          forall k | k in users[0].m { KeepsItself(users[0].m[k]); }
          KeepsItself(users[0]);
        } else {
          assert users[i] == users[1..][i - 1] && r[i] == r[1..][i - 1];
          assert Truthy(List(users[1..]));
        }
      }
    }
  }

  lemma {:induction false} SetAtKeeps(t: Value, keys: Path, v: Value)
    requires keys != [] && t.Map? && Get(t, keys).Some? && Keeps(Get(t, keys).value, v)
    ensures Keeps(t, SetAt(t, keys, v))
    decreases |keys|
  {
    forall k | k in t.m { KeepsItself(t.m[k]); }
    if |keys| > 1 {
      SetAtKeeps(t.m[keys[0]], keys[1..], v);
    } else {
      assert keys[1..] == [];
    }
  }

  /** The fill never changes a true value, at any depth. */
  lemma InjectKeeps(t: Value)
    requires Inject(t).Some?
    ensures Keeps(t, Inject(t).value)
  {
    KeepsItself(t);
    var email := GetChain(t, SOURCE).value;
    if email.Some? && Truthy(email.value) {
      var e := email.value;
      var t1 := Fill(t, ACME, e).value;
      var t2 := Fill(t1, KUMA, e).value;
      var t3 := Fill(t2, GITEA, e).value;
      FillKeeps(t, ACME, e);
      FillKeeps(t1, KUMA, e);
      FillKeeps(t2, GITEA, e);
      KeepsThrough(t, t1, t2);
      KeepsThrough(t, t2, t3);
      UsersKeep(t3, e);
      KeepsThrough(t, t3, Inject(t).value);
    }
  }

  lemma UsersKeep(t: Value, e: Value)
    requires FillAllUsers(t, e).Some?
    ensures Keeps(t, FillAllUsers(t, e).value)
  {
    KeepsItself(t);
    var users := UsersIn(GetChain(t, USERS).value).value;
    if users != [] {
      ChainGets(t, USERS);
      FillUsersKeeps(users, e);
      SetAtKeeps(t, USERS, List(FillUsers(users, e).value));
    }
  }

  // ---- who is filled, and when it fails ----

  /** What Python takes for false. */
  lemma Falsy(v: Value)
    ensures !Truthy(v) <==>
            v == Null || v == Bool(false) || v == Int(0) || v == Str("") || v == List([]) || v == Map(map[])
  {
  }

  /** A leaf on the way to the last of `keys`. */
  ghost predicate Blocked(t: Value, keys: Path) {
    exists i | 0 <= i < |keys| :: Get(t, keys[..i]).Some? && !Get(t, keys[..i]).value.Map?
  }

  lemma BlockedFirst(t: Value, keys: Path)
    requires keys != []
    ensures Blocked(t, keys) <==> !t.Map? || (keys[0] in t.m && Blocked(t.m[keys[0]], keys[1..]))
  {
    assert Get(t, keys[..0]) == Some(t);
    forall i | 0 < i < |keys| && t.Map?
      ensures Get(t, keys[..i]) == if keys[0] in t.m then Get(t.m[keys[0]], keys[1..][..i - 1]) else None
    {
      assert keys[..i][0] == keys[0] && keys[..i][1..] == keys[1..][..i - 1];
    }
    if t.Map? && keys[0] in t.m && Blocked(t.m[keys[0]], keys[1..]) {
      var i :| 0 <= i < |keys[1..]| && Get(t.m[keys[0]], keys[1..][..i]).Some?
               && !Get(t.m[keys[0]], keys[1..][..i]).value.Map?;
      assert keys[..i + 1][1..] == keys[1..][..i];
      assert Get(t, keys[..i + 1]) == Get(t.m[keys[0]], keys[1..][..i]);
    }
  }

  lemma {:induction false} ChainFails(t: Value, keys: Path)
    requires keys != []
    ensures GetChain(t, keys).None? <==> Blocked(t, keys)
    decreases |keys|
  {
    BlockedFirst(t, keys);
    if t.Map? && keys[0] in t.m && |keys| > 1 {
      ChainFails(t.m[keys[0]], keys[1..]);
    }
  }

  lemma {:induction false} FillFails(t: Value, keys: Path, email: Value)
    requires keys != []
    ensures Fill(t, keys, email).None? <==> Blocked(t, keys)
    decreases |keys|
  {
    BlockedFirst(t, keys);
    if t.Map? && |keys| > 1 {
      FillFails(Child(t, keys[0]), keys[1..], email);
      if keys[0] !in t.m {
        BlockedFirst(EMPTY, keys[1..]);
      }
    }
  }

  /** Filling one place blocks no other, and clears none. */
  lemma {:induction false} FillBlocks(t: Value, keys: Path, email: Value, q: Path)
    requires keys != [] && q != [] && !(keys <= q) && !(q <= keys) && Fill(t, keys, email).Some?
    ensures Blocked(Fill(t, keys, email).value, q) <==> Blocked(t, q)
    decreases |keys|
  {
    var r := Fill(t, keys, email).value;
    BlockedFirst(t, q);
    BlockedFirst(r, q);
    if q[0] == keys[0] {
      PrefixTail(keys, q);
      PrefixTail(q, keys);
      FillBlocks(Child(t, keys[0]), keys[1..], email, q[1..]);
      if q[0] !in t.m {
        BlockedFirst(EMPTY, q[1..]);
      }
    }
  }

  /** The users as they are after the fill. */
  ghost predicate UsersFilledIn(before: seq<Value>, after: seq<Value>, email: Value) {
    && |after| == |before|
    && forall i | 0 <= i < |before| :: before[i].Map? && var u := before[i].m;
         after[i] == if "identity" in u && Truthy(u["identity"]) && !("email" in u && Truthy(u["email"]))
                     then Map(u["email" := email]) else before[i]
  }

  /** What the fill does, place by place: nothing without a declared address; with one, each derived place that holds
      nothing true takes it, and each declared identity without an address does. */
  lemma {:induction false} InjectFills(t: Value)
    requires Inject(t).Some?
    ensures var declared, r := Get(t, ["apps", "contact", "email"]), Inject(t).value;
      if declared.None? || !Truthy(declared.value) then r == t
      else
        && Settled(t, r, ["edge", "traefik", "acme_email"], declared.value)
        && Settled(t, r, ["apps", "services", "observability", "uptime_kuma", "admin_email"], declared.value)
        && Settled(t, r, ["apps", "services", "core", "gitea", "admin_email"], declared.value)
        && var users := Get(t, ["apps", "services", "security", "authelia", "users"]);
           users.Some? && users.value.List? ==>
             var filled := Get(r, ["apps", "services", "security", "authelia", "users"]);
             filled.Some? && filled.value.List? && UsersFilledIn(users.value.xs, filled.value.xs, declared.value)
  {
    ChainGets(t, SOURCE);
    var email := GetChain(t, SOURCE).value;
    if email.Some? && Truthy(email.value) {
      PlacesFill(t, email.value);
      var t3 := Places(t, email.value).value;
      UsersFill(t3, email.value);
    }
  }

  /** The place holds what it held, if that was true, and the address otherwise. */
  ghost predicate Settled(t: Value, r: Value, p: Path, email: Value) {
    Get(r, p) == if Get(t, p).Some? && Truthy(Get(t, p).value) then Get(t, p) else Some(email)
  }

  lemma PlacesFill(t: Value, e: Value)
    requires Truthy(e) && FillAllUsersSome(t, e)
    ensures var t3 := Places(t, e).value; var r := FillAllUsers(t3, e).value;
            && Settled(t, r, ACME, e) && Settled(t, r, KUMA, e) && Settled(t, r, GITEA, e)
            && Get(t3, USERS) == Get(t, USERS)
  {
    PlacesPart();
    var ps := [SOURCE, ACME, KUMA, GITEA, USERS];
    assert forall i, j | 0 <= i < 5 && 0 <= j < 5 && i != j :: !(ps[i] <= ps[j]);
    var t1 := Fill(t, ACME, e).value;
    var t2 := Fill(t1, KUMA, e).value;
    var t3 := Fill(t2, GITEA, e).value;
    FillGets(t, ACME, e);
    FillElsewhere(t1, KUMA, e, ACME);
    FillElsewhere(t2, GITEA, e, ACME);
    FillElsewhere(t, ACME, e, KUMA);
    FillGets(t1, KUMA, e);
    FillElsewhere(t2, GITEA, e, KUMA);
    FillElsewhere(t, ACME, e, GITEA);
    FillElsewhere(t1, KUMA, e, GITEA);
    FillGets(t2, GITEA, e);
    FillElsewhere(t, ACME, e, USERS);
    FillElsewhere(t1, KUMA, e, USERS);
    FillElsewhere(t2, GITEA, e, USERS);
    UsersFilled(t3, e, ACME);
    UsersFilled(t3, e, KUMA);
    UsersFilled(t3, e, GITEA);
  }

  ghost predicate FillAllUsersSome(t: Value, e: Value) {
    Places(t, e).Some? && FillAllUsers(Places(t, e).value, e).Some? && Places(t, e).value.Map?
  }

  lemma UsersFill(t: Value, e: Value)
    requires FillAllUsers(t, e).Some? && t.Map?
    ensures var users := Get(t, USERS);
            users.Some? && users.value.List? ==>
              var filled := Get(FillAllUsers(t, e).value, USERS);
              filled.Some? && filled.value.List? && UsersFilledIn(users.value.xs, filled.value.xs, e)
  {
    ChainGets(t, USERS);
    if Get(t, USERS).Some? && Get(t, USERS).value.List? {
      var users := Get(t, USERS).value.xs;
      FillUsersAt(users, e);
      if users != [] {
        UsersRead(t, FillUsers(users, e).value);
      }
    }
  }

  /** The value under `users` cannot be walked: neither a list of mappings nor anything empty. */
  ghost predicate Unwalkable(v: Value) {
    match v
    case List(xs) => exists i | 0 <= i < |xs| :: !xs[i].Map?
    case Map(m) => m != map[]
    case Str(s) => s != ""
    case _ => true
  }

  /** It fails exactly where a step meets no mapping. */
  lemma {:induction false} InjectFails(t: Value)
    ensures Inject(t).None? <==>
            || Blocked(t, ["apps", "contact", "email"])
            || (&& Get(t, ["apps", "contact", "email"]).Some? && Truthy(Get(t, ["apps", "contact", "email"]).value)
                && (|| Blocked(t, ["edge", "traefik", "acme_email"])
                    || Blocked(t, ["apps", "services", "observability", "uptime_kuma", "admin_email"])
                    || Blocked(t, ["apps", "services", "core", "gitea", "admin_email"])
                    || Blocked(t, ["apps", "services", "security", "authelia", "users"])
                    || var users := Get(t, ["apps", "services", "security", "authelia", "users"]);
                       users.Some? && Unwalkable(users.value)))
  {
    ChainFails(t, SOURCE);
    ChainGets(t, SOURCE);
    var email := GetChain(t, SOURCE);
    if email.Some? && email.value.Some? && Truthy(email.value.value) {
      PlacesFail(t, email.value.value);
    }
  }

  lemma PlacesFail(t: Value, e: Value)
    ensures var filled := Places(t, e);
            filled.None? || FillAllUsers(filled.value, e).None? <==>
            || Blocked(t, ACME) || Blocked(t, KUMA) || Blocked(t, GITEA) || Blocked(t, USERS)
            || (Get(t, USERS).Some? && Unwalkable(Get(t, USERS).value))
  {
    PlacesPart();
    var ps := [SOURCE, ACME, KUMA, GITEA, USERS];
    assert forall i, j | 0 <= i < 5 && 0 <= j < 5 && i != j :: !(ps[i] <= ps[j]);
    FillFails(t, ACME, e);
    if !Blocked(t, ACME) {
      var t1 := Fill(t, ACME, e).value;
      FillBlocks(t, ACME, e, KUMA);
      FillBlocks(t, ACME, e, GITEA);
      FillBlocks(t, ACME, e, USERS);
      FillElsewhere(t, ACME, e, USERS);
      FillFails(t1, KUMA, e);
      if !Blocked(t1, KUMA) {
        var t2 := Fill(t1, KUMA, e).value;
        FillBlocks(t1, KUMA, e, GITEA);
        FillBlocks(t1, KUMA, e, USERS);
        FillElsewhere(t1, KUMA, e, USERS);
        FillFails(t2, GITEA, e);
        if !Blocked(t2, GITEA) {
          FillBlocks(t2, GITEA, e, USERS);
          FillElsewhere(t2, GITEA, e, USERS);
          UsersFail(Fill(t2, GITEA, e).value, e);
        }
      }
    }
  }

  lemma UsersFail(t: Value, e: Value)
    ensures FillAllUsers(t, e).None? <==>
            Blocked(t, USERS) || (Get(t, USERS).Some? && Unwalkable(Get(t, USERS).value))
  {
    ChainFails(t, USERS);
    ChainGets(t, USERS);
    if GetChain(t, USERS).Some? && UsersIn(GetChain(t, USERS).value).Some? {
      FillUsersAt(UsersIn(GetChain(t, USERS).value).value, e);
    }
  }
}
