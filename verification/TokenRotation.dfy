/** gitea_tokens.py and `gitea rotate-token`: revoke, then open the mint gate, while provisions may run. */
module TokenRotation {
  import opened Values

  datatype Token = Token(secretKey: string, tokenName: string, identity: string)

  const ROTATABLE: map<string, Token> := map[
    "bot" := Token("apps.services.core.gitea.bot_token", "kubelab-provisioning", "machine"),
    "admin" := Token("apps.services.core.gitea.admin_token", "kubelab-reconciler", "superadmin")]

  datatype Plan = Plan(username: string, tokenName: string, secretKey: string, secretPresent: bool)

  /** `plan_rotation`; None is its KeyError. */
  function PlanRotation(which: string, identities: map<string, string>, secretPresent: bool): Option<Plan> {
    if which !in ROTATABLE then None
    else if ROTATABLE[which].identity !in identities then None
    else
      var t := ROTATABLE[which];
      Some(Plan(identities[t.identity], t.tokenName, t.secretKey, secretPresent))
  }

  /** The two tokens that can be rotated: whose they are, what they are called and where they are recorded. */
  lemma PlansAre(identities: map<string, string>, present: bool)
    ensures "machine" in identities ==>
        PlanRotation("bot", identities, present) ==
        Some(Plan(identities["machine"], "kubelab-provisioning", "apps.services.core.gitea.bot_token", present))
    ensures "superadmin" in identities ==>
        PlanRotation("admin", identities, present) ==
        Some(Plan(identities["superadmin"], "kubelab-reconciler", "apps.services.core.gitea.admin_token", present))
    ensures forall which :: PlanRotation(which, identities, present).Some? <==>
        (which == "bot" && "machine" in identities) || (which == "admin" && "superadmin" in identities)
  {
  }

  // ---- the forge and the vault ----

  /** Which SOPS keys hold a value, and how many live tokens each account has under each name. */
  datatype State = State(recorded: set<string>, live: map<(string, string), nat>)

  function LiveAt(s: State, username: string, tokenName: string): nat {
    if (username, tokenName) in s.live then s.live[(username, tokenName)] else 0
  }

  /** The mint task: it acts only when the key is absent, and records what it mints. */
  function Provision(s: State, p: Plan): State {
    if p.secretKey in s.recorded then s
    else State(s.recorded + {p.secretKey}, s.live[(p.username, p.tokenName) := LiveAt(s, p.username, p.tokenName) + 1])
  }

  function Revoke(s: State, p: Plan): State { s.(live := s.live[(p.username, p.tokenName) := 0]) }

  function Unset(s: State, p: Plan): State { s.(recorded := s.recorded - {p.secretKey}) }

  /** The credential is recorded or dead, and there are never two. */
  predicate Safe(s: State, p: Plan) {
    (p.secretKey !in s.recorded ==> LiveAt(s, p.username, p.tokenName) == 0) && LiveAt(s, p.username, p.tokenName) <= 1
  }

  /** The plans of the registry, resolved against one identity map. */
  predicate Planned(p: Plan, identities: map<string, string>) {
    exists which | which in ROTATABLE :: PlanRotation(which, identities, p.secretPresent) == Some(p)
  }

  ghost predicate AllSafe(s: State, identities: map<string, string>) {
    forall p | Planned(p, identities) :: Safe(s, p)
  }

  /** Two credentials of the registry share neither key nor name. */
  lemma Apart(p: Plan, q: Plan, identities: map<string, string>)
    requires Planned(p, identities) && Planned(q, identities)
    ensures p.secretKey == q.secretKey <==> p.tokenName == q.tokenName
    ensures p.secretKey == q.secretKey ==> p.username == q.username
  {
  }

  lemma ProvisionSafe(s: State, p: Plan, identities: map<string, string>)
    requires AllSafe(s, identities) && Planned(p, identities)
    ensures AllSafe(Provision(s, p), identities)
  {
    forall q | Planned(q, identities) ensures Safe(Provision(s, p), q) {
      Apart(p, q, identities);
      assert Safe(s, p) && Safe(s, q);
    }
  }

  lemma RevokeSafe(s: State, p: Plan, identities: map<string, string>)
    requires AllSafe(s, identities) && Planned(p, identities)
    ensures AllSafe(Revoke(s, p), identities)
  {
    forall q | Planned(q, identities) ensures Safe(Revoke(s, p), q) {
      Apart(p, q, identities);
      assert Safe(s, p) && Safe(s, q);
    }
  }

  /** Clearing the key is safe exactly when the token is dead. */
  lemma UnsetSafe(s: State, p: Plan, identities: map<string, string>)
    requires AllSafe(s, identities) && Planned(p, identities)
    ensures AllSafe(Unset(s, p), identities) <==> LiveAt(s, p.username, p.tokenName) == 0
  {
    if LiveAt(s, p.username, p.tokenName) == 0 {
      forall q | Planned(q, identities) ensures Safe(Unset(s, p), q) {
        Apart(p, q, identities);
        assert Safe(s, p) && Safe(s, q);
      }
    } else {
      assert !Safe(Unset(s, p), p);
    }
  }

  // ---- every interleaving ----

  /** Where a rotation is; it carries what it read when it planned. */
  datatype Phase = Idle | Revoking(plan: Plan) | Unsetting(plan: Plan) | Stranded(plan: Plan)

  datatype Step =
    | Mint(plan: Plan)              // a provision of one credential
    | Begin(which: string)          // read the vault and resolve the plan
    | RevokeDone                    // revoked, or already absent
    | RevokeLost(carriedOut: bool)  // an error; it may have been carried out
    | UnsetDone
    | UnsetFailed                   // `sops unset` failed and left the vault as it was
    | Remedy                        // the command the failure message names

  datatype World = World(state: State, phase: Phase)

  /** What one step leads to; None when it cannot be taken.  One rotation runs at a time. */
  function Next(w: World, step: Step, identities: map<string, string>): Option<World> {
    match step
    case Mint(p) => if Planned(p, identities) then Some(w.(state := Provision(w.state, p))) else None
    case Begin(which) =>
      if w.phase.Revoking? || w.phase.Unsetting? || which !in ROTATABLE then None
      else
        var p := PlanRotation(which, identities, ROTATABLE[which].secretKey in w.state.recorded);
        if p.None? then None else Some(w.(phase := Revoking(p.value)))
    case RevokeDone =>
      if !w.phase.Revoking? then None
      else
        var p := w.phase.plan;
        Some(World(Revoke(w.state, p), if p.secretPresent then Unsetting(p) else Idle))
    case RevokeLost(carriedOut) =>
      if !w.phase.Revoking? then None
      else Some(World(if carriedOut then Revoke(w.state, w.phase.plan) else w.state, Idle))
    case UnsetDone => if !w.phase.Unsetting? then None else Some(World(Unset(w.state, w.phase.plan), Idle))
    case UnsetFailed => if !w.phase.Unsetting? then None else Some(w.(phase := Stranded(w.phase.plan)))
    case Remedy => if !w.phase.Stranded? then None else Some(World(Unset(w.state, w.phase.plan), Idle))
  }

  /** All credentials safe; and between revoking and clearing, the token is dead behind a shut gate. */
  ghost predicate Inv(w: World, identities: map<string, string>) {
    && AllSafe(w.state, identities)
    && (!w.phase.Idle? ==> Planned(w.phase.plan, identities))
    && (w.phase.Revoking? && w.phase.plan.secretPresent ==> w.phase.plan.secretKey in w.state.recorded)
    && (w.phase.Unsetting? || w.phase.Stranded? ==>
        Dead(w.state, w.phase.plan) && w.phase.plan.secretKey in w.state.recorded)
  }

  predicate Dead(s: State, p: Plan) { LiveAt(s, p.username, p.tokenName) == 0 }

  lemma InvStep(w: World, step: Step, identities: map<string, string>)
    requires Inv(w, identities) && Next(w, step, identities).Some?
    ensures Inv(Next(w, step, identities).value, identities)
  {
    match step
    case Mint(p) =>
      ProvisionSafe(w.state, p, identities);
      if !w.phase.Idle? {
        Apart(p, w.phase.plan, identities);
      }
    case Begin(which) =>
    case RevokeDone => RevokeSafe(w.state, w.phase.plan, identities);
    case RevokeLost(carriedOut) => RevokeSafe(w.state, w.phase.plan, identities);
    case UnsetDone => UnsetSafe(w.state, w.phase.plan, identities);
    case UnsetFailed =>
    case Remedy => UnsetSafe(w.state, w.phase.plan, identities);
  }

  /** The worlds a history can reach. */
  ghost predicate Reaches(w: World, steps: seq<Step>, end: World, identities: map<string, string>)
    decreases |steps|
  {
    if steps == [] then w == end
    else
      && Next(w, steps[0], identities).Some?
      && Reaches(Next(w, steps[0], identities).value, steps[1..], end, identities)
  }

  /** Over every history of provisions and rotations, revoking or clearing failing anywhere: an absent key means a
      dead token, and no credential ever has two. */
  lemma {:induction false} NeverTwo(w: World, steps: seq<Step>, end: World, identities: map<string, string>)
    requires Inv(w, identities) && Reaches(w, steps, end, identities)
    ensures Inv(end, identities)
    ensures forall p | Planned(p, identities) ::
      LiveAt(end.state, p.username, p.tokenName) <= 1 && (p.secretKey !in end.state.recorded ==> Dead(end.state, p))
    decreases |steps|
  {
    if steps == [] {
      assert forall p | Planned(p, identities) :: Safe(end.state, p);
    } else {
      InvStep(w, steps[0], identities);
      NeverTwo(Next(w, steps[0], identities).value, steps[1..], end, identities);
    }
  }

  /** Cleared first, a live token is joined by a second at the next provision, whether or not it is revoked later. */
  lemma ReverseOrderMintsTwo(s: State, p: Plan)
    requires p.secretKey in s.recorded && LiveAt(s, p.username, p.tokenName) == 1
    ensures !Safe(Unset(s, p), p)
    ensures LiveAt(Provision(Unset(s, p), p), p.username, p.tokenName) == 2
  {
  }

  /** Revoked and not cleared, nothing is minted however often it is provisioned; cleared, the next one mints one. */
  lemma StrandedUntilCleared(s: State, p: Plan)
    requires p.secretKey in s.recorded && Dead(s, p)
    ensures Provision(s, p) == s
    ensures LiveAt(Provision(Unset(s, p), p), p.username, p.tokenName) == 1
    ensures p.secretKey in Provision(Unset(s, p), p).recorded
  {
  }

  // ---- a rotation that succeeds and strands ----

  /** Nothing but provisions can happen between reading the vault and revoking; they record what they mint. */
  lemma {:induction false} OnlyMints(w: World, mints: seq<Step>, end: World, identities: map<string, string>)
    requires (forall s | s in mints :: s.Mint?) && Reaches(w, mints, end, identities)
    ensures end.phase == w.phase
    ensures forall key :: key in end.state.recorded <==>
        key in w.state.recorded || exists s | s in mints :: s.plan.secretKey == key
    decreases |mints|
  {
    if mints != [] {
      assert mints == [mints[0]] + mints[1..];
      OnlyMints(Next(w, mints[0], identities).value, mints[1..], end, identities);
    }
  }

  lemma {:induction false} ReachesSplit(w: World, a: seq<Step>, b: seq<Step>, end: World,
        identities: map<string, string>)
    returns (mid: World)
    requires Reaches(w, a + b, end, identities)
    ensures Reaches(w, a, mid, identities) && Reaches(mid, b, end, identities)
    decreases |a|
  {
    if a == [] {
      assert a + b == b;
      mid := w;
    } else {
      assert (a + b)[1..] == a[1..] + b;
      mid := ReachesSplit(Next(w, a[0], identities).value, a[1..], b, end, identities);
    }
  }

  /** A rotation that ends with the revoke: the token is dead, and the key is recorded again, so that nothing mints,
      exactly when it was provisioned between the reading and the revoke. */
  lemma {:induction false} StrandedIffMintedMeanwhile(w: World, which: string, mints: seq<Step>, end: World,
        identities: map<string, string>)
    requires forall s | s in mints :: s.Mint?
    requires Reaches(w, [Begin(which)] + (mints + [RevokeDone]), end, identities)
    ensures which in ROTATABLE
    ensures var key := ROTATABLE[which].secretKey;
            var p := PlanRotation(which, identities, key in w.state.recorded);
            && p.Some? && Dead(end.state, p.value)
            && (end.phase == Idle <==> key !in w.state.recorded)
            && (end.phase == Idle ==> (key in end.state.recorded <==> exists s | s in mints :: s.plan.secretKey == key))
  {
    assert ([Begin(which)] + (mints + [RevokeDone]))[1..] == mints + [RevokeDone];
    var begun := Next(w, Begin(which), identities).value;
    var mid := ReachesSplit(begun, mints, [RevokeDone], end, identities);
    OnlyMints(begun, mints, mid, identities);
    assert Reaches(Next(mid, RevokeDone, identities).value, [], end, identities);
  }

  /** The bot has no token; one is minted after the vault was read and revoked as the old one.  The rotation ends
      well, and yet no provision mints. */
  lemma {:induction false} StrandedInSilence(identities: map<string, string>)
    requires "machine" in identities
    ensures var p := PlanRotation("bot", identities, false).value;
            var end := World(State({p.secretKey}, map[(p.username, p.tokenName) := 0]), Idle);
            && Reaches(World(State({}, map[]), Idle), [Begin("bot"), Mint(p), RevokeDone], end, identities)
            && Dead(end.state, p) && Provision(end.state, p) == end.state
  {
    var p := PlanRotation("bot", identities, false).value;
    var w := World(State({}, map[]), Revoking(p));
    var minted := World(Provision(w.state, p), Revoking(p));
    var end := World(State({p.secretKey}, map[(p.username, p.tokenName) := 0]), Idle);
    assert Planned(p, identities);
    assert Next(World(State({}, map[]), Idle), Begin("bot"), identities) == Some(w);
    assert Next(w, Mint(p), identities) == Some(minted);
    assert Revoke(minted.state, p) == end.state by {
      assert {} + {p.secretKey} == {p.secretKey};
      assert Revoke(minted.state, p).live == end.state.live;
    }
    assert Reaches(end, [], end, identities);
    assert Reaches(minted, [RevokeDone], end, identities);
    assert [Mint(p), RevokeDone][1..] == [RevokeDone];
    assert Reaches(w, [Mint(p), RevokeDone], end, identities);
    assert [Begin("bot"), Mint(p), RevokeDone][1..] == [Mint(p), RevokeDone];
  }

  // ---- the command ----

  /** Nothing was cleared and nothing revoked. */
  ghost predicate Grown(before: State, after: State) {
    before.recorded <= after.recorded
    && forall username, tokenName :: LiveAt(after, username, tokenName) >= LiveAt(before, username, tokenName)
  }

  /** What a rotation asks for, and whether it was answered. */
  datatype Call = Delete(username: string, tokenName: string, ok: bool) | Clear(secretKey: string, ok: bool)

  class Environment {
    var state: State
    /** Every call, in order. */
    ghost var calls: seq<Call>

    constructor (state: State) {
      this.state := state;
      calls := [];
    }

    /** Any number of provisions, of any credential, while a command runs. */
    method Elapse(identities: map<string, string>)
      requires AllSafe(state, identities)
      modifies this
      ensures calls == old(calls)
      ensures AllSafe(state, identities) && Grown(old(state), state)
      ensures forall p | Planned(p, identities) && p.secretKey in old(state).recorded ::
        LiveAt(state, p.username, p.tokenName) == LiveAt(old(state), p.username, p.tokenName)
    {
      var n: nat :| true;
      for i := 0 to n
        invariant AllSafe(state, identities) && Grown(old(state), state) && calls == old(calls)
        invariant forall p | Planned(p, identities) && p.secretKey in old(state).recorded ::
          LiveAt(state, p.username, p.tokenName) == LiveAt(old(state), p.username, p.tokenName)
      {
        var which: string := *;
        var plan := PlanRotation(which, identities, false);
        if plan.Some? {
          assert Planned(plan.value, identities);
          ProvisionSafe(state, plan.value, identities);
          forall p | Planned(p, identities)
            ensures p.secretKey == plan.value.secretKey <==> p.tokenName == plan.value.tokenName
          {
            Apart(p, plan.value, identities);
          }
          state := Provision(state, plan.value);
        }
      }
    }

    /** DELETE of the named token: true, or 404 when it is gone already; an error may have been carried out. */
    method RevokeToken(p: Plan, identities: map<string, string>) returns (ok: bool)
      requires AllSafe(state, identities) && Planned(p, identities)
      modifies this
      ensures calls == old(calls) + [Delete(p.username, p.tokenName, ok)]
      ensures AllSafe(state, identities) && state.recorded == old(state).recorded
      ensures ok ==> Dead(state, p)
    {
      ok := *;
      calls := calls + [Delete(p.username, p.tokenName, ok)];
      var lost: bool := *;
      RevokeSafe(state, p, identities);
      if ok || lost {
        state := Revoke(state, p);
      }
    }

    /** `sops unset`; a failure leaves the vault as it was. */
    method UnsetSecret(p: Plan) returns (ok: bool)
      modifies this
      ensures calls == old(calls) + [Clear(p.secretKey, ok)]
      ensures state == if ok then Unset(old(state), p) else old(state)
    {
      ok := *;
      calls := calls + [Clear(p.secretKey, ok)];
      if ok {
        state := Unset(state, p);
      }
    }
  }

  datatype Exit = NoSuchToken | PlanOnly | NoPassword | NoSuperadmin | RevokeFailed | Rotated | NotCleared

  /** `gitea rotate-token`, provisions running between any two of its steps.  `atRevoke` is what was recorded when the
      token was revoked, if it was. */
  method RotateToken(e: Environment, which: string, identities: map<string, string>, apply: bool, password: bool)
    returns (exit: Exit, ghost plan: Option<Plan>, ghost atRevoke: set<string>)
    requires AllSafe(e.state, identities)
    modifies e
    ensures AllSafe(e.state, identities)
    ensures plan == PlanRotation(which, identities, plan.Some? && plan.value.secretKey in old(e.state).recorded)
    ensures exit.NoSuchToken? <==> plan.None?
    ensures exit.NoSuchToken? <==> which !in ROTATABLE || ROTATABLE[which].identity !in identities
    ensures exit.PlanOnly? <==> plan.Some? && !apply
    ensures exit.NoPassword? <==> plan.Some? && apply && !password
    ensures exit.NoSuperadmin? <==> plan.Some? && apply && password && "superadmin" !in identities
    // else the token is revoked and then, if that was answered and the key was recorded, the key cleared
    ensures match exit
            case RevokeFailed => e.calls == old(e.calls) + [Delete(plan.value.username, plan.value.tokenName, false)]
            case NotCleared => plan.value.secretPresent
              && e.calls == old(e.calls) + [Delete(plan.value.username, plan.value.tokenName, true),
                                            Clear(plan.value.secretKey, false)]
            case Rotated => e.calls == old(e.calls) + [Delete(plan.value.username, plan.value.tokenName, true)]
              + if plan.value.secretPresent then [Clear(plan.value.secretKey, true)] else []
            // short of the revoke nothing is revoked or cleared
            case _ => e.calls == old(e.calls) && Grown(old(e.state), e.state)
    // what was recorded stays so unless the rotation succeeds
    ensures plan.Some? && plan.value.secretPresent && !exit.Rotated? ==> plan.value.secretKey in e.state.recorded
    // success leaves the token dead, and the gate shut exactly when it was open at the reading and shut at the revoke
    ensures exit.Rotated? ==> Dead(e.state, plan.value)
    ensures exit.Rotated? ==>
        (plan.value.secretKey in e.state.recorded <==> !plan.value.secretPresent && plan.value.secretKey in atRevoke)
    ensures old(e.state).recorded <= atRevoke
    ensures exit.NotCleared? ==> plan.value.secretKey in e.state.recorded && Dead(e.state, plan.value)
  {
    atRevoke := e.state.recorded;
    var present := which in ROTATABLE && ROTATABLE[which].secretKey in e.state.recorded;
    var resolved := PlanRotation(which, identities, present);
    plan := resolved;
    if resolved.None? {
      exit := NoSuchToken;
      return;
    }
    var p := resolved.value;
    assert Planned(p, identities);
    e.Elapse(identities);
    atRevoke := e.state.recorded;
    if !apply {
      exit := PlanOnly;
      return;
    }
    if !password {
      exit := NoPassword;
      return;
    }
    if "superadmin" !in identities {
      exit := NoSuperadmin;
      return;
    }
    var revoked := e.RevokeToken(p, identities);
    if !revoked {
      exit := RevokeFailed;
      return;
    }
    if !p.secretPresent {
      exit := Rotated;
      return;
    }
    e.Elapse(identities);
    UnsetSafe(e.state, p, identities);
    var cleared := e.UnsetSecret(p);
    exit := if cleared then Rotated else NotCleared;
  }
}
