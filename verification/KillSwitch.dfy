/** gcp_killswitch_proof.py: aim the billing kill switch at a scratch project, fire it, and aim it back. */
module KillSwitch {
  import opened Values

  /** A call, and what came back: nothing when it failed. */
  datatype Call = Target(found: Option<string>) | Aim(to: string, ok: bool)
                | Billing(project: string, seen: Option<bool>) | Message(ok: bool) | Pause(length: nat)

  /**
    The switch, the projects that can be billed, and how many published messages may still be delivered.  A delivered
    message detaches billing from whatever the switch targets at that moment.  Unless messages come `once`, a
    delivered one may be delivered again.  An `honest` cloud did what it reports done.
   */
  class Cloud {
    var target: string
    var enabled: set<string>
    var pending: nat
    /** What was targeted at each publication. */
    var published: seq<string>
    var clock: nat
    /** Every call, in order. */
    ghost var calls: seq<Call>
    const honest: bool
    const once: bool

    constructor (target: string, enabled: set<string>, honest: bool, once: bool) {
      this.target := target;
      this.enabled := enabled;
      this.honest := honest;
      this.once := once;
      pending := 0;
      clock := 0;
      published := [];
      calls := [];
    }

    /** What billing will be once every pending message was delivered. */
    function Drained(): set<string>
      reads this
    {
      if pending > 0 then enabled - {target} else enabled
    }

    /** From `e` billed and `p` pending, some deliveries to `to` later. */
    ghost predicate Later(e: set<string>, p: nat, to: string)
      reads this
    {
      && pending <= p && (enabled == e || (p > 0 && enabled == e - {to}))
      && (pending < p ==> enabled == e - {to}) && (once && pending == p ==> enabled == e)
    }

    /** While a command runs, pending messages may be delivered. */
    method Elapse()
      modifies this`enabled, this`pending, this`clock
      ensures Later(old(enabled), old(pending), target)
      ensures clock > old(clock)
    {
      var spent: nat :| true;
      clock := clock + spent + 1;
      var left: nat :| left <= pending;
      var again: bool := *;
      if left < pending || (again && !once && pending > 0) {
        enabled := enabled - {target};
      }
      pending := left;
    }

    method CurrentTarget() returns (r: Option<string>)
      modifies this`enabled, this`pending, this`clock, this`calls
      ensures calls == old(calls) + [Target(r)]
      ensures Later(old(enabled), old(pending), target) && clock > old(clock)
      ensures r.Some? ==> r.value == target
    {
      Elapse();
      r := *;
      if r.Some? {
        r := Some(target);
      }
      calls := calls + [Target(r)];
    }

    /** `pending` afterwards is what was undelivered when the new target took effect. */
    method Repoint(to: string) returns (ok: bool)
      modifies this`target, this`enabled, this`pending, this`clock, this`calls
      ensures calls == old(calls) + [Aim(to, ok)]
      ensures Later(old(enabled), old(pending), old(target)) && clock > old(clock)
      ensures target == to || target == old(target)
      ensures ok && honest ==> target == to
    {
      Elapse();
      ok := *;
      var effective: bool := *;
      if effective || (ok && honest) {
        target := to;
      }
      calls := calls + [Aim(to, ok)];
    }

    method BillingEnabled(project: string) returns (r: Option<bool>)
      modifies this`enabled, this`pending, this`clock, this`calls
      ensures calls == old(calls) + [Billing(project, r)]
      ensures Later(old(enabled), old(pending), target) && clock > old(clock)
      ensures r.Some? ==> r.value == (project in enabled)
    {
      Elapse();
      r := *;
      if r.Some? {
        r := Some(project in enabled);
      }
      calls := calls + [Billing(project, r)];
    }

    /** `time.monotonic`: no call. */
    method Now() returns (t: nat)
      modifies this`clock
      ensures t == clock >= old(clock)
    {
      var spent: nat :| true;
      clock := clock + spent;
      t := clock;
    }

    /** `time.sleep`.  Messages may be delivered meanwhile. */
    method Sleep(length: nat)
      modifies this`enabled, this`pending, this`clock, this`calls
      ensures calls == old(calls) + [Pause(length)]
      ensures Later(old(enabled), old(pending), target) && clock >= old(clock) + length
    {
      Elapse();
      clock := clock + length;
      calls := calls + [Pause(length)];
    }

    /** A publication that fails may have gone out. */
    method Publish() returns (ok: bool, ghost out: bool)
      modifies this`pending, this`published, this`calls
      ensures calls == old(calls) + [Message(ok)]
      ensures pending == old(pending) + (if out then 1 else 0)
      ensures published == old(published) + (if out then [target] else [])
      ensures ok ==> out
    {
      ok := *;
      var lost: bool := *;
      out := ok || lost;
      if ok || lost {
        pending := pending + 1;
        published := published + [target];
      }
      calls := calls + [Message(ok)];
    }
  }

  /** `not s.strip()`. */
  predicate Blank(s: string) {
    forall c | c in s :: IsSpace(c)
  }

  predicate IsSpace(c: char) {
    c == ' ' || '\t' <= c <= '\r' || '\U{1C}' <= c <= '\U{1F}' || c == '\U{85}' || c == '\U{A0}'
  }

  datatype Result = Refused | Returned(detached: bool, waited: nat) | Aborted | RestoreError

  function Sent(aimed: Option<string>): seq<string> {
    if aimed.Some? then [aimed.value] else []
  }

  /** Starting from nothing pending and `before` billed: no message is out, or one is, and it can only have hit the
      project that was targeted when it went out. */
  ghost predicate Fired(cloud: Cloud, aimed: Option<string>, before: set<string>)
    reads cloud
  {
    match aimed
    case None => cloud.pending == 0 && cloud.enabled == before
    case Some(at) => cloud.target == at && cloud.pending <= 1 && cloud.Later(before, 1, at)
  }

  /** The calls of the loop: ask for the billing and pause in turn, until it is seen disabled or a call fails; `ok` if
      none did. */
  ghost predicate Polls(polls: seq<Call>, scratch: string, poll: nat, ok: bool, detached: bool) {
    && (detached ==> ok) && (|polls| % 2 == 0 <==> ok && !detached)
    && forall i | 0 <= i < |polls| :: polls[i] ==
         if i % 2 == 1 then Pause(poll)
         else Billing(scratch, if i < |polls| - 1 then Some(true) else if ok then Some(false) else None)
  }

  /** The calls of the `try`: aim, publish, poll; `ok` if none failed. */
  ghost predicate Fires(calls: seq<Call>, scratch: string, poll: nat, ok: bool, detached: bool) {
    if |calls| < 2 || calls[1] == Message(false) then
      (calls == [Aim(scratch, false)] || calls == [Aim(scratch, true), Message(false)]) && !ok && !detached
    else
      calls[..2] == [Aim(scratch, true), Message(true)] && Polls(calls[2..], scratch, poll, ok, detached)
  }

  function Turn(scratch: string, poll: nat, billing: Option<bool>): seq<Call> {
    [Billing(scratch, billing)] + if billing == Some(true) then [Pause(poll)] else []
  }

  lemma PollsOn(polls: seq<Call>, scratch: string, poll: nat, billing: Option<bool>)
    requires Polls(polls, scratch, poll, true, false)
    ensures Polls(polls + Turn(scratch, poll, billing), scratch, poll, billing.Some?, billing == Some(false))
  {
    match billing
    case None => assert |polls + Turn(scratch, poll, billing)| == |polls| + 1;
    case Some(seen) => assert |polls + Turn(scratch, poll, billing)| == |polls| + if seen then 2 else 1;
  }

  /** The calls of the `finally`: aim back and, unless that fails, read back; `ok` if home was read. */
  ghost predicate AimsBack(calls: seq<Call>, home: string, ok: bool) {
    if |calls| == 1 then calls == [Aim(home, false)] && !ok
    else |calls| == 2 && calls[0] == Aim(home, true) && calls[1].Target? && (ok <==> calls[1].found == Some(home))
  }

  /** The calls of a refusal: the target is asked for and, if it is the declared home and not the scratch project, the
      billing of the scratch project. */
  ghost predicate Refuses(calls: seq<Call>, scratch: string, home: string) {
    if calls != [] && calls[0] == Target(Some(home)) && scratch != home then
      |calls| == 2 && calls[1].Billing? && calls[1].project == scratch && calls[1].seen != Some(true)
    else
      |calls| == 1 && calls[0].Target?
  }

  /** One turn of the loop: ask for the billing, and pause if it is still there. */
  method Poll(cloud: Cloud, scratch: string, poll: nat) returns (billing: Option<bool>)
    modifies cloud`enabled, cloud`pending, cloud`clock, cloud`calls
    ensures cloud.calls == old(cloud.calls) + Turn(scratch, poll, billing)
    ensures cloud.Later(old(cloud.enabled), old(cloud.pending), cloud.target) && cloud.clock > old(cloud.clock)
    ensures billing == Some(false) ==> scratch !in cloud.enabled
  {
    billing := cloud.BillingEnabled(scratch);
    if billing == Some(true) {
      cloud.Sleep(poll);
    }
  }

  /** The loop: ask for the billing of the scratch project until it is seen disabled or the time is up. */
  method Watch(cloud: Cloud, scratch: string, timeout: int, poll: nat)
    returns (ok: bool, detached: bool, waited: nat, ghost polls: seq<Call>)
    modifies cloud`enabled, cloud`pending, cloud`clock, cloud`calls
    ensures cloud.calls == old(cloud.calls) + polls
    ensures Polls(polls, scratch, poll, ok, detached)
    ensures cloud.Later(old(cloud.enabled), old(cloud.pending), cloud.target)
    ensures detached ==> ok && scratch !in cloud.enabled
    // it waits as long as it was told, and says how long that was
    ensures ok && !detached ==> waited >= timeout
    ensures detached ==> waited < timeout
    ensures waited <= cloud.clock - old(cloud.clock)
  {
    polls, ok, detached := [], true, false;
    var started := cloud.Now();
    var now := cloud.Now();
    waited := now - started;
    while waited < timeout
      invariant ok && !detached && Polls(polls, scratch, poll, true, false)
      invariant cloud.calls == old(cloud.calls) + polls
      invariant cloud.Later(old(cloud.enabled), old(cloud.pending), cloud.target)
      invariant waited == now - started && old(cloud.clock) <= started <= now <= cloud.clock
      decreases timeout - waited
    {
      var billing := Poll(cloud, scratch, poll);
      PollsOn(polls, scratch, poll, billing);
      polls := polls + Turn(scratch, poll, billing);
      if billing != Some(true) {
        ok, detached := billing.Some?, billing == Some(false);
        return;
      }
      now := cloud.Now();
      waited := now - started;
    }
  }

  /** The body of the `try`: repoint, publish, and watch.  `aimed` is what was targeted when the message went out, if it
      did. */
  method FireAndWait(cloud: Cloud, scratch: string, timeout: int, poll: nat)
    returns (ok: bool, detached: bool, waited: nat, ghost aimed: Option<string>, ghost fired: seq<Call>)
    requires scratch in cloud.enabled
    modifies cloud`target, cloud`enabled, cloud`pending, cloud`clock, cloud`published, cloud`calls
    ensures cloud.calls == old(cloud.calls) + fired && Fires(fired, scratch, poll, ok, detached)
    ensures ok ==> aimed.Some?
    ensures cloud.target == scratch || cloud.target == old(cloud.target)
    ensures cloud.enabled <= old(cloud.enabled) && cloud.published == old(cloud.published) + Sent(aimed)
    ensures aimed.Some? ==> aimed.value == cloud.target && (cloud.honest ==> aimed.value == scratch)
    ensures old(cloud.pending) == 0 ==> Fired(cloud, aimed, old(cloud.enabled))
    // seeing the scratch project detached shows that it was hit, and nothing else
    ensures old(cloud.pending) == 0 && detached ==> aimed == Some(scratch) && (cloud.once ==> cloud.pending == 0)
    ensures detached ==> ok && scratch !in cloud.enabled
    ensures ok && !detached ==> waited >= timeout
    ensures detached ==> waited < timeout
    ensures waited <= cloud.clock - old(cloud.clock)
  {
    detached, waited, aimed := false, 0, None;
    ok := cloud.Repoint(scratch);
    fired := [Aim(scratch, ok)];
    if !ok {
      return;
    }
    ghost var out;
    ok, out := cloud.Publish();
    aimed, fired := if out then Some(cloud.target) else None, fired + [Message(ok)];
    if !ok {
      return;
    }
    ghost var polls;
    ok, detached, waited, polls := Watch(cloud, scratch, timeout, poll);
    fired := [Aim(scratch, true), Message(true)] + polls;
    assert fired[2..] == polls;
  }

  /** The `finally`: aim it back, and read back that it is.  `between` is what was undelivered when it took effect. */
  method Restore(cloud: Cloud, home: string) returns (ok: bool, ghost between: nat)
    modifies cloud`target, cloud`enabled, cloud`pending, cloud`clock, cloud`calls
    ensures old(cloud.calls) <= cloud.calls && AimsBack(cloud.calls[|old(cloud.calls)|..], home, ok)
    ensures forall seen | cloud.calls[|cloud.calls| - 1] == Target(Some(seen)) :: seen == cloud.target
    ensures ok ==> cloud.target == home
    ensures cloud.target == home || cloud.target == old(cloud.target)
    ensures cloud.clock >= old(cloud.clock)
    ensures between <= old(cloud.pending) && cloud.pending <= between && cloud.enabled <= old(cloud.enabled)
    ensures between == 0 < old(cloud.pending) ==> cloud.enabled == old(cloud.enabled) - {old(cloud.target)}
    ensures old(cloud.pending) == 0 ==> cloud.enabled == old(cloud.enabled)
    ensures between > 0 && cloud.target == home ==> home !in cloud.Drained()
    ensures between == 0 ==> cloud.Drained() == cloud.enabled
    ensures cloud.target != home ==> forall p | p in old(cloud.Drained()) :: p in cloud.Drained()
  {
    ok := cloud.Repoint(home);
    between := cloud.pending;
    if !ok {
      return;
    }
    var restored := cloud.CurrentTarget();
    ok := restored == Some(home);
  }

  /** What is asked before anything is touched: whether to go on. */
  method Consider(cloud: Cloud, scratch: string, expectedHome: string) returns (go: bool)
    modifies cloud`enabled, cloud`pending, cloud`clock, cloud`calls
    ensures (forall c | c in scratch :: c == ' ' || '\t' <= c <= '\r' || '\U{1C}' <= c <= '\U{1F}' || c == '\U{85}'
                                        || c == '\U{A0}') <==> !go && cloud.calls == old(cloud.calls)
    ensures old(cloud.calls) <= cloud.calls && cloud.clock >= old(cloud.clock)
    ensures !go && cloud.calls != old(cloud.calls) ==>
        Refuses(cloud.calls[|old(cloud.calls)|..], scratch, expectedHome)
    ensures go ==> cloud.calls == old(cloud.calls) + [Target(Some(expectedHome)), Billing(scratch, Some(true))]
    ensures go ==> scratch != expectedHome == cloud.target && scratch in cloud.enabled
    // what was read is what was there
    ensures forall seen | Target(Some(seen)) in cloud.calls[|old(cloud.calls)|..] :: seen == cloud.target
    ensures Billing(scratch, Some(false)) in cloud.calls[|old(cloud.calls)|..] ==> scratch !in cloud.enabled
    ensures cloud.enabled <= old(cloud.enabled) && cloud.pending <= old(cloud.pending)
    ensures old(cloud.pending) == 0 ==> cloud.enabled == old(cloud.enabled)
  {
    if Blank(scratch) {
      return false;
    }
    var home := cloud.CurrentTarget();
    if home.None? || home.value != expectedHome || scratch == home.value {
      return false;
    }
    var found := cloud.BillingEnabled(scratch);
    return found == Some(true);
  }

  /** `run_proof`.  `aimed` is what was targeted when the message went out, `between` what was still undelivered when
      the switch was aimed back. */
  method RunProof(cloud: Cloud, scratch: string, expectedHome: string, timeout: int, poll: nat)
    returns (r: Result, ghost aimed: Option<string>, ghost between: nat, ghost fired: seq<Call>, ghost back: seq<Call>)
    modifies cloud`target, cloud`enabled, cloud`pending, cloud`clock, cloud`published, cloud`calls
    // without a scratch project nothing is called
    ensures (forall c | c in scratch :: c == ' ' || '\t' <= c <= '\r' || '\U{1C}' <= c <= '\U{1F}' || c == '\U{85}'
                                        || c == '\U{A0}') <==> r.Refused? && cloud.calls == old(cloud.calls)
    // what is called otherwise, and what that comes to
    ensures old(cloud.calls) <= cloud.calls
    ensures r.Refused? && cloud.calls != old(cloud.calls) ==>
        Refuses(cloud.calls[|old(cloud.calls)|..], scratch, expectedHome)
    ensures !r.Refused? ==>
        cloud.calls == old(cloud.calls) + [Target(Some(expectedHome)), Billing(scratch, Some(true))] + fired + back
    ensures !r.Refused? ==> AimsBack(back, expectedHome, !r.RestoreError?)
    ensures r.Returned? ==> Fires(fired, scratch, poll, true, r.detached)
    ensures r.Aborted? ==> Fires(fired, scratch, poll, false, false)
    ensures r.RestoreError? ==> exists ok, detached :: Fires(fired, scratch, poll, ok, detached)
    // what was read is what was there
    ensures r.Refused? ==>
        forall seen | Target(Some(seen)) in cloud.calls[|old(cloud.calls)|..] :: seen == old(cloud.target)
    ensures r.Refused? && Billing(scratch, Some(false)) in cloud.calls[|old(cloud.calls)|..] ==>
        scratch !in cloud.enabled
    // refusals touch nothing
    ensures r.Refused? ==> aimed.None? && cloud.target == old(cloud.target)
    ensures r.Refused? && old(cloud.pending) == 0 ==> cloud.enabled == old(cloud.enabled)
    ensures !r.Refused? ==> scratch != expectedHome == old(cloud.target) && scratch in old(cloud.enabled)
    // one message at most, at the scratch project unless a repoint was reported that had not happened
    ensures cloud.published == old(cloud.published) + Sent(aimed)
    ensures aimed.Some? ==> aimed.value == scratch || (aimed.value == expectedHome && !cloud.honest)
    // every exit but the restore's own error leaves the switch aimed at home
    ensures !r.RestoreError? ==> cloud.target == old(cloud.target)
    ensures r.RestoreError? ==> cloud.target == scratch || cloud.target == expectedHome
    // with no message pending before: the hub keeps its billing, whatever is still delivered, exactly when no message
    // went out, or one went out at the scratch project and was delivered for good before the restore, or is aimed there
    // still because the restore failed
    ensures old(cloud.pending) == 0 && expectedHome in old(cloud.enabled) ==>
        (expectedHome in cloud.Drained() <==>
         aimed.None? || (aimed == Some(scratch) && (between == 0 || cloud.target == scratch)))
    // detached is what was seen, and shows that the switch was aimed as it should be; else the time ran out
    ensures r.Returned? ==> if r.detached then scratch !in cloud.enabled && r.waited < timeout else r.waited >= timeout
    ensures r.Returned? ==> r.waited <= cloud.clock - old(cloud.clock)
    ensures old(cloud.pending) == 0 && r.Returned? && r.detached ==>
        aimed == Some(scratch) && (cloud.once ==> between == 0)
  {
    aimed, between, fired, back := None, 0, [], [];
    var go := Consider(cloud, scratch, expectedHome);
    if !go {
      return Refused, None, 0, [], [];
    }
    var ok, detached, waited;
    ok, detached, waited, aimed, fired := FireAndWait(cloud, scratch, timeout, poll);
    ghost var before := cloud.calls;
    var restored;
    restored, between := Restore(cloud, expectedHome);
    back := cloud.calls[|before|..];
    r := if !restored then RestoreError else if ok then Returned(detached, waited) else Aborted;
  }
}
