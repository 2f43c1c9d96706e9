/** cli/infra.py, `node reclaim`: stop the runners, remove what the plan names, start the runners again. */
module NodeReclaim {
  import opened Values
  import opened Keyed
  import opened Ordering
  import opened Selection
  import opened DockerReclaim
  import opened DockerDaemon
  import opened Sequences

  const RUNNERS := ["act-runner", "github-runner"]

  // ---- states that differ only in what is running ----

  function Stopped(c: Container): Container { c.(running := false) }

  /** The same containers, except that runners may have been stopped or started. */
  ghost predicate SameButRunners(a: seq<Container>, b: seq<Container>) {
    |a| == |b| && forall i | 0 <= i < |a| :: Stopped(a[i]) == Stopped(b[i]) && (a[i].name !in RUNNERS ==> a[i] == b[i])
  }

  lemma SameBoth(a: seq<Container>, b: seq<Container>, c: seq<Container>)
    requires SameButRunners(a, b) && SameButRunners(b, c)
    ensures SameButRunners(a, c)
  {
  }

  /** What a plan depends on is not what is running. */
  lemma SamePlanning(a: seq<Container>, b: seq<Container>, now: int, gate: int)
    requires SameButRunners(a, b)
    ensures NamesOf(a) == NamesOf(b) && DoomedNames(a, now, gate) == DoomedNames(b, now, gate)
    ensures forall v :: Holders(a, v) == Holders(b, v)
  {
    SamePlanningHalf(a, b, now, gate);
    SamePlanningHalf(b, a, now, gate);
  }

  lemma SamePlanningHalf(a: seq<Container>, b: seq<Container>, now: int, gate: int)
    requires SameButRunners(a, b)
    ensures NamesOf(a) <= NamesOf(b) && DoomedNames(a, now, gate) <= DoomedNames(b, now, gate)
    ensures forall v :: Holders(a, v) <= Holders(b, v)
  {
    forall c | c in a
      ensures exists d | d in b :: Stopped(d) == Stopped(c)
    {
      var i :| 0 <= i < |a| && a[i] == c;
      assert Stopped(b[i]) == Stopped(c);
    }
    forall c, d | Stopped(c) == Stopped(d)
      ensures c.name == d.name && c.volumes == d.volumes && Doomed(c, now, gate) == Doomed(d, now, gate)
    {
      assert Stopped(c).name == c.name && Stopped(d).name == d.name;
      assert Stopped(c).volumes == c.volumes && Stopped(d).volumes == d.volumes;
      assert Stopped(c).created == c.created && Stopped(d).created == d.created;
    }
  }

  /** A plan still fits once runners were stopped. */
  lemma StillFits(p: Plan, a: seq<Container>, b: seq<Container>, vs: seq<string>)
    requires Fits(p, a, vs) && SameButRunners(a, b)
    ensures Fits(p, b, vs)
  {
    SamePlanning(a, b, 0, 0);
  }

  lemma {:induction false} SameWithout(a: seq<Container>, b: seq<Container>, gone: set<string>)
    requires SameButRunners(a, b)
    ensures SameButRunners(Without(a, gone), Without(b, gone))
  {
    if a != [] {
      assert Stopped(a[0]).name == a[0].name && Stopped(b[0]).name == b[0].name;
      SameWithout(a[1..], b[1..], gone);
    }
  }

  lemma NothingDoomed(cs: seq<Container>, vs: seq<string>, now: int, gate: int, reclaimable: string -> bool)
    ensures PlanOf(cs, vs, now, gate, reclaimable).containers == [] <==> DoomedNames(cs, now, gate) == {}
  {
    var planned := PlanOf(cs, vs, now, gate, reclaimable).containers;
    DoomedAreNamed(cs, planned, now, gate);
    if planned != [] {
      assert planned[0].name in DoomedNames(cs, now, gate);
    }
  }

  lemma FirstIsMember(s: seq<string>)
    ensures s == [] || s[0] in s
  {
  }

  /** Nothing planned before means nothing planned after, if only runners changed. */
  lemma SameNothing(a: seq<Container>, b: seq<Container>, vs: seq<string>, now: int, gate: int,
        reclaimable: string -> bool)
    requires SameButRunners(a, b)
    requires PlanOf(a, vs, now, gate, reclaimable).containers == []
        && PlanOf(a, vs, now, gate, reclaimable).volumes == []
    ensures PlanOf(b, vs, now, gate, reclaimable).containers == []
        && PlanOf(b, vs, now, gate, reclaimable).volumes == []
  {
    SamePlanning(a, b, now, gate);
    NothingDoomed(a, vs, now, gate, reclaimable);
    NothingDoomed(b, vs, now, gate, reclaimable);
    PlanMembers(a, vs, now, gate, reclaimable);
    PlanMembers(b, vs, now, gate, reclaimable);
    var volumes := PlanOf(b, vs, now, gate, reclaimable).volumes;
    forall v ensures v !in volumes {
      assert Survivors(a, v, now, gate) == Survivors(b, v, now, gate);
    }
    FirstIsMember(volumes);
  }

  // ---- set_runners ----

  /** What became of one command: whether it answered, and whether it was carried out.  One that answers and was not
      carried out was refused, or its container is not there. */
  datatype Reply = Reply(answered: bool, carriedOut: bool)

  /** The loop stops at the first command that does not answer. */
  ghost predicate Ran(replies: seq<Reply>) {
    |replies| <= |RUNNERS| && forall k | 0 <= k < |replies| - 1 :: replies[k].answered
  }

  predicate AllAnswered(replies: seq<Reply>) {
    |replies| == |RUNNERS| && forall k | 0 <= k < |replies| :: replies[k].answered
  }

  predicate CarriedOut(replies: seq<Reply>, name: string) {
    exists k | 0 <= k < |replies| && k < |RUNNERS| && RUNNERS[k] == name :: replies[k].carriedOut
  }

  /** The containers once the runners' commands met these replies. */
  function Commanded(cs: seq<Container>, replies: seq<Reply>, running: bool): seq<Container>
    requires |replies| <= |RUNNERS|
    decreases |replies|
  {
    if replies == [] then cs
    else
      var last := |replies| - 1;
      var before := Commanded(cs, replies[..last], running);
      if replies[last].carriedOut then Switched(before, RUNNERS[last], running) else before
  }

  lemma RunnersApart(j: nat, k: nat)
    requires j < |RUNNERS| && k < |RUNNERS| && j != k
    ensures RUNNERS[j] != RUNNERS[k]
  {
  }

  lemma {:induction false} SwitchedAt(cs: seq<Container>, name: string, running: bool, i: nat)
    requires i < |cs|
    ensures |Switched(cs, name, running)| == |cs|
    ensures Switched(cs, name, running)[i] == if cs[i].name == name then cs[i].(running := running) else cs[i]
  {
    if i > 0 {
      SwitchedAt(cs[1..], name, running, i - 1);
    } else if |cs| > 1 {
      SwitchedAt(cs[1..], name, running, 0);
    }
  }

  /** Every container is as it was, but that a runner whose command was carried out runs or does not. */
  lemma {:induction false} CommandedAt(cs: seq<Container>, replies: seq<Reply>, running: bool, i: nat)
    requires |replies| <= |RUNNERS| && i < |cs|
    ensures |Commanded(cs, replies, running)| == |cs|
    ensures Commanded(cs, replies, running)[i] ==
            if CarriedOut(replies, cs[i].name) then cs[i].(running := running) else cs[i]
    decreases |replies|
  {
    if replies != [] {
      var last := |replies| - 1;
      var before := Commanded(cs, replies[..last], running);
      CommandedAt(cs, replies[..last], running, i);
      SwitchedAt(before, RUNNERS[last], running, i);
      CarriedOutNext(replies, cs[i].name);
    }
  }

  lemma CarriedOutNext(replies: seq<Reply>, name: string)
    requires 0 < |replies| <= |RUNNERS|
    ensures var last := |replies| - 1;
            CarriedOut(replies, name) <==>
            CarriedOut(replies[..last], name) || (RUNNERS[last] == name && replies[last].carriedOut)
  {
    var last := |replies| - 1;
    if k :| 0 <= k < |replies| && k < |RUNNERS| && RUNNERS[k] == name && replies[k].carriedOut {
      assert k < last ==> replies[..last][k].carriedOut;
    }
    if k :| 0 <= k < last && k < |RUNNERS| && RUNNERS[k] == name && replies[..last][k].carriedOut {
      assert replies[k].carriedOut;
    }
  }

  lemma CommandedSame(cs: seq<Container>, replies: seq<Reply>, running: bool)
    requires |replies| <= |RUNNERS|
    ensures SameButRunners(cs, Commanded(cs, replies, running))
  {
    if cs == [] {
      CommandedNone(replies, running);
    }
    forall i | 0 <= i < |cs|
      ensures |Commanded(cs, replies, running)| == |cs|
      ensures var c := Commanded(cs, replies, running)[i];
              Stopped(cs[i]) == Stopped(c) && (cs[i].name !in RUNNERS ==> cs[i] == c)
    {
      CommandedAt(cs, replies, running, i);
    }
  }

  lemma {:induction false} CommandedNone(replies: seq<Reply>, running: bool)
    requires |replies| <= |RUNNERS|
    ensures Commanded([], replies, running) == []
    decreases |replies|
  {
    if replies != [] {
      CommandedNone(replies[..|replies| - 1], running);
    }
  }

  /** A runner whose command answered is as it was told to be, unless that command was refused; one whose command was
      not sent is as it was. */
  lemma AnsweredOrUntouched(cs: seq<Container>, replies: seq<Reply>, running: bool, k: nat, i: nat)
    requires Ran(replies) && k < |RUNNERS| && i < |cs| && cs[i].name == RUNNERS[k]
    ensures |Commanded(cs, replies, running)| == |cs|
    ensures var c := Commanded(cs, replies, running)[i];
            && (k < |replies| && replies[k].carriedOut ==> c == cs[i].(running := running))
            && (k < |replies| && !replies[k].carriedOut ==> c == cs[i])
            && (k >= |replies| ==> c == cs[i])
  {
    CommandedAt(cs, replies, running, i);
    if CarriedOut(replies, RUNNERS[k]) {
      var j :| 0 <= j < |replies| && j < |RUNNERS| && RUNNERS[j] == RUNNERS[k] && replies[j].carriedOut;
      if j != k {
        RunnersApart(j, k);
      }
    }
  }

  /** Every runner that is there runs. */
  ghost predicate AllRunning(cs: seq<Container>) {
    forall c | c in cs && c.name in RUNNERS :: c.running
  }

  /** After a restart every runner runs exactly when each ran before it or had its start carried out. */
  lemma {:induction false} AllRunningIff(cs: seq<Container>, replies: seq<Reply>)
    requires |replies| <= |RUNNERS|
    ensures AllRunning(Commanded(cs, replies, true)) <==>
            forall c | c in cs && c.name in RUNNERS :: c.running || CarriedOut(replies, c.name)
  {
    var after := Commanded(cs, replies, true);
    CommandedSame(cs, replies, true);
    forall i | 0 <= i < |cs|
      ensures after[i] == if CarriedOut(replies, cs[i].name) then cs[i].(running := true) else cs[i]
    {
      CommandedAt(cs, replies, true, i);
    }
    forall c | c in cs && c.name in RUNNERS && AllRunning(after) ensures c.running || CarriedOut(replies, c.name) {
      var i :| 0 <= i < |cs| && cs[i] == c;
      assert after[i] in after && after[i].name == c.name;
    }
  }

  /** Both runners were stopped, the answer to the first start is lost: the second is never asked to start. */
  lemma {:induction false} SecondNeverAsked(cs: seq<Container>, c: Container, carriedOut: bool)
    requires c in cs && c.name == RUNNERS[1] && !c.running
    ensures var replies := [Reply(false, carriedOut)];
            && Ran(replies) && !AllAnswered(replies)
            && !CarriedOut(replies, c.name) && c in Commanded(cs, replies, true)
            && !AllRunning(Commanded(cs, replies, true))
  {
    var replies := [Reply(false, carriedOut)];
    var i :| 0 <= i < |cs| && cs[i] == c;
    RunnersApart(0, 1);
    CommandedAt(cs, replies, true, i);
    assert Commanded(cs, replies, true)[i] == c;
  }

  function SwitchAll(names: seq<string>, running: bool): seq<Command> {
    seq(|names|, i requires 0 <= i < |names| => Switch(names[i], running))
  }

  ghost function RepliesOf(events: seq<Event>): seq<Reply> {
    seq(|events|, i requires 0 <= i < |events| => Reply(events[i].outcome.Done?, events[i].carriedOut))
  }

  lemma TheRunners(running: bool)
    ensures SwitchAll(RUNNERS, running) == [Switch("act-runner", running), Switch("github-runner", running)]
  {
  }

  /** What the loop has sent, one command further. */
  lemma SwitchedOn(a: seq<Event>, b: seq<Event>, i: nat, running: bool, e: Event)
    requires i < |RUNNERS| && Went(a, b, SwitchAll(RUNNERS[..i], running), Done) && |b| == |a| + i
    requires e.command == Switch(RUNNERS[i], running) && !e.outcome.Unsafe?
    ensures RepliesOf((b + [e])[|a|..]) == RepliesOf(b[|a|..]) + [Reply(e.outcome.Done?, e.carriedOut)]
    ensures e.outcome.Done? ==> Went(a, b + [e], SwitchAll(RUNNERS[..i + 1], running), Done)
    ensures !e.outcome.Done? ==> Went(a, b + [e], SwitchAll(RUNNERS, running), e.outcome)
  {
    assert (b + [e])[|a|..] == b[|a|..] + [e];
    assert Went(b, b + [e], [e.command], e.outcome) by {
      assert (b + [e])[|b|..] == [e];
    }
    assert SwitchAll(RUNNERS[..i], running) + [e.command] == SwitchAll(RUNNERS[..i + 1], running);
    assert SwitchAll(RUNNERS[..i + 1], running) + SwitchAll(RUNNERS[i + 1..], running) == SwitchAll(RUNNERS, running);
    WentOn(a, b, b + [e], SwitchAll(RUNNERS[..i], running), [e.command], e.outcome);
    if !e.outcome.Done? {
      WentNoFurther(a, b + [e], SwitchAll(RUNNERS[..i + 1], running), SwitchAll(RUNNERS[i + 1..], running), e.outcome);
    }
  }

  /** The loop has sent the first `i` commands, and each answered. */
  ghost predicate SoFar(cs: seq<Container>, start: seq<Event>, now: seq<Container>, events: seq<Event>,
        replies: seq<Reply>, running: bool, i: nat) {
    && i == |replies| <= |RUNNERS| && (forall k | 0 <= k < i :: replies[k].answered)
    && now == Commanded(cs, replies, running)
    && Went(start, events, SwitchAll(RUNNERS[..i], running), Done)
    && |events| == |start| + i && replies == RepliesOf(events[|start|..])
  }

  lemma CommandedNext(cs: seq<Container>, replies: seq<Reply>, reply: Reply, running: bool)
    requires |replies| < |RUNNERS|
    ensures var before := Commanded(cs, replies, running);
            Commanded(cs, replies + [reply], running) ==
            if reply.carriedOut then Switched(before, RUNNERS[|replies|], running) else before
  {
    assert (replies + [reply])[..|replies|] == replies;
  }

  lemma SoFarNext(cs: seq<Container>, start: seq<Event>, now: seq<Container>, events: seq<Event>,
        replies: seq<Reply>, running: bool, i: nat, outcome: Outcome, carriedOut: bool)
    requires i < |RUNNERS| && SoFar(cs, start, now, events, replies, running, i) && !outcome.Unsafe?
    ensures var e := Event(Switch(RUNNERS[i], running), outcome, carriedOut);
            var more := replies + [Reply(outcome.Done?, carriedOut)];
            var after := if carriedOut then Switched(now, RUNNERS[i], running) else now;
            && after == Commanded(cs, more, running) && more == RepliesOf((events + [e])[|start|..])
            && (outcome.Done? ==> SoFar(cs, start, after, events + [e], more, running, i + 1))
            && (!outcome.Done? ==> Went(start, events + [e], SwitchAll(RUNNERS, running), outcome))
  {
    CommandedNext(cs, replies, Reply(outcome.Done?, carriedOut), running);
    SwitchedOn(start, events, i, running, Event(Switch(RUNNERS[i], running), outcome, carriedOut));
  }

  lemma SoFarPresent(cs: seq<Container>, start: seq<Event>, now: seq<Container>, events: seq<Event>,
        replies: seq<Reply>, running: bool, i: nat, name: string)
    requires SoFar(cs, start, now, events, replies, running, i)
    ensures Present(now, name) <==> Present(cs, name)
  {
    CommandedSame(cs, replies, running);
    SamePresent(cs, now, name);
  }

  /** How the loop ends: each runner's command was sent in turn up to the first that did not answer, and the containers
      are what those that were carried out make of them. */
  ghost predicate Told(cs: seq<Container>, start: seq<Event>, now: seq<Container>, events: seq<Event>,
        replies: seq<Reply>, running: bool, outcome: Outcome) {
    && Ran(replies) && replies != [] && now == Commanded(cs, replies, running)
    && (outcome.Done? || outcome.Unreachable? || outcome.TimedOut?) && (outcome.Done? <==> AllAnswered(replies))
    && Went(start, events, [Switch("act-runner", running), Switch("github-runner", running)], outcome)
    && replies == RepliesOf(events[|start|..])
  }

  lemma SoFarEnds(cs: seq<Container>, start: seq<Event>, now: seq<Container>, events: seq<Event>,
        replies: seq<Reply>, running: bool)
    requires SoFar(cs, start, now, events, replies, running, |RUNNERS|)
    ensures Told(cs, start, now, events, replies, running, Done)
  {
    TheRunners(running);
    TakeAll(RUNNERS);
  }

  /** One turn of the loop. */
  method SetNext(d: Daemon, i: nat, running: bool, ghost cs: seq<Container>, ghost start: seq<Event>,
        ghost before: seq<Reply>)
    returns (outcome: Outcome, acted: bool, ghost replies: seq<Reply>)
    requires i < |RUNNERS| && SoFar(cs, start, d.containers, d.sent, before, running, i)
    modifies d
    ensures d.volumes == old(d.volumes) && |replies| == i + 1 && replies == before + [replies[i]]
    ensures acted <==> replies[i].answered && replies[i].carriedOut && Present(cs, RUNNERS[i])
    ensures if outcome.Done? then SoFar(cs, start, d.containers, d.sent, replies, running, i + 1)
            else Told(cs, start, d.containers, d.sent, replies, running, outcome)
  {
    ghost var carriedOut, events, now := false, d.sent, d.containers;
    SoFarPresent(cs, start, now, events, before, running, i, RUNNERS[i]);
    outcome, acted, carriedOut := d.SetRunning(RUNNERS[i], running);
    SoFarNext(cs, start, now, events, before, running, i, outcome, carriedOut);
    TheRunners(running);
    replies := before + [Reply(outcome.Done?, carriedOut)];
  }

  /** `set_runners`: one command a runner, stopping at the first the link fails.  What it acted on is what is
      there and was not refused. */
  method SetRunners(d: Daemon, running: bool) returns (outcome: Outcome, acted: seq<string>, ghost replies: seq<Reply>)
    modifies d
    ensures d.volumes == old(d.volumes)
    ensures Told(old(d.containers), old(d.sent), d.containers, d.sent, replies, running, outcome)
    ensures forall name :: name in acted <==> Acted(old(d.containers), replies, name)
  {
    acted, replies, outcome := [], [], Done;
    for i := 0 to |RUNNERS|
      invariant d.volumes == old(d.volumes) && outcome.Done?
      invariant SoFar(old(d.containers), old(d.sent), d.containers, d.sent, replies, running, i)
      invariant forall name :: name in acted <==> Acted(old(d.containers), replies, name)
    {
      var one;
      ghost var before := replies;
      outcome, one, replies := SetNext(d, i, running, old(d.containers), old(d.sent), replies);
      ActedNext(old(d.containers), before, replies[i]);
      if !outcome.Done? {
        return;
      }
      if one {
        acted := acted + [RUNNERS[i]];
      }
    }
    SoFarEnds(old(d.containers), old(d.sent), d.containers, d.sent, replies, running);
  }

  /** The command for a runner that is there answered and was carried out. */
  ghost predicate Acted(cs: seq<Container>, replies: seq<Reply>, name: string)
    requires |replies| <= |RUNNERS|
  {
    exists k | 0 <= k < |replies| ::
      RUNNERS[k] == name && replies[k].answered && replies[k].carriedOut && Present(cs, name)
  }

  lemma ActedNext(cs: seq<Container>, replies: seq<Reply>, reply: Reply)
    requires |replies| < |RUNNERS|
    ensures (replies + [reply])[..|replies|] == replies
    ensures forall name :: Acted(cs, replies + [reply], name) <==>
              || Acted(cs, replies, name)
              || (name == RUNNERS[|replies|] && reply.answered && reply.carriedOut && Present(cs, name))
  {
    var more := replies + [reply];
    forall name | Acted(cs, replies, name) ensures Acted(cs, more, name) {
      var k :| 0 <= k < |replies| &&
        RUNNERS[k] == name && replies[k].answered && replies[k].carriedOut && Present(cs, name);
      assert more[k] == replies[k];
    }
    forall name | name == RUNNERS[|replies|] && reply.answered && reply.carriedOut && Present(cs, name)
      ensures Acted(cs, more, name)
    {
      assert more[|replies|] == reply;
    }
  }

  lemma SamePresent(a: seq<Container>, b: seq<Container>, name: string)
    requires SameButRunners(a, b)
    ensures Present(a, name) <==> Present(b, name)
  {
    SamePlanning(a, b, 0, 0);
    assert Present(a, name) <==> name in NamesOf(a);
    assert Present(b, name) <==> name in NamesOf(b);
  }

  // ---- the command ----

  datatype Exit = Reported | ExitedOne | Crashed | Reclaimed

  /** What the `try` sends: stop the runners, remove what is planned, then look, and prune images if asked to. */
  ghost function TryCommands(p: Plan, images: bool): seq<Command> {
    [Switch("act-runner", false), Switch("github-runner", false)] + (RmAll(p.containers) + VolumeRmAll(p.volumes))
    + Looks(images)
  }

  ghost function Looks(images: bool): seq<Command> {
    if images then [Df, Prune] else [Df]
  }

  /** `disk_usage`, then `prune_images`. */
  method Look(d: Daemon, images: bool) returns (outcome: Outcome)
    modifies d`sent
    ensures Went(old(d.sent), d.sent, Looks(images), outcome)
  {
    outcome := d.Ask(Df);
    if outcome.Done? && images {
      outcome := d.Ask(Prune);
    }
  }

  /** Stopped short at the runners, or at the removals, or gone through to the looks. */
  lemma TryWent(start: seq<Event>, a: seq<Event>, b: seq<Event>, c: seq<Event>, p: Plan, images: bool, stops: Outcome,
        removals: Outcome, looks: Outcome)
    requires Went(start, a, [Switch("act-runner", false), Switch("github-runner", false)], stops)
    requires stops.Done? ==> Went(a, b, RmAll(p.containers) + VolumeRmAll(p.volumes), removals)
    requires stops.Done? && removals.Done? ==> Went(b, c, Looks(images), looks)
    ensures !stops.Done? ==> Went(start, a, TryCommands(p, images), stops)
    ensures stops.Done? && !removals.Done? ==> Went(start, b, TryCommands(p, images), removals)
    ensures stops.Done? && removals.Done? ==> Went(start, c, TryCommands(p, images), looks)
  {
    var first, second := [Switch("act-runner", false), Switch("github-runner", false)],
      RmAll(p.containers) + VolumeRmAll(p.volumes);
    if !stops.Done? {
      WentNoFurther(start, a, first, second, stops);
      WentNoFurther(start, a, first + second, Looks(images), stops);
    } else {
      WentOn(start, a, b, first, second, removals);
      if removals.Done? {
        WentOn(start, b, c, first + second, Looks(images), looks);
      } else {
        WentNoFurther(start, b, first + second, Looks(images), removals);
      }
    }
  }

  /** The body of the `try`. */
  method PauseAndRemove(d: Daemon, p: Plan, images: bool)
    returns (outcome: Outcome, ghost goneNames: set<string>, ghost goneVolumes: set<string>)
    requires Fits(p, d.containers, d.volumes)
    modifies d
    ensures PartlyDone(p, goneNames, goneVolumes)
    ensures SameButRunners(Without(old(d.containers), goneNames), d.containers)
    ensures d.volumes == Minus(old(d.volumes), goneVolumes)
    ensures outcome.Done? ==> goneNames == NamesOf(p.containers) && goneVolumes == set v | v in p.volumes
    ensures Went(old(d.sent), d.sent, TryCommands(p, images), outcome)
  {
    goneNames, goneVolumes := {}, {};
    ghost var before, start := d.containers, d.sent;
    SelectAll(before, NamedNot({}));
    SelectAll(d.volumes, NotIn({}));
    var paused;
    ghost var replies;
    outcome, paused, replies := SetRunners(d, false);
    CommandedSame(before, replies, false);
    ghost var stops, a := outcome, d.sent;
    if !outcome.Done? {
      TryWent(start, a, a, a, p, images, stops, stops, stops);
      return;
    }
    StillFits(p, before, d.containers, d.volumes);
    ghost var stopped := d.containers;
    outcome, goneNames, goneVolumes := Remove(d, p);
    SameWithout(before, stopped, goneNames);
    ghost var removals, b := outcome, d.sent;
    if outcome.Done? {
      outcome := Look(d, images);
    }
    TryWent(start, a, b, d.sent, p, images, stops, removals, outcome);
  }

  /** What holds of the daemon at every exit: survivors keep their volumes, and only builders go. */
  ghost predicate Intact(cs: seq<Container>, vs: seq<string>, cs': seq<Container>, vs': seq<string>) {
    && (forall c, v | c in cs' && v in c.volumes && v in vs :: v in vs')
    && (forall c | c in cs && !IsBuilder(c) :: exists d | d in cs' :: Stopped(d) == Stopped(c))
  }

  lemma StaysIntact(p: Plan, cs: seq<Container>, vs: seq<string>, goneNames: set<string>, goneVolumes: set<string>,
        cs': seq<Container>)
    requires Fits(p, cs, vs) && PartlyDone(p, goneNames, goneVolumes) && forall c | c in p.containers :: IsBuilder(c)
    requires SameButRunners(Without(cs, goneNames), cs')
    ensures Intact(cs, vs, cs', Minus(vs, goneVolumes))
  {
    SurvivorsKeepVolumes(p, cs, vs, goneNames, goneVolumes);
    SamePlanning(Without(cs, goneNames), cs', 0, 0);
    SelectMembers(cs, NamedNot(goneNames));
    forall c, v | c in cs' && v in c.volumes && v in vs ensures v in Minus(vs, goneVolumes) {
      assert c.name in Holders(cs', v);
      var b :| b in Without(cs, goneNames) && v in b.volumes;
    }
    forall c | c in cs && !IsBuilder(c) ensures exists d | d in cs' :: Stopped(d) == Stopped(c) {
      assert c.name !in goneNames by {
        forall e | e in p.containers && e.name == c.name ensures IsBuilder(c) {}
      }
      var left := Without(cs, goneNames);
      var i :| 0 <= i < |left| && left[i] == c;
      assert Stopped(cs'[i]) == Stopped(c);
    }
  }

  /** The runners were started in turn up to the first start that did not answer; every runner runs exactly when each
      ran when that began or had its start carried out. */
  ghost predicate Restarted(between: seq<Container>, replies: seq<Reply>, cs: seq<Container>) {
    && Ran(replies) && replies != [] && cs == Commanded(between, replies, true)
    && (AllRunning(cs) <==> forall c | c in between && c.name in RUNNERS :: c.running || CarriedOut(replies, c.name))
  }

  /** The `try` and its `finally`: whatever became of the removal, the runners are started again, until one start does
      not answer.  `between` is what was there when the restart began. */
  method PauseRemoveResume(d: Daemon, p: Plan, images: bool)
    returns (outcome: Outcome, resume: Outcome, ghost between: seq<Container>, ghost replies: seq<Reply>,
        ghost goneNames: set<string>, ghost goneVolumes: set<string>, ghost events: seq<Event>)
    requires Fits(p, d.containers, d.volumes) && forall c | c in p.containers :: IsBuilder(c)
    modifies d
    ensures PartlyDone(p, goneNames, goneVolumes)
    ensures SameButRunners(Without(old(d.containers), goneNames), between)
    ensures SameButRunners(Without(old(d.containers), goneNames), d.containers)
        && d.volumes == Minus(old(d.volumes), goneVolumes)
    ensures outcome.Done? ==> goneNames == NamesOf(p.containers) && goneVolumes == set v | v in p.volumes
    ensures Restarted(between, replies, d.containers) && (resume.Done? <==> AllAnswered(replies))
    ensures Intact(old(d.containers), old(d.volumes), d.containers, d.volumes)
    ensures Went(old(d.sent), events, TryCommands(p, images), outcome)
    ensures Went(events, d.sent, [Switch("act-runner", true), Switch("github-runner", true)], resume)
    ensures replies == RepliesOf(d.sent[|events|..])
  {
    outcome, goneNames, goneVolumes := PauseAndRemove(d, p, images);
    between, events := d.containers, d.sent;
    var resumed;
    resume, resumed, replies := SetRunners(d, true);
    CommandedSame(between, replies, true);
    AllRunningIff(between, replies);
    SameBoth(Without(old(d.containers), goneNames), between, d.containers);
    StaysIntact(p, old(d.containers), old(d.volumes), goneNames, goneVolumes, d.containers);
  }

  /** What a reclaim that went through leaves to reclaim. */
  lemma NothingLeft(cs: seq<Container>, vs: seq<string>, goneNames: set<string>, goneVolumes: set<string>,
        cs': seq<Container>, now: int, gate: int, reclaimable: string -> bool)
    requires UniqueNames(cs) && SameButRunners(Without(cs, goneNames), cs')
    requires var p := PlanOf(cs, vs, now, gate, reclaimable);
             goneNames == NamesOf(p.containers) == DoomedNames(cs, now, gate) && goneVolumes == set v | v in p.volumes
    ensures var left := PlanOf(cs', Minus(vs, goneVolumes), now, gate, reclaimable);
            left.containers == [] && left.volumes == []
  {
    ReplanIsNothing(cs, vs, now, gate, reclaimable);
    SameNothing(Without(cs, goneNames), cs', Minus(vs, goneVolumes), now, gate, reclaimable);
  }

  /** What the command does: what it asked first ended with `asked`, and then, if it went on, the `try` with `tried`,
      the restart with `resumed` and the last look with `last`; `events` are what was sent by the end of each. */
  datatype Course = Course(asked: Outcome, tried: Outcome, resumed: Outcome, last: Outcome, events: seq<seq<Event>>)

  /** The plan is to be carried out. */
  ghost predicate Acts(p: Plan, gate: int, apply: bool, images: bool) {
    gate >= 0 && apply && (images || p.containers != [] || p.volumes != [])
  }

  /** How the command ends short of acting. */
  function ExitOfAsking(asked: Outcome, gate: int): Exit {
    if asked.TimedOut? then Crashed
    else if !asked.Done? || gate < 0 then ExitedOne
    else Reported
  }

  function ExitOfActing(course: Course): Exit {
    if course.resumed.TimedOut? || course.tried.TimedOut? then Crashed
    else if !course.tried.Done? then ExitedOne
    else if course.last.Done? then Reclaimed
    else Crashed
  }

  /** The commands sent, part by part. */
  ghost predicate Followed(before: seq<Event>, after: seq<Event>, p: Plan, images: bool, course: Course) {
    && |course.events| == 3
    && Went(before, course.events[0], [Df, Ps, VolumeLs], Done)
    && Went(course.events[0], course.events[1], TryCommands(p, images), course.tried)
    && Went(course.events[1], course.events[2], [Switch("act-runner", true), Switch("github-runner", true)],
            course.resumed)
    && if course.tried.Done? && !course.resumed.TimedOut?
       then Went(course.events[2], after, [Df], course.last) else after == course.events[2]
  }

  /** The disk usage and the inventory. */
  method Probe(d: Daemon) returns (outcome: Outcome)
    modifies d`sent
    ensures Went(old(d.sent), d.sent, [Df, Ps, VolumeLs], outcome)
  {
    outcome := d.Ask(Df);
    if outcome.Done? {
      outcome := d.Ask(Ps);
    }
    if outcome.Done? {
      outcome := d.Ask(VolumeLs);
    }
  }

  /** Up to the decision to act: nothing is touched, and a plan comes back only when it is to be carried out. */
  method Consider(d: Daemon, now: int, gate: int, apply: bool, images: bool, reclaimable: string -> bool)
    returns (plan: Option<Plan>, exit: Exit, ghost asked: Outcome)
    requires UniqueNames(d.containers) && DistinctBy(Itself, d.volumes)
    modifies d`sent
    ensures Went(old(d.sent), d.sent, [Df, Ps, VolumeLs], asked)
    ensures var p := PlanOf(d.containers, d.volumes, now, gate, reclaimable);
            && (plan.Some? <==> asked.Done? && Acts(p, gate, apply, images))
            && if plan.Some?
               then plan == Some(p) && Fits(p, d.containers, d.volumes)
                    && NamesOf(p.containers) == DoomedNames(d.containers, now, gate)
                    && forall c | c in p.containers :: IsBuilder(c)
               else exit == ExitOfAsking(asked, gate)
  {
    plan, exit := None, ExitedOne;
    var outcome := Probe(d);
    asked := outcome;
    if !outcome.Done? {
      exit := if outcome.TimedOut? then Crashed else ExitedOne;
      return;
    }
    var made := PlanReclaim(d.containers, d.volumes, now, gate, reclaimable);
    if made.None? {
      return;
    }
    var p := made.value;
    if (p.containers == [] && p.volumes == [] && !images) || !apply {
      exit := Reported;
      return;
    }
    PlanFits(d.containers, d.volumes, now, gate, reclaimable);
    PlanMembers(d.containers, d.volumes, now, gate, reclaimable);
    plan := made;
  }

  /** What carrying out a plan did, however it ended. */
  datatype Deed = Deed(course: Course, between: seq<Container>, replies: seq<Reply>, goneNames: set<string>,
    goneVolumes: set<string>)

  ghost predicate CarriedOn(p: Plan, images: bool, before: seq<Event>, after: seq<Event>, cs: seq<Container>,
        vs: seq<string>, cs': seq<Container>, vs': seq<string>, deed: Deed) {
    // the commands sent
    && Followed(before, after, p, images, deed.course)
    // what goes is part of the plan, no volume before the last container; runners are only stopped and started
    && PartlyDone(p, deed.goneNames, deed.goneVolumes)
    && SameButRunners(Without(cs, deed.goneNames), cs') && vs' == Minus(vs, deed.goneVolumes)
    // whatever failed, the runners are started in turn, up to the first start that does not answer
    && SameButRunners(Without(cs, deed.goneNames), deed.between) && Restarted(deed.between, deed.replies, cs')
    && deed.replies == RepliesOf(deed.course.events[2][|deed.course.events[1]|..])
    && (deed.course.resumed.Done? <==> AllAnswered(deed.replies))
    // and what was left keeps its volumes
    && Intact(cs, vs, cs', vs')
  }

  /** From the decision to act to the end. */
  method Act(d: Daemon, p: Plan, images: bool, ghost before: seq<Event>) returns (exit: Exit, ghost deed: Deed)
    requires Fits(p, d.containers, d.volumes) && forall c | c in p.containers :: IsBuilder(c)
    requires Went(before, d.sent, [Df, Ps, VolumeLs], Done)
    modifies d
    ensures exit == ExitOfActing(deed.course) && deed.course.asked.Done?
    ensures CarriedOn(p, images, before, d.sent, old(d.containers), old(d.volumes), d.containers, d.volumes, deed)
    ensures exit.Reclaimed? ==>
        deed.goneNames == NamesOf(p.containers) && deed.goneVolumes == set v | v in p.volumes
  {
    ghost var start, between, replies, goneNames, goneVolumes, tried := d.sent, [], [], {}, {}, [];
    var outcome, resume;
    outcome, resume, between, replies, goneNames, goneVolumes, tried := PauseRemoveResume(d, p, images);
    deed := Deed(Course(Done, outcome, resume, Done, [start, tried, d.sent]), between, replies, goneNames, goneVolumes);
    if resume.TimedOut? || outcome.TimedOut? {
      exit := Crashed;
      return;
    }
    if !outcome.Done? {
      exit := ExitedOne;
      return;
    }
    var last := d.Ask(Df);
    deed := deed.(course := deed.course.(last := last));
    exit := if last.Done? then Reclaimed else Crashed;
  }

  /** `node reclaim`.  It acts exactly when what it asked first was answered and there is something to carry out and
      leave to do so; else nothing is touched.  Success leaves nothing to reclaim, and says nothing of the runners. */
  method NodeReclaim(d: Daemon, now: int, minAge: Option<int>, apply: bool, images: bool, reclaimable: string -> bool)
    returns (exit: Exit, entered: bool, ghost asked: Outcome, ghost deed: Deed)
    requires UniqueNames(d.containers) && DistinctBy(Itself, d.volumes)
    modifies d
    ensures var p := PlanOf(old(d.containers), old(d.volumes), now, ResolveGate(minAge), reclaimable);
            && (entered <==> asked.Done? && apply && (minAge.Some? ==> minAge.value >= 0)
                             && (images || p.containers != [] || p.volumes != []))
            && (entered ==> CarriedOn(p, images, old(d.sent), d.sent, old(d.containers), old(d.volumes), d.containers,
                                      d.volumes, deed))
    ensures entered ==>
        && (exit.Crashed? <==> deed.course.tried.TimedOut? || deed.course.resumed.TimedOut?
                               || (deed.course.tried.Done? && !deed.course.last.Done?))
        && (exit.Reclaimed? <==> deed.course.tried.Done? && !deed.course.resumed.TimedOut? && deed.course.last.Done?)
        && !exit.Reported?
    ensures !entered ==>
        && d.containers == old(d.containers) && d.volumes == old(d.volumes)
        && Went(old(d.sent), d.sent, [Df, Ps, VolumeLs], asked)
        && (exit.Crashed? <==> asked.TimedOut?)
        && (exit.Reported? <==> asked.Done? && (minAge.Some? ==> minAge.value >= 0)) && !exit.Reclaimed?
    ensures exit.Reclaimed? ==>
      var left := PlanOf(d.containers, d.volumes, now, ResolveGate(minAge), reclaimable);
      left.containers == [] && left.volumes == []
  {
    entered := false;
    var gate := ResolveGate(minAge);
    ghost var cs, vs, before := d.containers, d.volumes, d.sent;
    deed := Deed(Course(Done, Done, Done, Done, []), [], [], {}, {});
    var plan;
    plan, exit, asked := Consider(d, now, gate, apply, images, reclaimable);
    if plan.None? {
      return;
    }
    entered := true;
    exit, deed := Act(d, plan.value, images, before);
    if exit.Reclaimed? {
      NothingLeft(cs, vs, deed.goneNames, deed.goneVolumes, d.containers, now, gate, reclaimable);
    }
  }
}
