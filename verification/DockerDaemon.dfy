/** docker_reclaim.py: what `remove` and `set_runners` do to a daemon, over a link that may fail at any command. */
module DockerDaemon {
  import opened DockerReclaim
  import opened Keyed
  import opened Ordering
  import opened Selection
  import opened Sequences

  /** How one remote command ended.  `Refused` and `Unreachable` are both DockerUnavailableError: the command
      exited non-zero; `TimedOut` is the local timeout; `Unsafe` a name no command is built around. */
  datatype Outcome = Done | Refused | Unreachable | TimedOut | Unsafe

  /** Names are a letter or digit, then letters, digits, `_`, `.` and `-`; `$` also matches before a final newline. */
  predicate Checked(name: string) {
    Plain(name) || (name != "" && name[|name| - 1] == '\n' && Plain(name[..|name| - 1]))
  }

  predicate Plain(name: string) {
    name != "" && Alphanumeric(name[0]) && forall c | c in name[1..] :: Alphanumeric(c) || c in "_.-"
  }

  /** Nothing a shell would take apart is let through. */
  lemma CheckedIsTame(name: string, c: char)
    requires Checked(name) && c in name
    ensures 'a' <= c <= 'z' || 'A' <= c <= 'Z' || '0' <= c <= '9' || c == '_' || c == '.' || c == '-' || c == '\n'
    ensures c == '\n' ==> name[|name| - 1] == c
    ensures name[0] != '-' && name[0] != '.' && name[0] != '_'
  {
    var body := if Plain(name) then name else name[..|name| - 1];
    assert body == [body[0]] + body[1..];
    assert name == body || name == body + [name[|name| - 1]];
  }

  /** Every name of that shape passes, with a newline at its end or without. */
  lemma TameIsChecked(first: char, rest: string)
    requires 'a' <= first <= 'z' || 'A' <= first <= 'Z' || '0' <= first <= '9'
    requires forall c | c in rest ::
        'a' <= c <= 'z' || 'A' <= c <= 'Z' || '0' <= c <= '9' || c == '_' || c == '.' || c == '-'
    ensures Checked([first] + rest) && Checked([first] + rest + "\n")
  {
    var name := [first] + rest;
    assert name[1..] == rest && (name + "\n")[..|name|] == name;
  }

  predicate Alphanumeric(c: char) {
    'a' <= c <= 'z' || 'A' <= c <= 'Z' || '0' <= c <= '9'
  }

  predicate Present(cs: seq<Container>, name: string) {
    exists c | c in cs :: c.name == name
  }

  predicate Attached(cs: seq<Container>, v: string) {
    exists c | c in cs :: v in c.volumes
  }

  function Switched(cs: seq<Container>, name: string, running: bool): (r: seq<Container>) {
    if cs == [] then []
    else [if cs[0].name == name then cs[0].(running := running) else cs[0]] + Switched(cs[1..], name, running)
  }

  // ---- what is sent ----

  datatype Command = Rm(name: string) | VolumeRm(name: string) | Switch(name: string, running: bool)
                   | Df | Ps | VolumeLs | Prune

  /** One remote command: how it ended, and whether it was carried out. */
  datatype Event = Event(command: Command, outcome: Outcome, carriedOut: bool)

  /** The name a command is built around passes the check. */
  predicate Safe(command: Command) {
    match command
    case Rm(name) => Checked(name)
    case VolumeRm(name) => Checked(name)
    case _ => true
  }

  /** From `before` to `after` the commands were sent in order, each around a name that passes the check, up to the
      first that did not end well, which gave the outcome, or up to one with a name no command is built around. */
  ghost predicate Went(before: seq<Event>, after: seq<Event>, commands: seq<Command>, outcome: Outcome) {
    && before <= after
    && var sent := after[|before|..];
       && |sent| <= |commands|
       && (forall i | 0 <= i < |sent| :: sent[i].command == commands[i] && Safe(commands[i]))
       && (forall i | 0 <= i < |sent| - 1 :: sent[i].outcome.Done?)
       && if outcome.Done? then |sent| == |commands| && (sent != [] ==> sent[|sent| - 1].outcome.Done?)
          else if outcome.Unsafe? then
            |sent| < |commands| && (sent != [] ==> sent[|sent| - 1].outcome.Done?) && !Safe(commands[|sent|])
          else sent != [] && sent[|sent| - 1].outcome == outcome
  }

  lemma WentOn(a: seq<Event>, b: seq<Event>, c: seq<Event>, first: seq<Command>, second: seq<Command>, outcome: Outcome)
    requires Went(a, b, first, Done) && Went(b, c, second, outcome)
    ensures Went(a, c, first + second, outcome)
  {
    var x, y := b[|a|..], c[|b|..];
    var sent: seq<Event> := x + y;
    assert c[|a|..] == sent;
    forall i | 0 <= i < |sent|
      ensures sent[i].command == (first + second)[i] && Safe((first + second)[i])
      ensures i < |sent| - 1 ==> sent[i].outcome.Done?
    {
      assert if i < |x| then sent[i] == x[i] else sent[i] == y[i - |x|];
    }
  }

  lemma WentNoFurther(a: seq<Event>, b: seq<Event>, first: seq<Command>, second: seq<Command>, outcome: Outcome)
    requires Went(a, b, first, outcome) && !outcome.Done?
    ensures Went(a, b, first + second, outcome)
  {
  }

  function RmAll(cs: seq<Container>): seq<Command> {
    seq(|cs|, i requires 0 <= i < |cs| => Rm(cs[i].name))
  }

  function VolumeRmAll(vs: seq<string>): seq<Command> {
    seq(|vs|, i requires 0 <= i < |vs| => VolumeRm(vs[i]))
  }

  class Daemon {
    var containers: seq<Container>
    var volumes: seq<string>
    ghost var sent: seq<Event>

    /** A command that changes nothing here: `df`, `docker ps`, `docker image prune`. */
    method Ask(command: Command) returns (outcome: Outcome)
      modifies this`sent
      ensures sent == old(sent) + [Event(command, outcome, false)] && !outcome.Unsafe?
    {
      outcome := *;
      if outcome.Unsafe? {
        outcome := Done;
      }
      sent := sent + [Event(command, outcome, false)];
    }

    /** `docker rm -f`.  A command whose answer is lost may have been carried out. */
    method RemoveContainer(name: string) returns (outcome: Outcome)
      modifies this
      ensures volumes == old(volumes)
      ensures containers == old(containers) || containers == Without(old(containers), {name})
      ensures outcome.Done? ==> containers == Without(old(containers), {name})
      ensures outcome.Refused? ==> !Present(old(containers), name)
      ensures !outcome.Unsafe?
      ensures |sent| == |old(sent)| + 1 && sent[..|old(sent)|] == old(sent)
      ensures sent[|old(sent)|].command == Rm(name) && sent[|old(sent)|].outcome == outcome
    {
      outcome := *;
      if outcome.Unsafe? || (outcome.Refused? && Present(containers, name)) {
        outcome := Done;
      }
      var carriedOut: bool := *;
      if outcome.Done? || (carriedOut && !outcome.Refused?) {
        containers := Without(containers, {name});
      }
      sent := sent + [Event(Rm(name), outcome, carriedOut)];
    }

    /** `docker volume rm`: refused while any container is attached, and for a volume that is not there. */
    method RemoveVolume(v: string) returns (outcome: Outcome)
      modifies this
      ensures containers == old(containers)
      ensures volumes == old(volumes) || volumes == Minus(old(volumes), {v})
      ensures Attached(containers, v) ==> volumes == old(volumes) && !outcome.Done?
      ensures outcome.Done? ==> volumes == Minus(old(volumes), {v})
      ensures outcome.Refused? ==> Attached(containers, v) || v !in old(volumes)
      ensures !outcome.Unsafe?
      ensures |sent| == |old(sent)| + 1 && sent[..|old(sent)|] == old(sent)
      ensures sent[|old(sent)|].command == VolumeRm(v) && sent[|old(sent)|].outcome == outcome
    {
      outcome := *;
      if Attached(containers, v) || v !in volumes {
        if outcome.Done? || outcome.Unsafe? {
          outcome := Refused;
        }
        sent := sent + [Event(VolumeRm(v), outcome, false)];
        return;
      }
      if outcome.Refused? || outcome.Unsafe? {
        outcome := Done;
      }
      var carriedOut: bool := *;
      if outcome.Done? || carriedOut {
        volumes := Minus(volumes, {v});
      }
      sent := sent + [Event(VolumeRm(v), outcome, carriedOut)];
    }

    /** `docker inspect NAME && docker VERB NAME || echo ABSENT`.  A container the daemon refuses to stop or
        start answers exactly as one that is not there; a command whose answer is lost may have been carried out. */
    method SetRunning(name: string, running: bool) returns (outcome: Outcome, acted: bool, ghost carriedOut: bool)
      modifies this
      ensures volumes == old(volumes)
      ensures containers == if carriedOut then Switched(old(containers), name, running) else old(containers)
      ensures outcome.Done? || outcome.Unreachable? || outcome.TimedOut?
      ensures acted <==> outcome.Done? && carriedOut && Present(old(containers), name)
      ensures sent == old(sent) + [Event(Switch(name, running), outcome, carriedOut)]
    {
      outcome := *;
      if !outcome.Unreachable? && !outcome.TimedOut? {
        outcome := Done;
      }
      var done: bool := *;
      carriedOut := done;
      acted := outcome.Done? && done && Present(containers, name);
      if done {
        containers := Switched(containers, name, running);
      }
      sent := sent + [Event(Switch(name, running), outcome, carriedOut)];
    }
  }

  // ---- remove ----

  function NamesOf(cs: seq<Container>): set<string> {
    set c | c in cs :: c.name
  }

  /** What makes a plan safe to carry out on a daemon: nothing twice, and every holder of a planned volume planned. */
  ghost predicate Fits(p: Plan, cs: seq<Container>, vs: seq<string>) {
    && UniqueNames(p.containers) && NamesOf(p.containers) <= NamesOf(cs)
    && DistinctBy(Itself, p.volumes)
    && (forall v | v in p.volumes :: v in vs && Holders(cs, v) <= NamesOf(p.containers))
  }

  /** Some of a plan carried out: no volume before the last container. */
  ghost predicate PartlyDone(p: Plan, goneNames: set<string>, goneVolumes: set<string>) {
    && goneNames <= NamesOf(p.containers)
    && (forall v | v in goneVolumes :: v in p.volumes)
    && (goneVolumes != {} ==> goneNames == NamesOf(p.containers))
  }

  lemma WithoutTwice(cs: seq<Container>, a: set<string>, b: set<string>)
    ensures Without(Without(cs, a), b) == Without(cs, a + b)
  {
    SelectTwice(cs, NamedNot(a), NamedNot(b), NamedNot(a + b));
  }

  lemma MinusTwice(vs: seq<string>, a: set<string>, b: set<string>)
    ensures Minus(Minus(vs, a), b) == Minus(vs, a + b)
  {
    SelectTwice(vs, NotIn(a), NotIn(b), NotIn(a + b));
  }

  lemma PlannedVolumesFit(cs: seq<Container>, vs: seq<string>, now: int, gate: int, reclaimable: string -> bool,
        v: string)
    requires v in PlanOf(cs, vs, now, gate, reclaimable).volumes
    ensures v in vs && Holders(cs, v) <= DoomedNames(cs, now, gate)
  {
    PlanMembers(cs, vs, now, gate, reclaimable);
    forall n | n in Holders(cs, v) ensures n in DoomedNames(cs, now, gate) {
      assert n !in Survivors(cs, v, now, gate);
    }
  }

  /** The plan made from what a daemon lists can be carried out on it. */
  lemma PlanFits(cs: seq<Container>, vs: seq<string>, now: int, gate: int, reclaimable: string -> bool)
    requires UniqueNames(cs) && DistinctBy(Itself, vs)
    ensures NamesOf(PlanOf(cs, vs, now, gate, reclaimable).containers) == DoomedNames(cs, now, gate)
    ensures Fits(PlanOf(cs, vs, now, gate, reclaimable), cs, vs)
  {
    var p := PlanOf(cs, vs, now, gate, reclaimable);
    assert DistinctBy(NameOf, p.containers) by {
      SortDistinct(NameOf, cs);
      SelectDistinct(NameOf, Sort(NameOf, cs), Dooms(now, gate));
    }
    assert DistinctBy(Itself, p.volumes) by {
      SortDistinct(Itself, vs);
      SelectDistinct(Itself, Sort(Itself, vs), Frees(cs, now, gate, reclaimable));
    }
    DoomedAreNamed(cs, p.containers, now, gate);
    forall v | v in p.volumes ensures v in vs && Holders(cs, v) <= NamesOf(p.containers) {
      PlannedVolumesFit(cs, vs, now, gate, reclaimable, v);
    }
  }

  lemma StillPresent(p: Plan, cs: seq<Container>, i: nat)
    requires UniqueNames(p.containers) && NamesOf(p.containers) <= NamesOf(cs) && i < |p.containers|
    ensures Present(Without(cs, NamesOf(p.containers[..i])), p.containers[i].name)
  {
    DistinctPairs(NameOf, p.containers);
    assert p.containers[i] in p.containers && p.containers[i].name in NamesOf(p.containers);
    forall k | 0 <= k < i ensures p.containers[k].name != p.containers[i].name {
      assert NameOf(p.containers[k]) != NameOf(p.containers[i]);
    }
    var c :| c in cs && c.name == p.containers[i].name;
    SelectMembers(cs, NamedNot(NamesOf(p.containers[..i])));
    assert c in Without(cs, NamesOf(p.containers[..i]));
  }

  /** One turn of the loop: the next container goes, or the loop ends there. */
  method RemoveNext(d: Daemon, p: Plan, i: nat, ghost cs: seq<Container>)
    returns (outcome: Outcome, ghost gone: set<string>)
    requires UniqueNames(p.containers) && NamesOf(p.containers) <= NamesOf(cs) && i < |p.containers|
    requires d.containers == Without(cs, NamesOf(p.containers[..i]))
    modifies d
    ensures d.containers == Without(cs, gone) && d.volumes == old(d.volumes)
    ensures gone == NamesOf(p.containers[..i]) || gone == NamesOf(p.containers[..i + 1])
    ensures outcome.Done? ==> gone == NamesOf(p.containers[..i + 1])
    ensures !outcome.Refused? && (outcome.Unsafe? ==> !Checked(p.containers[i].name))
    ensures Went(old(d.sent), d.sent, [Rm(p.containers[i].name)], outcome)
  {
    var name := p.containers[i].name;
    gone := NamesOf(p.containers[..i]);
    if !Checked(name) {
      return Unsafe, gone;
    }
    StillPresent(p, cs, i);
    TakeNext(p.containers, i);
    WithoutTwice(cs, gone, {name});
    assert NamesOf(p.containers[..i + 1]) == gone + {name};
    outcome := d.RemoveContainer(name);
    if outcome.Done? || d.containers == Without(cs, gone + {name}) {
      gone := gone + {name};
    }
  }

  method RemoveContainers(d: Daemon, p: Plan) returns (outcome: Outcome, ghost gone: set<string>)
    requires Fits(p, d.containers, d.volumes)
    modifies d
    ensures d.containers == Without(old(d.containers), gone) && d.volumes == old(d.volumes)
    ensures gone <= NamesOf(p.containers) && (outcome.Done? ==> gone == NamesOf(p.containers))
    ensures !outcome.Refused? && (outcome.Unsafe? ==> exists c | c in p.containers :: !Checked(c.name))
    ensures Went(old(d.sent), d.sent, RmAll(p.containers), outcome)
  {
    gone := {};
    SelectAll(d.containers, NamedNot(gone));
    for i := 0 to |p.containers|
      invariant d.containers == Without(old(d.containers), gone) && d.volumes == old(d.volumes)
      invariant gone == NamesOf(p.containers[..i])
      invariant Went(old(d.sent), d.sent, RmAll(p.containers[..i]), Done)
    {
      ghost var before := d.sent;
      outcome, gone := RemoveNext(d, p, i, old(d.containers));
      TakeNext(p.containers, i);
      RmAllFrom(p.containers, i);
      WentOn(old(d.sent), before, d.sent, RmAll(p.containers[..i]), [Rm(p.containers[i].name)], outcome);
      if !outcome.Done? {
        WentNoFurther(old(d.sent), d.sent, RmAll(p.containers[..i + 1]), RmAll(p.containers[i + 1..]), outcome);
        return;
      }
    }
    TakeAll(p.containers);
    outcome := Done;
  }

  lemma RmAllFrom(cs: seq<Container>, i: nat)
    requires i < |cs|
    ensures RmAll(cs[..i]) + [Rm(cs[i].name)] == RmAll(cs[..i + 1])
    ensures RmAll(cs[..i + 1]) + RmAll(cs[i + 1..]) == RmAll(cs)
  {
  }

  lemma VolumeRmAllFrom(vs: seq<string>, i: nat)
    requires i < |vs|
    ensures VolumeRmAll(vs[..i]) + [VolumeRm(vs[i])] == VolumeRmAll(vs[..i + 1])
    ensures VolumeRmAll(vs[..i + 1]) + VolumeRmAll(vs[i + 1..]) == VolumeRmAll(vs)
  {
  }

  ghost function VolumesOf(vs: seq<string>): set<string> {
    set v | v in vs
  }

  /** One turn of the loop over volumes. */
  method RemoveVolumeNext(d: Daemon, p: Plan, i: nat, ghost vs: seq<string>)
    returns (outcome: Outcome, ghost gone: set<string>)
    requires DistinctBy(Itself, p.volumes) && i < |p.volumes|
    requires p.volumes[i] in vs && !Attached(d.containers, p.volumes[i])
    requires d.volumes == Minus(vs, VolumesOf(p.volumes[..i]))
    modifies d
    ensures d.volumes == Minus(vs, gone) && d.containers == old(d.containers)
    ensures gone == VolumesOf(p.volumes[..i]) || gone == VolumesOf(p.volumes[..i + 1])
    ensures outcome.Done? ==> gone == VolumesOf(p.volumes[..i + 1])
    ensures !outcome.Refused? && (outcome.Unsafe? ==> !Checked(p.volumes[i]))
    ensures Went(old(d.sent), d.sent, [VolumeRm(p.volumes[i])], outcome)
  {
    var v := p.volumes[i];
    gone := VolumesOf(p.volumes[..i]);
    if !Checked(v) {
      return Unsafe, gone;
    }
    VolumeStillThere(p, vs, i);
    TakeNext(p.volumes, i);
    MinusTwice(vs, gone, {v});
    assert VolumesOf(p.volumes[..i + 1]) == gone + {v};
    outcome := d.RemoveVolume(v);
    if outcome.Done? || d.volumes == Minus(vs, gone + {v}) {
      gone := gone + {v};
    }
  }

  lemma VolumeStillThere(p: Plan, vs: seq<string>, i: nat)
    requires DistinctBy(Itself, p.volumes) && i < |p.volumes| && p.volumes[i] in vs
    ensures p.volumes[i] in Minus(vs, VolumesOf(p.volumes[..i]))
  {
    DistinctPairs(Itself, p.volumes);
    forall k | 0 <= k < i ensures p.volumes[k] != p.volumes[i] {
      assert Itself(p.volumes[k]) != Itself(p.volumes[i]);
    }
    SelectMembers(vs, NotIn(VolumesOf(p.volumes[..i])));
  }

  method RemoveVolumes(d: Daemon, p: Plan) returns (outcome: Outcome, ghost gone: set<string>)
    requires DistinctBy(Itself, p.volumes)
    requires forall v | v in p.volumes :: v in d.volumes && !Attached(d.containers, v)
    modifies d
    ensures d.volumes == Minus(old(d.volumes), gone) && d.containers == old(d.containers)
    ensures gone <= VolumesOf(p.volumes) && (outcome.Done? ==> gone == VolumesOf(p.volumes))
    ensures !outcome.Refused? && (outcome.Unsafe? ==> exists v | v in p.volumes :: !Checked(v))
    ensures Went(old(d.sent), d.sent, VolumeRmAll(p.volumes), outcome)
  {
    gone := {};
    SelectAll(d.volumes, NotIn(gone));
    for i := 0 to |p.volumes|
      invariant d.volumes == Minus(old(d.volumes), gone) && d.containers == old(d.containers)
      invariant gone == VolumesOf(p.volumes[..i])
      invariant Went(old(d.sent), d.sent, VolumeRmAll(p.volumes[..i]), Done)
    {
      ghost var before := d.sent;
      assert p.volumes[i] in p.volumes;
      outcome, gone := RemoveVolumeNext(d, p, i, old(d.volumes));
      TakeNext(p.volumes, i);
      VolumeRmAllFrom(p.volumes, i);
      WentOn(old(d.sent), before, d.sent, VolumeRmAll(p.volumes[..i]), [VolumeRm(p.volumes[i])], outcome);
      if !outcome.Done? {
        WentNoFurther(old(d.sent), d.sent, VolumeRmAll(p.volumes[..i + 1]), VolumeRmAll(p.volumes[i + 1..]), outcome);
        return;
      }
    }
    TakeAll(p.volumes);
    outcome := Done;
  }

  /** `remove`: containers, then volumes.  The daemon never refuses, whatever the link does. */
  method Remove(d: Daemon, p: Plan)
    returns (outcome: Outcome, ghost goneNames: set<string>, ghost goneVolumes: set<string>)
    requires Fits(p, d.containers, d.volumes)
    modifies d
    ensures PartlyDone(p, goneNames, goneVolumes)
    ensures d.containers == Without(old(d.containers), goneNames) && d.volumes == Minus(old(d.volumes), goneVolumes)
    ensures outcome.Done? ==> goneNames == NamesOf(p.containers) && goneVolumes == set v | v in p.volumes
    ensures !outcome.Refused?
    ensures outcome.Unsafe? ==>
        (exists c | c in p.containers :: !Checked(c.name)) || (exists v | v in p.volumes :: !Checked(v))
    ensures Went(old(d.sent), d.sent, RmAll(p.containers) + VolumeRmAll(p.volumes), outcome)
  {
    goneVolumes := {};
    SelectAll(d.volumes, NotIn({}));
    outcome, goneNames := RemoveContainers(d, p);
    ghost var events := d.sent;
    if !outcome.Done? {
      WentNoFurther(old(d.sent), events, RmAll(p.containers), VolumeRmAll(p.volumes), outcome);
      return;
    }
    forall v | v in p.volumes ensures !Attached(d.containers, v) {
      Detached(p, old(d.containers), v);
    }
    outcome, goneVolumes := RemoveVolumes(d, p);
    WentOn(old(d.sent), events, d.sent, RmAll(p.containers), VolumeRmAll(p.volumes), outcome);
  }

  lemma Detached(p: Plan, cs: seq<Container>, v: string)
    requires Holders(cs, v) <= NamesOf(p.containers)
    ensures !Attached(Without(cs, NamesOf(p.containers)), v)
  {
    SelectMembers(cs, NamedNot(NamesOf(p.containers)));
    forall c | c in cs && v in c.volumes ensures c.name in NamesOf(p.containers) {
      assert c.name in Holders(cs, v);
    }
  }

  /** Wherever it stopped, what is left of the daemon has every volume it had. */
  lemma SurvivorsKeepVolumes(p: Plan, cs: seq<Container>, vs: seq<string>, goneNames: set<string>,
        goneVolumes: set<string>)
    requires Fits(p, cs, vs) && PartlyDone(p, goneNames, goneVolumes)
    ensures forall c, v | c in Without(cs, goneNames) && v in c.volumes && v in vs :: v in Minus(vs, goneVolumes)
  {
    SelectMembers(cs, NamedNot(goneNames));
    SelectMembers(vs, NotIn(goneVolumes));
    forall c, v | c in Without(cs, goneNames) && v in c.volumes && v in vs ensures v !in goneVolumes {
      assert c.name in Holders(cs, v);
    }
  }
}
