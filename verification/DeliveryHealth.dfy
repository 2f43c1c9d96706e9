/** delivery_health.py: which workflows can deliver, and which of them are watched. */
module DeliveryHealth {
  import opened Values
  import opened Strings
  import opened CallGraph
  import opened Sequences

  const PUBLISHER := "ci-publish.yml"
  const PROMOTE := "deployment promote"
  const SELF := "delivery-health.yml"
  const ATTENDED_TRIGGERS := {"workflow_call", "pull_request", "pull_request_target"}

  /** A key of a parsed step: missing, not a string, or a string. */
  datatype Field = Absent | NotText | Text(s: string)

  datatype Step = Step(uses: Field, run: Field)

  datatype Entry = NotAStep | Entry(step: Step)

  datatype Job = NotAJob | Job(uses: Field, steps: seq<Entry>)

  datatype Workflow = Workflow(triggers: set<string>, jobs: seq<Job>)

  predicate Contains(hay: string, needle: string) {
    needle <= hay || (hay != "" && Contains(hay[1..], needle))
  }

  // ---- steps ----

  function EntrySteps(entries: seq<Entry>): seq<Step> {
    if entries == [] then []
    else (if entries[0].Entry? then [entries[0].step] else []) + EntrySteps(entries[1..])
  }

  function JobSteps(job: Job): seq<Step> {
    if job.NotAJob? then []
    else (if job.uses.Absent? then [] else [Step(job.uses, Absent)]) + EntrySteps(job.steps)
  }

  /** `_steps`: calls of reusable workflows, then the jobs' own steps, job by job. */
  function Steps(jobs: seq<Job>): seq<Step> {
    if jobs == [] then [] else JobSteps(jobs[0]) + Steps(jobs[1..])
  }

  predicate Publishes(step: Step) {
    step.uses.Text? && Contains(step.uses.s, PUBLISHER)
  }

  predicate Promotes(step: Step) {
    step.run.Text? && Contains(step.run.s, PROMOTE)
  }

  // ---- one key per referenced file ----

  function Meaningful(parts: seq<string>): (r: seq<string>) {
    if parts == [] then []
    else (if parts[0] == "" || parts[0] == "." then [] else [parts[0]]) + Meaningful(parts[1..])
  }

  /** `str(PurePosixPath(path))`. */
  function KeyOf(path: string): string {
    var root := if "//" <= path && !("///" <= path) then "//" else if "/" <= path then "/" else "";
    var parts := Meaningful(Split(path, '/'));
    if parts != [] then root + Join(parts, '/') else if root != "" then root else "."
  }

  function Normalise(uses: string): string { KeyOf(Split(uses, '@')[0]) }

  /** The key of a path that does not start at the root. */
  lemma RelativeKey(path: string)
    requires path == "" || path[0] != '/'
    ensures var parts := Meaningful(Split(path, '/')); KeyOf(path) == if parts == [] then "." else Join(parts, '/')
  {
  }

  lemma DotSlashParts(path: string)
    ensures Meaningful(Split("./" + path, '/')) == Meaningful(Split(path, '/'))
  {
    assert "." + ['/'] + path == "./" + path;
    SplitPiece(".", path, '/');
    var parts := Split("./" + path, '/');
    assert parts[0] == "." && parts[1..] == Split(path, '/');
  }

  lemma DotSlashHead(uses: string)
    ensures Split("./" + uses, '@')[0] == "./" + Split(uses, '@')[0]
  {
    assert ("./" + uses)[1..] == "/" + uses && ("/" + uses)[1..] == uses;
    assert Split("/" + uses, '@')[0] == ['/'] + Split(uses, '@')[0];
    assert Split("./" + uses, '@')[0] == ['.'] + (['/'] + Split(uses, '@')[0]);
  }

  /** The `./` that local references carry makes no other key. */
  lemma DotSlash(uses: string)
    requires uses == "" || uses[0] != '/'
    ensures Normalise("./" + uses) == Normalise(uses)
  {
    var path := Split(uses, '@')[0];
    DotSlashHead(uses);
    DotSlashParts(path);
    RelativeKey(path);
    RelativeKey("./" + path);
  }

  // ---- reaches_delivery ----

  /** What the search sees of a step. */
  function ActOf(step: Step): Act {
    Act(Publishes(step), Promotes(step), if step.uses.Text? then Some(step.uses.s) else None)
  }

  function Acts(steps: seq<Step>): seq<Act> {
    seq(|steps|, i requires 0 <= i < |steps| => ActOf(steps[i]))
  }

  /** Workflow files as the search reads them. */
  function Workflows(): View<Workflow> {
    View((w: Workflow) => Acts(Steps(w.jobs)), Normalise)
  }

  method ReachesDelivery(w: Workflow, resolve: Resolver<Workflow>) returns (r: bool)
    ensures r == Reaches(Workflows(), w, resolve, {})
  {
    r := Search(Workflows(), w, resolve, {});
  }

  // ---- trees the search misreads ----

  /** A workflow of one step. */
  function Single(uses: Field, run: Field): Workflow {
    Workflow({"push"}, [Job(Absent, [Entry(Step(uses, run))])])
  }

  lemma SingleActs(uses: Field, run: Field)
    ensures Workflows().acts(Single(uses, run)) == [ActOf(Step(uses, run))]
  {
    var entries := [Entry(Step(uses, run))];
    assert EntrySteps(entries) == [entries[0].step] + EntrySteps([]);
    assert Steps(Single(uses, run).jobs) == JobSteps(Job(Absent, entries)) + Steps([]);
  }

  lemma {:induction false} TooShort(hay: string, needle: string)
    requires |hay| < |needle|
    ensures !Contains(hay, needle)
  {
    if hay != "" {
      TooShort(hay[1..], needle);
    }
  }

  /** A step that calls a file on the path and promotes is passed over whole. */
  lemma {:induction false} PromotionMissed(uses: string, resolve: Resolver<Workflow>)
    requires |uses| < |PUBLISHER| && resolve == map[uses := Single(Text(uses), Text(PROMOTE))]
    ensures var w := Single(Text(uses), Absent);
            GraphReaches(Workflows(), w, resolve) && !Reaches(Workflows(), w, resolve, {})
  {
    SingleActs(Text(uses), Absent);
    SingleActs(Text(uses), Text(PROMOTE));
    TooShort(uses, PUBLISHER);
    SkippedPromotion(Workflows(), Single(Text(uses), Absent), Single(Text(uses), Text(PROMOTE)), resolve, uses);
  }

  /** Whatever follows the first `@` is not part of the key. */
  lemma SameKey(path: string, ref: string)
    requires '@' !in path
    ensures Normalise(path + ['@'] + ref) == Normalise(path)
  {
    SplitPiece(path, ref, '@');
  }

  /** References that differ after the `@` and resolve to two files: the second is never entered.  The command's own
      resolver tells such references apart only where the name of a file has an `@`. */
  lemma {:induction false} FileMissed(path: string, ref: string, resolve: Resolver<Workflow>)
    requires '@' !in path && |path + ['@'] + ref| < |PUBLISHER|
    requires resolve == map[path + ['@'] + ref := Single(Text(path), Absent), path := Single(Absent, Text(PROMOTE))]
    ensures var w := Single(Text(path + ['@'] + ref), Absent);
            GraphReaches(Workflows(), w, resolve) && !Reaches(Workflows(), w, resolve, {})
  {
    var tagged := path + ['@'] + ref;
    SingleActs(Text(tagged), Absent);
    SingleActs(Text(path), Absent);
    SingleActs(Absent, Text(PROMOTE));
    TooShort(tagged, PUBLISHER);
    TooShort(path, PUBLISHER);
    SameKey(path, ref);
    SkippedFile(Workflows(), Single(Text(tagged), Absent), Single(Text(path), Absent), Single(Absent, Text(PROMOTE)),
                resolve, tagged, path);
  }

  // ---- the watched set ----

  /** `is_unattended`: something triggers it, and no pull request gates it. */
  predicate IsUnattended(w: Workflow) {
    w.triggers != {} && w.triggers !! ATTENDED_TRIGGERS
  }

  /** A file of the workflow directory and what it loads to, if it loads to a non-empty mapping. */
  datatype Source = Source(name: string, loaded: Option<Workflow>)

  predicate Watches(source: Source, resolve: Resolver<Workflow>) {
    source.loaded.Some? && IsUnattended(source.loaded.value) && Reaches(Workflows(), source.loaded.value, resolve, {})
  }

  /** `watched`, before sorting: the watcher itself and exactly the unattended files the search finds to deliver. */
  method Watched(sources: seq<Source>, resolve: Resolver<Workflow>) returns (found: set<string>)
    ensures forall name ::
      name in found <==> name == "delivery-health.yml" || exists source | source in sources ::
          source.name == name && Watches(source, resolve)
  {
    found := {SELF};
    for i := 0 to |sources|
      invariant forall name :: name in found <==>
        name == SELF || exists source | source in sources[..i] :: source.name == name && Watches(source, resolve)
    {
      TakeNext(sources, i);
      if sources[i].loaded.Some? {
        var workflow := sources[i].loaded.value;
        var reaches := ReachesDelivery(workflow, resolve);
        if IsUnattended(workflow) && reaches {
          found := found + {sources[i].name};
        }
      }
    }
    TakeAll(sources);
  }

  /** Where a key names one file and no step does two things, what is watched is what can deliver. */
  lemma {:induction false} WatchesDelivery(source: Source, resolve: Resolver<Workflow>)
    requires Coherent(Workflows(), resolve) && forall u | u in resolve :: OneThingPerStep(Workflows(), resolve[u])
    requires source.loaded.Some? ==> OneThingPerStep(Workflows(), source.loaded.value)
    ensures Watches(source, resolve) <==>
            && source.loaded.Some? && IsUnattended(source.loaded.value)
            && GraphReaches(Workflows(), source.loaded.value, resolve)
  {
    if source.loaded.Some? {
      ReachesIsReachability(Workflows(), source.loaded.value, resolve);
    }
  }

  // ---- what is a step, and what delivers ----

  /** `needle` stands somewhere in `hay`. */
  ghost predicate Within(needle: string, hay: string) {
    exists before: string, after: string :: before + needle + after == hay
  }

  /** Containment is that of Python's `in`. */
  lemma {:induction false} ContainsIsWithin(hay: string, needle: string)
    ensures Contains(hay, needle) <==> Within(needle, hay)
  {
    if needle <= hay {
      assert "" + needle + hay[|needle|..] == hay;
    } else if hay != "" {
      ContainsIsWithin(hay[1..], needle);
      if before: string, after: string :| before + needle + after == hay[1..] {
        assert [hay[0]] + before + needle + after == hay;
      }
      if before: string, after: string :| before + needle + after == hay {
        assert before != "";
        assert before[1..] + needle + after == hay[1..];
      }
    }
  }

  /** The steps of a workflow are the entries of its jobs that are mappings, and each job that calls a file itself. */
  lemma {:induction false} StepsAre(jobs: seq<Job>, s: Step)
    ensures s in Steps(jobs) <==> exists j | j in jobs ::
        j.Job? && ((!j.uses.Absent? && s == Step(j.uses, Absent)) || Entry(s) in j.steps)
  {
    if jobs != [] {
      StepsAre(jobs[1..], s);
      assert jobs == [jobs[0]] + jobs[1..];
      if jobs[0].Job? {
        EntriesAre(jobs[0].steps, s);
      }
    }
  }

  lemma {:induction false} EntriesAre(entries: seq<Entry>, s: Step)
    ensures s in EntrySteps(entries) <==> Entry(s) in entries
  {
    if entries != [] {
      EntriesAre(entries[1..], s);
      assert entries == [entries[0]] + entries[1..];
    }
  }

  lemma StepActs(w: Workflow, s: Step)
    requires s in Steps(w.jobs)
    ensures ActOf(s) in Workflows().acts(w)
  {
    var i :| 0 <= i < |Steps(w.jobs)| && Steps(w.jobs)[i] == s;
    assert Acts(Steps(w.jobs))[i] == ActOf(s);
  }

  ghost predicate TextWith(f: Field, needle: string) {
    f.Text? && Within(needle, f.s)
  }

  /** A job that calls the publishing workflow, or a step that does, delivers. */
  lemma {:induction false} PublisherDelivers(w: Workflow, resolve: Resolver<Workflow>, j: Job)
    requires j in w.jobs && j.Job?
    requires TextWith(j.uses, "ci-publish.yml") || exists s :: Entry(s) in j.steps && TextWith(s.uses, "ci-publish.yml")
    ensures Reaches(Workflows(), w, resolve, {})
  {
    if TextWith(j.uses, "ci-publish.yml") {
      Published(w, resolve, Step(j.uses, Absent));
    } else {
      var s :| Entry(s) in j.steps && TextWith(s.uses, "ci-publish.yml");
      Published(w, resolve, s);
    }
  }

  lemma Published(w: Workflow, resolve: Resolver<Workflow>, s: Step)
    requires TextWith(s.uses, "ci-publish.yml")
    requires exists j | j in w.jobs ::
        j.Job? && ((!j.uses.Absent? && s == Step(j.uses, Absent)) || Entry(s) in j.steps)
    ensures Reaches(Workflows(), w, resolve, {})
  {
    StepsAre(w.jobs, s);
    StepActs(w, s);
    ContainsIsWithin(s.uses.s, "ci-publish.yml");
    assert Publishes(s);
    ActDelivers(w, resolve, ActOf(s));
  }

  lemma ActDelivers(w: Workflow, resolve: Resolver<Workflow>, act: Act)
    requires act in Workflows().acts(w) && ActReaches(Workflows(), act, resolve, {})
    ensures Reaches(Workflows(), w, resolve, {})
  {
  }

  /** So does a step that promotes, unless it calls a file by text. */
  lemma {:induction false} PromotionDelivers(w: Workflow, resolve: Resolver<Workflow>, j: Job, s: Step)
    requires j in w.jobs && j.Job? && Entry(s) in j.steps && !s.uses.Text?
    requires TextWith(s.run, "deployment promote")
    ensures Reaches(Workflows(), w, resolve, {})
  {
    StepsAre(w.jobs, s);
    StepActs(w, s);
    ContainsIsWithin(s.run.s, "deployment promote");
    assert Promotes(s);
    ActDelivers(w, resolve, ActOf(s));
  }

  /** A job or a step that calls a file which delivers, resolved from the path of none seen, delivers. */
  lemma {:induction false} CallDelivers(w: Workflow, resolve: Resolver<Workflow>, j: Job, uses: string)
    requires j in w.jobs && j.Job? && (j.uses == Text(uses) || exists s :: Entry(s) in j.steps && s.uses == Text(uses))
    requires uses in resolve && Reaches(Workflows(), resolve[uses], resolve, {Normalise(uses)})
    ensures Reaches(Workflows(), w, resolve, {})
  {
    var s :| (s == Step(Text(uses), Absent) && j.uses == Text(uses)) || (Entry(s) in j.steps && s.uses == Text(uses));
    StepsAre(w.jobs, s);
    StepActs(w, s);
    assert {} + {Normalise(uses)} == {Normalise(uses)};
    assert CallReaches(Workflows(), uses, resolve, {});
    ActDelivers(w, resolve, ActOf(s));
  }

  /** Where nothing of these kinds is found, nothing delivers. */
  lemma {:induction false} NothingDelivers(w: Workflow, resolve: Resolver<Workflow>)
    requires forall j, s | j in w.jobs && j.Job? && Entry(s) in j.steps ::
        !TextWith(s.run, "deployment promote") && !TextWith(s.uses, "ci-publish.yml")
        && (s.uses.Text? ==> s.uses.s !in resolve)
    requires forall j | j in w.jobs && j.Job? ::
        !TextWith(j.uses, "ci-publish.yml") && (j.uses.Text? ==> j.uses.s !in resolve)
    ensures !Reaches(Workflows(), w, resolve, {})
  {
    forall act | act in Workflows().acts(w) ensures !ActReaches(Workflows(), act, resolve, {}) {
      var i :| 0 <= i < |Steps(w.jobs)| && act == ActOf(Steps(w.jobs)[i]);
      StepsAre(w.jobs, Steps(w.jobs)[i]);
      StepIsSilent(resolve, Steps(w.jobs)[i]);
    }
  }

  lemma StepIsSilent(resolve: Resolver<Workflow>, s: Step)
    requires !TextWith(s.run, "deployment promote") && !TextWith(s.uses, "ci-publish.yml")
    requires s.uses.Text? ==> s.uses.s !in resolve
    ensures !ActReaches(Workflows(), ActOf(s), resolve, {})
  {
    if s.uses.Text? {
      ContainsIsWithin(s.uses.s, "ci-publish.yml");
    }
    if s.run.Text? {
      ContainsIsWithin(s.run.s, "deployment promote");
    }
  }

  /** Unattended: some trigger, and none through which a person or a caller waits. */
  lemma UnattendedIs(w: Workflow)
    ensures IsUnattended(w) <==>
            && (exists t :: t in w.triggers) && "workflow_call" !in w.triggers
            && "pull_request" !in w.triggers && "pull_request_target" !in w.triggers
  {
  }

  /** A path without empty or dot parts is its own key. */
  lemma CleanKey(path: string)
    requires path != "" && "" !in Split(path, '/') && "." !in Split(path, '/')
    ensures KeyOf(path) == path
  {
    AllMeaningful(Split(path, '/'));
    JoinSplit(path, '/');
    if path[0] == '/' {
      NoRoot(path);
    }
    RelativeKey(path);
  }

  /** A path with one leading slash keeps it, with two keeps both, and with three keeps one. */
  lemma RootKey(path: string)
    requires path != "" && "" !in Split(path, '/') && "." !in Split(path, '/')
    ensures KeyOf("/" + path) == "/" + path
    ensures KeyOf("//" + path) == "//" + path
    ensures KeyOf("///" + path) == "/" + path
  {
    AllMeaningful(Split(path, '/'));
    JoinSplit(path, '/');
    if path[0] == '/' {
      NoRoot(path);
    }
    SlashedParts(path);
    OneSlash(path);
    TwoSlashes(path);
    ThreeSlashes("///" + path);
  }

  /** The root itself, and the empty path. */
  lemma RootAlone()
    ensures KeyOf("/") == "/" && KeyOf("//") == "//" && KeyOf("///") == "/" && KeyOf("") == "."
  {
    assert Split("", '/') == [""] && Meaningful([""]) == [];
    SlashedParts("");
    assert "/" + "" == "/" && "//" + "" == "//" && "///" + "" == "///";
  }

  lemma OneSlash(path: string)
    requires path != "" && path[0] != '/'
    ensures var parts := Meaningful(Split("/" + path, '/'));
            KeyOf("/" + path) == "/" + (if parts == [] then "" else Join(parts, '/'))
  {
    assert ("/" + path)[1] == path[0];
  }

  lemma TwoSlashes(path: string)
    requires path != "" && path[0] != '/'
    ensures var parts := Meaningful(Split("//" + path, '/'));
            KeyOf("//" + path) == "//" + (if parts == [] then "" else Join(parts, '/'))
  {
    assert ("//" + path)[2] == path[0];
  }

  lemma ThreeSlashes(path: string)
    requires "///" <= path
    ensures var parts := Meaningful(Split(path, '/'));
            KeyOf(path) == "/" + (if parts == [] then "" else Join(parts, '/'))
  {
    assert path[0] == '/';
  }

  lemma SlashedParts(path: string)
    ensures Meaningful(Split("/" + path, '/')) == Meaningful(Split(path, '/'))
    ensures Meaningful(Split("//" + path, '/')) == Meaningful(Split(path, '/'))
    ensures Meaningful(Split("///" + path, '/')) == Meaningful(Split(path, '/'))
  {
    assert "" + ['/'] + path == "/" + path && "" + ['/'] + ("/" + path) == "//" + path
        && "" + ['/'] + ("//" + path) == "///" + path;
    SplitPiece("", path, '/');
    SplitPiece("", "/" + path, '/');
    SplitPiece("", "//" + path, '/');
    EmptyFirst(Split(path, '/'));
    EmptyFirst(Split("/" + path, '/'));
    EmptyFirst(Split("//" + path, '/'));
  }

  lemma EmptyFirst(parts: seq<string>)
    ensures Meaningful([""] + parts) == Meaningful(parts)
  {
    assert ([""] + parts)[1..] == parts;
  }

  lemma NoRoot(path: string)
    requires path != "" && path[0] == '/'
    ensures "" in Split(path, '/')
  {
    assert Split(path, '/')[0] == "";
  }

  lemma {:induction false} AllMeaningful(parts: seq<string>)
    requires "" !in parts && "." !in parts
    ensures Meaningful(parts) == parts
  {
    if parts != [] {
      assert parts == [parts[0]] + parts[1..];
      AllMeaningful(parts[1..]);
    }
  }
}
