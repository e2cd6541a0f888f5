/**
 What every history of the install directory keeps: installs (pending or not),
 commits, rollbacks and recoveries in any order, with a crash after any step.
 */
module InstallerSafety {
  import opened Prelude
  import opened Releases
  import opened InstallDir

  /******* The invariant *******/

  /** The tree an unjudged update has to leave live: the last one kept. */
  function Good(s: State): Package
    requires s.kept != []
  {
    s.kept[|s.kept| - 1]
  }

  predicate HoldsGood(s: State, name: string)
    requires s.kept != []
  {
    name in s.dir.releases && s.dir.releases[name] == Whole(Good(s)) && ReleaseName(name)
  }

  /** A staged release: whole, under a release name, and newer than what is kept. */
  predicate Candidate(s: State, name: string)
    requires s.kept != []
  {
    Holds(s.dir, name) && ReleaseName(name) && Newer(s.dir.releases[name].tree.version, Good(s).version)
  }

  /** `agent` and the journal, in every state. */
  predicate DirInv(s: State)
    requires s.kept != []
  {
    match s.dir.journal
    case None =>
      || s.dir.live == Plain(Good(s))
      || (s.dir.live.Link? && HoldsGood(s, s.dir.live.name))
    case Some(j) =>
      match j.taken
      case None =>
        || (s.dir.live == Plain(Good(s)) && ReleaseName(j.previous))
        || ((s.dir.live == Missing || s.dir.live == Link(j.previous)) && HoldsGood(s, j.previous))
      case Some(incoming) =>
        && HoldsGood(s, j.previous) && Candidate(s, incoming) && incoming != j.previous
        && (s.dir.live == Link(j.previous) || s.dir.live == Link(incoming))
  }

  predicate SwapInv(s: State, incoming: string, previous: string) {
    s.dir.journal == Some(Journal(previous, Some(incoming)))
  }

  /** What the updater's position adds. */
  predicate ProcInv(s: State)
    requires s.kept != []
  {
    var d := s.dir;
    match s.proc
    case Idle => true
    case RecoverClearing => d.live.Plain? && d.journal.Some?
    case RecoverPruning(keep) =>
      && d.journal.Some? && d.live == Link(d.journal.value.previous)
      && keep == Named(d.journal.value)
    case Staging(dir, signed) =>
      && d.journal.None? && Newer(signed.version, Good(s).version) && !Holds(d, dir)
    case Staged(incoming) => d.journal.None? && Candidate(s, incoming) && d.live != Link(incoming)
    case AdoptMade(incoming, legacy) =>
      && d.journal.None? && d.live.Plain? && Candidate(s, incoming) && ReleaseName(legacy)
      && legacy in d.releases && d.releases[legacy] == Bare
    case AdoptJournaled(incoming, legacy) =>
      && d.journal == Some(Journal(legacy, None)) && d.live.Plain? && Candidate(s, incoming)
      && legacy in d.releases && d.releases[legacy] == Bare
    case AdoptMoved(incoming, legacy) =>
      && d.journal == Some(Journal(legacy, None)) && d.live.Missing? && Candidate(s, incoming) && incoming != legacy
    case AdoptLinked(incoming, legacy) =>
      && d.journal == Some(Journal(legacy, None)) && d.live == Link(legacy) && Candidate(s, incoming)
      && incoming != legacy
    case DroppingFresh(incoming) =>
      && d.live != Link(incoming) && (d.journal.Some? ==> incoming !in Named(d.journal.value))
    case Adopted(incoming, previous) =>
      && d.journal.None? && d.live == Link(previous) && Candidate(s, incoming) && incoming != previous
    case Journaled(incoming, previous) => SwapInv(s, incoming, previous) && d.live == Link(previous)
    case Swapped(incoming, previous) => SwapInv(s, incoming, previous) && d.live == Link(incoming)
    case Passed(incoming, previous) => SwapInv(s, incoming, previous) && d.live == Link(incoming)
    case Undoing(incoming, previous) => SwapInv(s, incoming, previous)
    case Undone(incoming, previous) => SwapInv(s, incoming, previous) && d.live == Link(previous)
    case Unjournaled(incoming, previous) =>
      && d.journal.None? && d.live == Link(previous) && incoming != previous && ReleaseName(incoming)
    case Pruning(keep) => d.journal.None? && d.live.Link? && d.live.name in keep && |keep| <= 2
  }

  function Named(j: Journal): set<string> {
    {j.previous} + if j.taken.Some? then {j.taken.value} else {}
  }

  /** Every kept tree is strictly newer than every one kept before it. */
  predicate Ascending(kept: seq<Package>) {
    forall i, j :: 0 <= i < j < |kept| ==> Newer(kept[j].version, kept[i].version)
  }

  predicate Inv(s: State) {
    s.kept != [] && DirInv(s) && ProcInv(s) && Ascending(s.kept)
  }

  /******* One step *******/

  /** What `recover` decides from a state the invariant admits. */
  lemma RecoverDecides(s: State)
    requires Inv(s) && s.dir.journal.Some?
    ensures var j, plan := s.dir.journal.value, PlanRecover(s.dir);
            if s.dir.live.Plain? then plan == StillPlain(j.previous) && j.taken.None?
            else plan == PutBack(j.previous, Named(j), j.taken.Some? || s.dir.live != Link(j.previous))
                 && HoldsGood(s, j.previous)
  {
    hide ReleaseName, Newer, Ascending, ProcInv;
    assert s.dir.journal.value.taken.Some? ==> |Named(s.dir.journal.value)| == 2;
  }

  /** What `commit` decides: it keeps exactly a pending release that `agent` is on. */
  lemma CommitDecides(s: State)
    requires Inv(s)
    ensures match s.dir.journal
            case None => PlanCommit(s.dir) == NothingPending
            case Some(j) =>
              PlanCommit(s.dir) == if j.taken.Some? && s.dir.live == Link(j.taken.value)
                                   then KeepPending(j.taken.value, j.previous) else CommitRefused
  {
    hide ReleaseName, Newer, Ascending, ProcInv;
  }

  lemma StepOfRecover(s: State, r: RecoverStep)
    requires Inv(s) && MayRecover(s, r)
    ensures Inv(Recovered(s, r)) && Recovered(s, r).kept == s.kept
  {
    hide ReleaseName, Newer, Ascending, PlanRecover;
    if s.dir.journal.Some? {
      RecoverDecides(s);
    }
    assert PlanRecover(s.dir).NoJournal? || s.dir.journal.Some? by { JournalOrNone(s.dir); }
  }

  lemma JournalOrNone(d: Dir)
    ensures d.journal.None? ==> PlanRecover(d) == NoJournal
  {
  }

  /** What a removal may touch is neither live nor named by the journal. */
  lemma DoomedIsSpare(s: State, name: string)
    requires Inv(s) && Doomed(s, name)
    ensures s.dir.live != Link(name) && (s.dir.journal.Some? ==> name !in Named(s.dir.journal.value))
    ensures s.proc.RecoverPruning? || s.proc.Pruning? || s.proc.DroppingFresh?
    ensures s.proc.DroppingFresh? || ReleaseName(name) || StagingName(name)
  {
    hide ReleaseName, StagingName, Newer, Ascending, Candidate;
  }

  /** The invariant does not look at a spare entry. */
  lemma SpareEntryGoes(s: State, name: string, releases: map<string, Entry>)
    requires Inv(s) && Doomed(s, name)
    requires forall n | n in s.dir.releases && n != name :: n in releases && releases[n] == s.dir.releases[n]
    ensures Inv(s.(dir := s.dir.(releases := releases)))
  {
    hide ReleaseName, Newer, Ascending, Doomed, DirInv, ProcInv;
    DoomedIsSpare(s, name);
    SpareForDir(s, name, releases);
    SpareForProc(s, releases);
  }

  lemma SpareForDir(s: State, name: string, releases: map<string, Entry>)
    requires s.kept != [] && DirInv(s)
    requires s.dir.live != Link(name) && (s.dir.journal.Some? ==> name !in Named(s.dir.journal.value))
    requires forall n | n in s.dir.releases && n != name :: n in releases && releases[n] == s.dir.releases[n]
    ensures DirInv(s.(dir := s.dir.(releases := releases)))
  {
    hide ReleaseName, Newer;
  }

  lemma SpareForProc(s: State, releases: map<string, Entry>)
    requires s.kept != [] && ProcInv(s) && (s.proc.RecoverPruning? || s.proc.Pruning? || s.proc.DroppingFresh?)
    ensures ProcInv(s.(dir := s.dir.(releases := releases)))
  {
    hide ReleaseName, Newer, Candidate;
  }

  lemma StepOfRemoval(s: State, x: RemoveStep)
    requires Inv(s) && MayRemove(s, x)
    ensures Inv(Removed(s, x)) && Removed(s, x).kept == s.kept
  {
    hide ReleaseName, Newer, Ascending, Doomed;
    match x {
      case Tear(name) => SpareEntryGoes(s, name, s.dir.releases[name := Torn]);
      case Drop(name) => SpareEntryGoes(s, name, s.dir.releases - {name});
      case _ =>
    }
  }

  /** What the policy decides, in terms of the order: install exactly what is newer and above every floor. */
  lemma PolicyMeansNewer(candidate: string, current: string, floors: seq<string>)
    ensures CheckVersionPolicy(candidate, current, floors) == Install <==>
            Newer(candidate, current) && forall f | f in floors :: AboveFloor(candidate, f)
    ensures CheckVersionPolicy(candidate, current, floors) == UpToDate <==> CompareReleases(candidate, current) == Ok(0)
  {
    hide AboveFloor, Parse, Tilde;
    var order := CompareReleases(candidate, current);
    if order.Ok? {
      var a, b := Parse(Tilde(candidate)), Parse(Tilde(current));
      assert order.value == CompareParts(a.value, b.value);
    }
  }

  lemma StepOfStaging(s: State, g: StageStep)
    requires Inv(s) && MayStage(s, g)
    ensures Inv(Unpacked(s, g)) && Unpacked(s, g).kept == s.kept
  {
    hide ReleaseName, Newer, CheckVersionPolicy, Ascending, CompareReleases, AboveFloor;
    if g.StageBegin? {
      PolicyMeansNewer(g.signed.version, LiveVersion(s.dir), g.floors);
    }
  }

  lemma StepOfAdoption(s: State, a: AdoptStep)
    requires Inv(s) && MayAdopt(s, a)
    ensures Inv(AfterAdopt(s, a)) && AfterAdopt(s, a).kept == s.kept
  {
    hide ReleaseName, Newer, Ascending;
  }

  lemma StepOfSwap(s: State, w: SwapStep)
    requires Inv(s) && MaySwap(s, w)
    ensures Inv(AfterSwap(s, w)) && AfterSwap(s, w).kept == s.kept
  {
    hide ReleaseName, Newer, Ascending;
  }

  lemma StepOfUndo(s: State, u: UndoStep)
    requires Inv(s) && MayUndo(s, u)
    ensures Inv(AfterUndo(s, u)) && AfterUndo(s, u).kept == s.kept
  {
    hide ReleaseName, Newer, Ascending;
  }

  /** The two steps that keep an update: what becomes live for good is newer than everything kept. */
  lemma StepOfKeeping(s: State, v: KeepStep)
    requires Inv(s) && MayKeep(s, v)
    ensures Inv(AfterKeep(s, v))
    ensures s.dir.journal.Some? && s.dir.journal.value.taken.Some? && LiveTree(s.dir).Some?
    ensures s.dir.live == Link(s.dir.journal.value.taken.value)
    ensures AfterKeep(s, v).kept == s.kept + [LiveTree(s.dir).value]
  {
    hide ReleaseName, Newer;
    var tree := LiveTree(s.dir).value;
    assert Newer(tree.version, Good(s).version);
    AscendingAppend(s.kept, tree);
  }

  lemma AscendingAppend(kept: seq<Package>, tree: Package)
    requires kept != [] && Ascending(kept) && Newer(tree.version, kept[|kept| - 1].version)
    ensures Ascending(kept + [tree])
  {
    hide Newer, CompareReleases;
    forall i | 0 <= i < |kept|
      ensures Newer(tree.version, kept[i].version)
    {
      NewerIsStrictOrder(tree.version, kept[|kept| - 1].version, kept[i].version);
    }
  }

  lemma StepKeepsInv(s: State, step: Step)
    requires Inv(s) && Enabled(s, step)
    ensures Inv(Apply(s, step))
  {
    hide ReleaseName, Newer, Ascending;
    match step {
      case Crash =>
      case Respawn =>
      case Recovery(r) => StepOfRecover(s, r);
      case Removal(x) => StepOfRemoval(s, x);
      case Unpack(g) => StepOfStaging(s, g);
      case Adoption(a) => StepOfAdoption(s, a);
      case Exchange(w) => StepOfSwap(s, w);
      case Reversal(u) => StepOfUndo(s, u);
      case Judgement(v) => StepOfKeeping(s, v);
    }
  }

  lemma {:induction false} HistoryKeepsInv(s: State, steps: seq<Step>)
    requires Inv(s) && Possible(s, steps)
    ensures Inv(Exec(s, steps))
    decreases |steps|
  {
    if steps != [] {
      StepKeepsInv(s, steps[0]);
      HistoryKeepsInv(Apply(s, steps[0]), steps[1..]);
    }
  }

  lemma ReachableInv(s: State, steps: seq<Step>)
    requires Installed(s) && Possible(s, steps)
    ensures Inv(Exec(s, steps))
  {
    assert Inv(s);
    HistoryKeepsInv(s, steps);
  }

  /******* Crash safety *******/

  /** `agent` is a plain tree, or leads to a whole release, or is missing while the journal names a whole tree. */
  predicate Sound(d: Dir) {
    match d.live
    case Plain(_) => true
    case Link(name) => ReleaseName(name) && Holds(d, name)
    case Missing => d.journal.Some? && ReleaseName(d.journal.value.previous) && Holds(d, d.journal.value.previous)
  }

  /**
   Crash safety: in every reachable state, whatever crashed where, the directory is
   sound, `recover` meets none of its errors, and if there is a journal it puts back
   a whole tree or finds the plain one untouched.
   */
  lemma CrashSafety(s: State, steps: seq<Step>)
    requires Installed(s) && Possible(s, steps)
    ensures var d := Exec(s, steps).dir;
            && Sound(d)
            && !PlanRecover(d).NotAReleasePath? && !PlanRecover(d).PreviousMissing?
            && (d.journal.Some? ==> PlanRecover(d).StillPlain? || PlanRecover(d).PutBack?)
  {
    ReachableInv(s, steps);
    hide ReleaseName, Newer, Ascending, ProcInv;
  }

  /******* No verdict, no keep; exact rollback *******/

  lemma QuietIsGood(s: State)
    requires Inv(s) && s.dir.journal.None?
    ensures s.kept != [] && LiveTree(s.dir) == Some(Good(s))
  {
    hide ReleaseName, Newer, Ascending, ProcInv;
  }

  /** Without a journal, what is live is what was kept last: the first tree, or one that got its verdict. */
  lemma NoVerdictNoKeep(s: State, steps: seq<Step>)
    requires Installed(s) && Possible(s, steps)
    ensures var t := Exec(s, steps);
            t.kept != [] && (t.dir.journal.None? ==> LiveTree(t.dir) == Some(Good(t)))
  {
    hide DirInv, ProcInv, Ascending;
    ReachableInv(s, steps);
    if Exec(s, steps).dir.journal.None? {
      QuietIsGood(Exec(s, steps));
    }
  }

  /** Only a passed health check or a commit changes what is kept, and to the tree then live. */
  lemma OnlyVerdictsKeep(s: State, step: Step)
    requires Inv(s) && Enabled(s, step)
    ensures var s' := Apply(s, step);
            if step.Judgement?
            then s.dir.journal.Some? && s.dir.journal.value.taken.Some? && LiveTree(s.dir).Some? &&
                 s.dir.live == Link(s.dir.journal.value.taken.value) &&
                 s'.kept == s.kept + [LiveTree(s.dir).value]
            else s'.kept == s.kept
  {
    hide Inv, Recovered, Removed, Unpacked, AfterAdopt, AfterSwap, AfterUndo, AfterKeep;
    match step {
      case Crash =>
      case Respawn =>
      case Recovery(r) => StepOfRecover(s, r);
      case Removal(x) => StepOfRemoval(s, x);
      case Unpack(g) => StepOfStaging(s, g);
      case Adoption(a) => StepOfAdoption(s, a);
      case Exchange(w) => StepOfSwap(s, w);
      case Reversal(u) => StepOfUndo(s, u);
      case Judgement(v) => StepOfKeeping(s, v);
    }
  }

  /** The steps of `recover`, of a crash, and of the service being started again. */
  predicate OfRecovery(step: Step) {
    step.Crash? || step.Respawn? || step.Recovery? || step.Removal?
  }

  predicate OnlyRecovery(steps: seq<Step>) {
    forall i :: 0 <= i < |steps| ==> OfRecovery(steps[i])
  }

  lemma {:induction false} RecoveryKeepsHistory(s: State, steps: seq<Step>)
    requires Inv(s) && Possible(s, steps) && OnlyRecovery(steps)
    ensures Inv(Exec(s, steps)) && Exec(s, steps).kept == s.kept
    decreases |steps|
  {
    hide ReleaseName, Newer, Ascending, CheckVersionPolicy, DirInv, ProcInv;
    if steps != [] {
      StepKeepsInv(s, steps[0]);
      OnlyVerdictsKeep(s, steps[0]);
      RecoveryKeepsHistory(Apply(s, steps[0]), steps[1..]);
    }
  }

  /**
   Exact rollback. `before` is any reachable state in which an install may begin,
   `during` any continuation that gives no verdict, and `after` any number of
   recoveries, each interrupted anywhere. Once the journal is gone, what is live is
   exactly the tree that was live before the install.
   */
  lemma ExactRollback(s: State, during: seq<Step>, after: seq<Step>)
    requires Inv(s) && s.dir.journal.None?
    requires Possible(s, during) && Verdictless(during)
    requires Possible(Exec(s, during), after) && OnlyRecovery(after)
    ensures var t := Exec(Exec(s, during), after);
            t.dir.journal.None? ==> LiveTree(t.dir) == LiveTree(s.dir) && LiveTree(t.dir).Some?
  {
    hide ReleaseName, Newer, Ascending, CheckVersionPolicy;
    VerdictlessKeepsHistory(s, during);
    RecoveryKeepsHistory(Exec(s, during), after);
  }

  predicate Verdictless(steps: seq<Step>) {
    forall i :: 0 <= i < |steps| ==> !steps[i].Judgement?
  }

  lemma {:induction false} VerdictlessKeepsHistory(s: State, steps: seq<Step>)
    requires Inv(s) && Possible(s, steps) && Verdictless(steps)
    ensures Inv(Exec(s, steps)) && Exec(s, steps).kept == s.kept
    decreases |steps|
  {
    hide ReleaseName, Newer, Ascending, CheckVersionPolicy, DirInv, ProcInv;
    if steps != [] {
      StepKeepsInv(s, steps[0]);
      OnlyVerdictsKeep(s, steps[0]);
      VerdictlessKeepsHistory(Apply(s, steps[0]), steps[1..]);
    }
  }

  /** Uninterrupted, `recover` finishes from every reachable state a crash leaves. */
  lemma RecoverFinishes(s: State) returns (steps: seq<Step>)
    requires Inv(s) && s.proc.Idle?
    ensures OnlyRecovery(steps) && Possible(s, steps)
    ensures var t := Exec(s, steps);
            t.proc.Idle? && t.dir.journal.None? && LiveTree(t.dir) == Some(Good(s))
  {
    hide DirInv, ProcInv, Ascending, PlanRecover;
    var last := if s.dir.live.Plain? then Recovery(RecoverClear) else Recovery(RecoverDone);
    var first := if s.dir.live.Plain? then Recovery(RecoverRmdir(true)) else Recovery(RecoverPoint);
    if s.dir.journal.None? {
      steps := [];
      QuietIsGood(s);
    } else {
      RecoverDecides(s);
      steps := Before(Apply(s, first), last, []);
      steps := Before(s, first, steps);
      RecoveryKeepsHistory(s, steps);
      QuietIsGood(Exec(s, steps));
    }
  }

  /** A step put before a history. */
  lemma Before(s: State, step: Step, rest: seq<Step>) returns (steps: seq<Step>)
    requires Enabled(s, step) && Possible(Apply(s, step), rest)
    ensures Possible(s, steps) && Exec(s, steps) == Exec(Apply(s, step), rest)
    ensures steps == [step] + rest
  {
    hide Enabled, Apply;
    steps := [step] + rest;
    assert steps[1..] == rest;
  }

  /** One history after another. */
  lemma {:induction false} Then(s: State, first: seq<Step>, second: seq<Step>)
    requires Possible(s, first) && Possible(Exec(s, first), second)
    ensures Possible(s, first + second) && Exec(s, first + second) == Exec(Exec(s, first), second)
    decreases |first|
  {
    hide Enabled, Apply;
    if first == [] {
      assert first + second == second;
    } else {
      assert (first + second)[1..] == first[1..] + second;
      Then(Apply(s, first[0]), first[1..], second);
    }
  }

  /**
   A recovery of a journal that names a swapped-in release asks for the restart, and
   asks again from every state it may be interrupted in, until that journal is gone.
   */
  lemma RestartStillAsked(s: State, step: Step)
    requires Inv(s) && Enabled(s, step) && OfRecovery(step)
    requires s.dir.journal.Some? && s.dir.journal.value.taken.Some?
    ensures RecoverAsksRestart(s.dir)
    ensures var d := Apply(s, step).dir;
            (d.journal == s.dir.journal && RecoverAsksRestart(d)) || (d.journal.None? && step == Recovery(RecoverDone))
  {
    hide DirInv, ProcInv, ReleaseName, Ascending, PlanRecover;
    RecoverDecides(s);
    OnlyClearingClears(s, step);
    StepKeepsInv(s, step);
    if Apply(s, step).dir.journal.Some? {
      RecoverDecides(Apply(s, step));
    }
  }

  lemma OnlyClearingClears(s: State, step: Step)
    requires Inv(s) && Enabled(s, step) && OfRecovery(step)
    requires s.dir.journal.Some? && s.dir.journal.value.taken.Some?
    ensures var d := Apply(s, step).dir;
            d.journal == s.dir.journal || (d.journal.None? && step == Recovery(RecoverDone))
  {
    hide ReleaseName, Newer, Ascending, PlanRecover;
  }

  /******* No downgrade *******/

  /** Over every history each kept update is strictly newer than all that were kept before it. */
  lemma NoDowngrade(s: State, steps: seq<Step>, i: nat, j: nat)
    requires Installed(s) && Possible(s, steps)
    requires i < j < |Exec(s, steps).kept|
    ensures Newer(Exec(s, steps).kept[j].version, Exec(s, steps).kept[i].version)
  {
    ReachableInv(s, steps);
    hide Newer;
  }

  lemma OldIsRefused(t: State, i: nat, version: string, floors: seq<string>)
    requires Inv(t) && t.dir.journal.None? && i < |t.kept|
    requires !Newer(version, t.kept[i].version)
    ensures CheckVersionPolicy(version, LiveVersion(t.dir), floors) != Install
  {
    hide Newer, CheckVersionPolicy, CompareReleases, AboveFloor, DirInv, ProcInv;
    QuietIsGood(t);
    PolicyMeansNewer(version, Good(t).version, floors);
    NewerIsStrictOrder(version, Good(t).version, t.kept[i].version);
    assert i == |t.kept| - 1 || Newer(Good(t).version, t.kept[i].version);
  }

  /** A bundle no newer than anything ever kept here is refused, whatever the floors say. */
  lemma ReplayRefused(s: State, steps: seq<Step>, i: nat, bundle: Package, floors: seq<string>, dir: string)
    requires Installed(s) && Possible(s, steps) && i < |Exec(s, steps).kept|
    requires !Newer(bundle.version, Exec(s, steps).kept[i].version)
    ensures !Enabled(Exec(s, steps), Unpack(StageBegin(dir, bundle, floors)))
  {
    hide Newer, CheckVersionPolicy, DirInv, ProcInv, Ascending;
    ReachableInv(s, steps);
    if Exec(s, steps).dir.journal.None? {
      OldIsRefused(Exec(s, steps), i, bundle.version, floors);
    }
  }
}
