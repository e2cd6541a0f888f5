/**
 Pruning against the running service: which histories never remove the tree the
 service runs, which do, and how many releases a prune leaves.
 */
module InstallerService {
  import opened Prelude
  import opened Releases
  import opened InstallDir
  import opened InstallerSafety

  /** The tree the service runs is there, whole. */
  predicate ServiceIntact(s: State) {
    match s.service
    case Stopped => true
    case OnPlain => s.dir.live.Plain?
    case OnRelease(name) => Holds(s.dir, name)
  }

  predicate On(service: Service, names: set<string>) {
    service.Stopped? || (service.OnRelease? && service.name in names)
  }

  predicate OnLive(s: State) {
    s.service.Stopped? || s.service == LoadedFrom(s.dir.live)
  }

  /** Where the service may be, by where the updater is. */
  predicate ServiceInv(s: State) {
    && ServiceIntact(s)
    && (s.dir.journal.Some? ==> OnLive(s) || On(s.service, Named(s.dir.journal.value)))
    && match s.proc
       case Staging(_, _) => OnLive(s)
       case Staged(_) => OnLive(s)
       case AdoptMade(_, _) => OnLive(s)
       case AdoptJournaled(_, _) => OnLive(s)
       case AdoptMoved(_, legacy) => On(s.service, {legacy})
       case AdoptLinked(_, legacy) => On(s.service, {legacy})
       case Adopted(_, previous) => On(s.service, {previous})
       case DroppingFresh(incoming) => s.service != OnRelease(incoming)
       case Unjournaled(incoming, previous) => On(s.service, {incoming, previous})
       case Pruning(keep) => On(s.service, keep)
       case _ => true
  }

  /**
   What keeps the service's tree safe: an install begins with the service on the live
   tree, and a swap undone without a restart hook was not loaded by the service in the
   meantime. `main` does not see to the first by itself; the lemmas on straying below
   say when it fails to.
   */
  predicate Disciplined(s: State, step: Step) {
    && (step.Unpack? && step.g.StageBegin? ==> OnLive(s))
    && (step == Reversal(NoHook) && s.proc.Unjournaled? ==> s.service != OnRelease(s.proc.incoming))
  }

  lemma ServiceThroughRecover(s: State, r: RecoverStep)
    requires Inv(s) && ServiceInv(s) && MayRecover(s, r)
    ensures ServiceInv(Recovered(s, r))
  {
    hide ReleaseName, Newer, CheckVersionPolicy, Ascending;
  }

  lemma ServiceThroughRemoval(s: State, x: RemoveStep)
    requires Inv(s) && ServiceInv(s) && MayRemove(s, x)
    ensures ServiceInv(Removed(s, x))
  {
    hide ReleaseName, Newer, CheckVersionPolicy, Ascending;
  }

  lemma ServiceThroughStaging(s: State, g: StageStep)
    requires Inv(s) && ServiceInv(s) && MayStage(s, g) && (g.StageBegin? ==> OnLive(s))
    ensures ServiceInv(Unpacked(s, g))
  {
    hide ReleaseName, Newer, CheckVersionPolicy, Ascending;
  }

  lemma ServiceThroughAdoption(s: State, a: AdoptStep)
    requires Inv(s) && ServiceInv(s) && MayAdopt(s, a)
    ensures ServiceInv(AfterAdopt(s, a))
  {
    hide ReleaseName, Newer, CheckVersionPolicy, Ascending;
  }

  lemma ServiceThroughSwap(s: State, w: SwapStep)
    requires Inv(s) && ServiceInv(s) && MaySwap(s, w)
    ensures ServiceInv(AfterSwap(s, w))
  {
    hide ReleaseName, Newer, CheckVersionPolicy, Ascending;
  }

  lemma ServiceThroughUndo(s: State, u: UndoStep)
    requires Inv(s) && ServiceInv(s) && MayUndo(s, u)
    requires u.NoHook? ==> s.service != OnRelease(s.proc.incoming)
    ensures ServiceInv(AfterUndo(s, u))
  {
    hide ReleaseName, Newer, CheckVersionPolicy, Ascending;
  }

  lemma ServiceThroughKeeping(s: State, v: KeepStep)
    requires Inv(s) && ServiceInv(s) && MayKeep(s, v)
    ensures ServiceInv(AfterKeep(s, v))
  {
    hide ReleaseName, Newer, CheckVersionPolicy, Ascending;
  }

  lemma StepKeepsService(s: State, step: Step)
    requires Inv(s) && ServiceInv(s) && Enabled(s, step) && Disciplined(s, step)
    ensures ServiceInv(Apply(s, step))
  {
    hide ReleaseName, Newer, Ascending;
    match step {
      case Crash =>
      case Respawn =>
      case Recovery(r) => ServiceThroughRecover(s, r);
      case Removal(x) => ServiceThroughRemoval(s, x);
      case Unpack(g) => ServiceThroughStaging(s, g);
      case Adoption(a) => ServiceThroughAdoption(s, a);
      case Exchange(w) => ServiceThroughSwap(s, w);
      case Reversal(u) => ServiceThroughUndo(s, u);
      case Judgement(v) => ServiceThroughKeeping(s, v);
    }
  }

  predicate DisciplinedHistory(s: State, steps: seq<Step>)
    requires Possible(s, steps)
    decreases |steps|
  {
    steps == [] || (Disciplined(s, steps[0]) && DisciplinedHistory(Apply(s, steps[0]), steps[1..]))
  }

  lemma {:induction false} HistoryKeepsService(s: State, steps: seq<Step>)
    requires Inv(s) && ServiceInv(s) && Possible(s, steps) && DisciplinedHistory(s, steps)
    ensures ServiceInv(Exec(s, steps))
    decreases |steps|
  {
    hide Newer, Ascending, CheckVersionPolicy, DirInv, ProcInv, ServiceInv;
    if steps != [] {
      StepKeepsInv(s, steps[0]);
      StepKeepsService(s, steps[0]);
      HistoryKeepsService(Apply(s, steps[0]), steps[1..]);
    }
  }

  /**
   Pruning is safe: over every disciplined history the tree the service runs, the
   tree `agent` leads to and the trees the journal names are whole, so no removal
   touches any of them.
   */
  lemma PruningIsSafe(s: State, steps: seq<Step>)
    requires Installed(s) && Possible(s, steps) && DisciplinedHistory(s, steps)
    ensures var t := Exec(s, steps);
            && ServiceIntact(t) && Sound(t.dir)
            && forall name :: Doomed(t, name) ==>
                 && t.service != OnRelease(name) && t.dir.live != Link(name)
                 && (t.dir.journal.Some? ==> name !in Named(t.dir.journal.value))
  {
    ReachableInv(s, steps);
    assert ServiceInv(s);
    HistoryKeepsService(s, steps);
    CrashSafety(s, steps);
    var t := Exec(s, steps);
    forall name | Doomed(t, name)
      ensures t.service != OnRelease(name) && t.dir.live != Link(name)
      ensures t.dir.journal.Some? ==> name !in Named(t.dir.journal.value)
    {
      hide ReleaseName, Newer, Ascending;
      DoomedIsSpare(t, name);
    }
  }

  /******* What the discipline is worth *******/

  /** A step put before a disciplined history. */
  lemma BeforeDisciplined(s: State, step: Step, rest: seq<Step>) returns (steps: seq<Step>)
    requires Enabled(s, step) && Disciplined(s, step)
    requires Possible(Apply(s, step), rest) && DisciplinedHistory(Apply(s, step), rest)
    ensures Possible(s, steps) && DisciplinedHistory(s, steps) && Exec(s, steps) == Exec(Apply(s, step), rest)
    ensures steps == [step] + rest
  {
    hide Enabled, Apply, Disciplined;
    steps := [step] + rest;
    assert steps[1..] == rest;
  }

  /** Nothing is under way, and the service runs a release other than the live one. */
  predicate Strayed(s: State) {
    && s.proc.Idle? && s.dir.journal.None? && s.dir.live.Link?
    && s.service.OnRelease? && s.service.name != s.dir.live.name
    && Holds(s.dir, s.service.name) && ReleaseName(s.service.name)
  }

  /** What is known where the swap begins. */
  lemma AtTheSwap(s: State)
    requires Inv(s) && s.proc.Adopted?
    ensures s.dir.journal.None? && s.dir.live == Link(s.proc.previous) && s.proc.incoming != s.proc.previous
    ensures Holds(s.dir, s.proc.incoming) && ReleaseName(s.proc.incoming)
    ensures Holds(s.dir, s.proc.previous) && ReleaseName(s.proc.previous)
  {
    hide ReleaseName, Newer, Ascending;
  }

  /** The service strays when the restart after a rollback fails: the journal is gone, so nothing asks for it again. */
  lemma FailedHookStrays(s: State) returns (steps: seq<Step>)
    requires Inv(s) && ServiceInv(s) && s.proc.Adopted?
    ensures Possible(s, steps) && DisciplinedHistory(s, steps) && Strayed(Exec(s, steps))
    ensures Exec(s, steps).dir == s.dir
  {
    hide ReleaseName, Inv, ServiceInv, Doomed, MayRecover, Recovered, MayStage, Unpacked, MayAdopt, AfterAdopt,
         MayKeep, AfterKeep;
    AtTheSwap(s);
    var s1 := Apply(s, Exchange(SwapJournal));
    var s2 := Apply(s1, Exchange(SwapLink));
    var s3 := Apply(Apply(s2, Respawn), Exchange(Fail));
    var s4 := Apply(s3, Reversal(UndoLink));
    var s5 := Apply(s4, Reversal(UndoClear));
    var s6 := Apply(s5, Reversal(HookFails));
    steps := BeforeDisciplined(s6, Removal(PruneEnd), []);
    steps := BeforeDisciplined(s5, Reversal(HookFails), steps);
    steps := BeforeDisciplined(s4, Reversal(UndoClear), steps);
    steps := BeforeDisciplined(s3, Reversal(UndoLink), steps);
    steps := BeforeDisciplined(Apply(s2, Respawn), Exchange(Fail), steps);
    steps := BeforeDisciplined(s2, Respawn, steps);
    steps := BeforeDisciplined(s1, Exchange(SwapLink), steps);
    steps := BeforeDisciplined(s, Exchange(SwapJournal), steps);
  }

  /**
   The other half of the discipline fails too: a release the service was started on in
   the meantime, and then rolled back without a hook, is removed under it.
   */
  lemma HooklessRollbackRemoves(s: State) returns (steps: seq<Step>)
    requires Inv(s) && s.proc.Adopted?
    ensures Possible(s, steps) && !ServiceIntact(Exec(s, steps))
    ensures forall i :: 0 <= i < |steps| ==> !steps[i].Unpack?
  {
    hide ReleaseName, StagingName, Inv, MayRecover, Recovered, MayStage, Unpacked, MayAdopt, AfterAdopt,
         MayKeep, AfterKeep;
    AtTheSwap(s);
    var s1 := Apply(s, Exchange(SwapJournal));
    var s2 := Apply(s1, Exchange(SwapLink));
    var s3 := Apply(Apply(s2, Respawn), Exchange(Fail));
    steps := HooklessEnd(s3);
    steps := Before(Apply(s2, Respawn), Exchange(Fail), steps);
    steps := Before(s2, Respawn, steps);
    steps := Before(s1, Exchange(SwapLink), steps);
    steps := Before(s, Exchange(SwapJournal), steps);
  }

  lemma HooklessEnd(s: State) returns (steps: seq<Step>)
    requires s.proc.Undoing? && s.proc.incoming != s.proc.previous && s.service == OnRelease(s.proc.incoming)
    requires Holds(s.dir, s.proc.incoming) && ReleaseName(s.proc.incoming)
    ensures Possible(s, steps) && !ServiceIntact(Exec(s, steps))
    ensures forall i :: 0 <= i < |steps| ==> !steps[i].Unpack?
  {
    hide ReleaseName, StagingName, MayRecover, Recovered, MayStage, Unpacked, MayAdopt, AfterAdopt, MaySwap, AfterSwap,
         MayKeep, AfterKeep;
    var s1 := Apply(s, Reversal(UndoLink));
    var s2 := Apply(s1, Reversal(UndoClear));
    var s3 := Apply(s2, Reversal(NoHook));
    steps := Before(s3, Removal(Tear(s.proc.incoming)), []);
    steps := Before(s2, Reversal(NoHook), steps);
    steps := Before(s1, Reversal(UndoClear), steps);
    steps := Before(s, Reversal(UndoLink), steps);
  }

  /** It strays when an update is kept that never restarted it, as without systemd. */
  lemma KeptUpdateStrays(s: State) returns (steps: seq<Step>)
    requires Inv(s) && ServiceInv(s) && s.proc.Adopted? && s.service == OnRelease(s.proc.previous)
    ensures Possible(s, steps) && DisciplinedHistory(s, steps) && Strayed(Exec(s, steps))
  {
    hide ReleaseName, Inv, ServiceInv, Doomed, MayRecover, Recovered, MayStage, Unpacked, MayAdopt, AfterAdopt,
         MayUndo, AfterUndo, PlanCommit;
    AtTheSwap(s);
    var s1 := Apply(s, Exchange(SwapJournal));
    var s2 := Apply(s1, Exchange(SwapLink));
    var s3 := Apply(s2, Exchange(HealthPass));
    var s4 := Apply(s3, Judgement(Keep));
    steps := BeforeDisciplined(s4, Removal(PruneEnd), []);
    steps := BeforeDisciplined(s3, Judgement(Keep), steps);
    steps := BeforeDisciplined(s2, Exchange(HealthPass), steps);
    steps := BeforeDisciplined(s1, Exchange(SwapLink), steps);
    steps := BeforeDisciplined(s, Exchange(SwapJournal), steps);
  }

  /** And it strays when a recovery took out the release it runs and the restart it asked for did not happen. */
  lemma RecoveryStrays(s: State) returns (steps: seq<Step>)
    requires Inv(s) && ServiceInv(s) && s.proc.Idle? && s.dir.journal.Some? && s.dir.journal.value.taken.Some?
    requires s.service == OnRelease(s.dir.journal.value.taken.value)
    ensures Possible(s, steps) && DisciplinedHistory(s, steps) && Strayed(Exec(s, steps)) && RecoverAsksRestart(s.dir)
  {
    hide ReleaseName, Newer, Ascending, PlanRecover, PlanCommit;
    RecoverDecides(s);
    var s1 := Apply(s, Recovery(RecoverPoint));
    steps := BeforeDisciplined(s1, Recovery(RecoverDone), []);
    steps := BeforeDisciplined(s, Recovery(RecoverPoint), steps);
  }

  /** One disciplined history after another. */
  lemma {:induction false} ThenDisciplined(s: State, first: seq<Step>, second: seq<Step>)
    requires Possible(s, first) && DisciplinedHistory(s, first)
    requires Possible(Exec(s, first), second) && DisciplinedHistory(Exec(s, first), second)
    ensures Possible(s, first + second) && DisciplinedHistory(s, first + second)
    ensures Exec(s, first + second) == Exec(Exec(s, first), second)
    decreases |first|
  {
    hide Enabled, Apply, Disciplined;
    if first == [] {
      assert first + second == second;
    } else {
      assert (first + second)[1..] == first[1..] + second;
      ThenDisciplined(Apply(s, first[0]), first[1..], second);
    }
  }

  /** A release staged in a directory where nothing is under way. */
  function WithRelease(s: State, bundle: Package, token: string): State
    requires ManifestVersion(bundle.version) && IsToken(token)
  {
    s.(dir := s.dir.(releases := s.dir.releases[FreshName(bundle.version, token) := Whole(bundle)]))
  }

  lemma StageHistory(s: State, dir: string, bundle: Package, floors: seq<string>, token: string)
    requires Enabled(s, Unpack(StageBegin(dir, bundle, floors))) && IsToken(token)
    requires FreshName(bundle.version, token) !in s.dir.releases
    ensures var begin, done := Unpack(StageBegin(dir, bundle, floors)), Unpack(StageDone(bundle, token));
            && Enabled(Apply(s, begin), done) && (OnLive(s) ==> Disciplined(s, begin))
            && Apply(Apply(s, begin), done)
               == WithRelease(s, bundle, token).(proc := Staged(FreshName(bundle.version, token)))
  {
    hide ReleaseName, StagingName, ManifestVersion, CheckVersionPolicy, FreshName;
    NamesDiffer(bundle.version, token, "", token, dir);
    var name := FreshName(bundle.version, token);
    var releases := s.dir.releases;
    assert (releases[dir := Torn] - {dir})[name := Whole(bundle)] == releases[name := Whole(bundle)];
  }

  /** The adoption of a plain directory, uninterrupted. */
  lemma AdoptHistory(s: State, token: string) returns (steps: seq<Step>)
    requires s.proc.Staged? && s.dir.live.Plain? && IsToken(token)
    requires LegacyName(s.dir.live.tree.version, token) !in s.dir.releases
    ensures Possible(s, steps) && DisciplinedHistory(s, steps) && Exec(s, steps).proc.Adopted?
  {
    hide ReleaseName, LegacyName, Doomed, MayRecover, Recovered, MayRemove, Removed, MayStage, Unpacked,
         MaySwap, AfterSwap, MayUndo, AfterUndo, MayKeep, AfterKeep;
    var s1 := Apply(s, Adoption(AdoptMkdir(token)));
    var s2 := Apply(s1, Adoption(AdoptJournal));
    var s3 := Apply(s2, Adoption(AdoptMove));
    var s4 := Apply(s3, Adoption(AdoptLink));
    steps := BeforeDisciplined(s4, Adoption(AdoptClear), []);
    steps := BeforeDisciplined(s3, Adoption(AdoptLink), steps);
    steps := BeforeDisciplined(s2, Adoption(AdoptMove), steps);
    steps := BeforeDisciplined(s1, Adoption(AdoptJournal), steps);
    steps := BeforeDisciplined(s, Adoption(AdoptMkdir(token)), steps);
  }

  lemma FreshHost(s: State)
    requires Installed(s)
    ensures Inv(s) && ServiceInv(s) && OnLive(s) && s.dir.live.Plain? && s.dir.releases == map[]
  {
  }

  /** A fresh host gets as far as its first swap. */
  lemma FirstSwapIsReachable(s: State, dir: string, bundle: Package, floors: seq<string>, token: string, token': string)
    returns (steps: seq<Step>)
    requires Installed(s) && Enabled(s, Unpack(StageBegin(dir, bundle, floors))) && IsToken(token) && IsToken(token')
    ensures Possible(s, steps) && DisciplinedHistory(s, steps) && Exec(s, steps).proc.Adopted?
  {
    hide Enabled, Apply, Disciplined, Installed, CheckVersionPolicy, FreshName, LegacyName, ManifestVersion;
    FreshHost(s);
    Begun(s, dir, bundle, floors);
    StageHistory(s, dir, bundle, floors, token);
    NamesDiffer(bundle.version, token, s.dir.live.tree.version, token', dir);
    steps := BeforeDisciplined(Apply(s, Unpack(StageBegin(dir, bundle, floors))), Unpack(StageDone(bundle, token)), []);
    steps := BeforeDisciplined(s, Unpack(StageBegin(dir, bundle, floors)), steps);
    var adoption := AdoptHistory(Exec(s, steps), token');
    ThenDisciplined(s, steps, adoption);
    steps := steps + adoption;
  }

  /** From every fresh host a disciplined history leads to a stray service. */
  lemma StrayIsReachable(s: State, dir: string, bundle: Package, floors: seq<string>, token: string, token': string)
    returns (steps: seq<Step>)
    requires Installed(s) && Enabled(s, Unpack(StageBegin(dir, bundle, floors))) && IsToken(token) && IsToken(token')
    ensures Possible(s, steps) && DisciplinedHistory(s, steps) && Strayed(Exec(s, steps))
  {
    hide Enabled, Apply, Disciplined, Installed, Inv, ServiceInv, Strayed;
    FreshHost(s);
    steps := FirstSwapIsReachable(s, dir, bundle, floors, token, token');
    HistoryKeepsInv(s, steps);
    HistoryKeepsService(s, steps);
    var rollback := FailedHookStrays(Exec(s, steps));
    ThenDisciplined(s, steps, rollback);
    steps := steps + rollback;
  }

  lemma Begun(s: State, dir: string, bundle: Package, floors: seq<string>)
    requires Enabled(s, Unpack(StageBegin(dir, bundle, floors)))
    ensures s.proc.Idle? && s.dir.journal.None? && ManifestVersion(bundle.version) && StagingName(dir)
    ensures forall s', token :: Disciplined(s', Unpack(StageDone(bundle, token)))
  {
  }

  /** How an install ends that does not restart the service: kept, or rolled back with a failing hook. */
  datatype Ending = KeptAsIs | HookFailed

  /**
   Over a stray service an install, whichever way it ends, removes the tree the service
   runs, without any other step breaking the discipline.
   */
  lemma InstallOverStrayService(s: State, dir: string, bundle: Package, floors: seq<string>, token: string,
                                ending: Ending)
    returns (rest: seq<Step>)
    requires Inv(s) && Strayed(s) && Enabled(s, Unpack(StageBegin(dir, bundle, floors)))
    requires IsToken(token) && FreshName(bundle.version, token) !in s.dir.releases
    ensures var s' := Apply(s, Unpack(StageBegin(dir, bundle, floors)));
            Possible(s', rest) && DisciplinedHistory(s', rest) && !ServiceIntact(Exec(s', rest))
    ensures (ending.KeptAsIs? ==> Judgement(Keep) in rest) && (ending.HookFailed? ==> Reversal(HookFails) in rest)
  {
    hide ReleaseName, Newer, CheckVersionPolicy, Ascending, FreshName, ManifestVersion, StagingName;
    Begun(s, dir, bundle, floors);
    StageHistory(s, dir, bundle, floors, token);
    var s1 := Apply(s, Unpack(StageBegin(dir, bundle, floors)));
    var s2 := Apply(s1, Unpack(StageDone(bundle, token)));
    rest := SwapPastStray(Apply(s2, Adoption(AdoptExisting)), ending);
    rest := BeforeDisciplined(s2, Adoption(AdoptExisting), rest);
    rest := BeforeDisciplined(s1, Unpack(StageDone(bundle, token)), rest);
  }

  lemma SwapPastStray(s: State, ending: Ending) returns (steps: seq<Step>)
    requires s.proc.Adopted? && s.service.OnRelease? && Holds(s.dir, s.service.name) && ReleaseName(s.service.name)
    requires s.service.name !in {s.proc.incoming, s.proc.previous}
    ensures Possible(s, steps) && DisciplinedHistory(s, steps) && !ServiceIntact(Exec(s, steps))
    ensures (ending.KeptAsIs? ==> Judgement(Keep) in steps) && (ending.HookFailed? ==> Reversal(HookFails) in steps)
  {
    hide ReleaseName, Newer;
    var s1 := Apply(s, Exchange(SwapJournal));
    var s2 := Apply(s1, Exchange(SwapLink));
    if ending.KeptAsIs? {
      steps := KeepPastStray(s2);
    } else {
      steps := UndoPastStray(s2);
    }
    steps := BeforeDisciplined(s1, Exchange(SwapLink), steps);
    steps := BeforeDisciplined(s, Exchange(SwapJournal), steps);
  }

  lemma KeepPastStray(s: State) returns (steps: seq<Step>)
    requires s.proc.Swapped? && s.service.OnRelease? && Holds(s.dir, s.service.name) && ReleaseName(s.service.name)
    requires s.service.name !in {s.proc.incoming, s.proc.previous}
    ensures Possible(s, steps) && DisciplinedHistory(s, steps) && !ServiceIntact(Exec(s, steps))
    ensures Judgement(Keep) in steps
  {
    hide ReleaseName, MayRecover, Recovered, MayStage, Unpacked, MayAdopt, AfterAdopt, MayUndo, AfterUndo, PlanCommit;
    var s1 := Apply(s, Exchange(HealthPass));
    var s2 := Apply(s1, Judgement(Keep));
    assert Doomed(s2, s.service.name);
    steps := BeforeDisciplined(s2, Removal(Tear(s.service.name)), []);
    steps := BeforeDisciplined(s1, Judgement(Keep), steps);
    steps := BeforeDisciplined(s, Exchange(HealthPass), steps);
  }

  lemma UndoPastStray(s: State) returns (steps: seq<Step>)
    requires s.proc.Swapped? && s.service.OnRelease? && Holds(s.dir, s.service.name) && ReleaseName(s.service.name)
    requires s.service.name !in {s.proc.incoming, s.proc.previous}
    ensures Possible(s, steps) && DisciplinedHistory(s, steps) && !ServiceIntact(Exec(s, steps))
    ensures Reversal(HookFails) in steps
  {
    hide ReleaseName, StagingName, MayRecover, Recovered, MayStage, Unpacked, MayAdopt, AfterAdopt, MayKeep, AfterKeep,
         PlanRecover, PlanCommit, LiveTree;
    var s1 := Apply(s, Exchange(Fail));
    var s2 := Apply(s1, Reversal(UndoLink));
    var s3 := Apply(s2, Reversal(UndoClear));
    var s4 := Apply(s3, Reversal(HookFails));
    assert Doomed(s4, s.service.name);
    steps := BeforeDisciplined(s4, Removal(Tear(s.service.name)), []);
    steps := BeforeDisciplined(s3, Reversal(HookFails), steps);
    steps := BeforeDisciplined(s2, Reversal(UndoClear), steps);
    steps := BeforeDisciplined(s1, Reversal(UndoLink), steps);
    steps := BeforeDisciplined(s, Exchange(Fail), steps);
  }

  /** However a disciplined history goes on from here, the tree the service runs stays whole. */
  ghost predicate SafeFrom(s: State) {
    forall rest :: Possible(s, rest) && DisciplinedHistory(s, rest) ==> ServiceIntact(Exec(s, rest))
  }

  /**
   The discipline is exact. Where an install may begin on an adopted host, beginning it
   is safe, whatever disciplined history follows, if and only if the service is on the
   live tree or stopped.
   */
  lemma BeginDecides(s: State, dir: string, bundle: Package, floors: seq<string>, token: string)
    requires Inv(s) && s.dir.live.Link? && ServiceIntact(s) && (s.service.OnRelease? ==> ReleaseName(s.service.name))
    requires Enabled(s, Unpack(StageBegin(dir, bundle, floors)))
    requires IsToken(token) && FreshName(bundle.version, token) !in s.dir.releases
    ensures SafeFrom(Apply(s, Unpack(StageBegin(dir, bundle, floors)))) <==> OnLive(s)
  {
    var begin := Unpack(StageBegin(dir, bundle, floors));
    var s' := Apply(s, begin);
    Begun(s, dir, bundle, floors);
    if OnLive(s) {
      assert ServiceInv(s);
      StepKeepsInv(s, begin);
      StepKeepsService(s, begin);
      hide Inv, ServiceInv, Enabled, Apply, Disciplined;
      forall rest | Possible(s', rest) && DisciplinedHistory(s', rest)
        ensures ServiceIntact(Exec(s', rest))
      {
        HistoryKeepsService(s', rest);
        IntactByInv(Exec(s', rest));
      }
    } else {
      var rest := InstallOverStrayService(s, dir, bundle, floors, token, KeptAsIs);
    }
  }

  /**
   And so is its other half: ending a rollback without a hook is safe, whatever
   disciplined history follows, if and only if the service is off the release taken out.
   */
  lemma HookDecides(s: State)
    requires Inv(s) && ServiceInv(s) && s.proc.Unjournaled?
    ensures SafeFrom(Apply(s, Reversal(NoHook))) <==> s.service != OnRelease(s.proc.incoming)
  {
    var s' := Apply(s, Reversal(NoHook));
    if s.service != OnRelease(s.proc.incoming) {
      StepKeepsInv(s, Reversal(NoHook));
      StepKeepsService(s, Reversal(NoHook));
      hide Inv, ServiceInv, Enabled, Apply, Disciplined;
      forall rest | Possible(s', rest) && DisciplinedHistory(s', rest)
        ensures ServiceIntact(Exec(s', rest))
      {
        HistoryKeepsService(s', rest);
        IntactByInv(Exec(s', rest));
      }
    } else {
      hide ReleaseName, Newer, Ascending;
      var tear := BeforeDisciplined(s', Removal(Tear(s.proc.incoming)), []);
    }
  }

  lemma IntactByInv(s: State)
    requires ServiceInv(s)
    ensures ServiceIntact(s)
  {
  }

  /**
   What the prune after a rollback dooms, wherever the service is: without a hook its
   tree unless it is the one put back, after a failed hook unless it is one of the two
   swapped, and after a restart never.
   */
  lemma UndoDooms(s: State, name: string)
    requires Inv(s) && s.proc.Unjournaled? && s.service == OnRelease(name)
    requires name in s.dir.releases && ReleaseName(name)
    ensures Doomed(AfterUndo(s, NoHook), name) <==> name != s.proc.previous
    ensures Doomed(AfterUndo(s, HookFails), name) <==> name !in {s.proc.previous, s.proc.incoming}
    ensures AfterUndo(s, HookRestarts).service == OnRelease(s.proc.previous)
    ensures !Doomed(AfterUndo(s, HookRestarts), s.proc.previous)
  {
    hide ReleaseName, Newer, Ascending;
  }

  /******* How much a prune leaves *******/

  /** A prune that removed all it may leaves at most the two releases it keeps. */
  lemma PruneLeavesTwo(s: State)
    requires Inv(s) && (s.proc.RecoverPruning? || s.proc.Pruning?)
    requires forall name :: !Doomed(s, name)
    ensures |set name | name in s.dir.releases && (ReleaseName(name) || StagingName(name))| <= 2
    ensures |set name | name in s.dir.releases && Prunable(name)| <= 2
  {
    hide ReleaseName, StagingName, Newer, Ascending, DirInv;
    assert (set name | name in s.dir.releases && (ReleaseName(name) || StagingName(name)))
           == (set name | name in s.dir.releases && Prunable(name));
    var left := set name | name in s.dir.releases && Prunable(name);
    assert left <= s.proc.keep by {
      assert forall name | name in left :: name in s.proc.keep || Doomed(s, name);
    }
    SubsetSize(left, s.proc.keep);
    if s.proc.RecoverPruning? {
      NamesAtMostTwo(s.dir.journal.value);
    }
  }

  lemma NamesAtMostTwo(j: Journal)
    ensures |Named(j)| <= 2
  {
    if j.taken.Some? {
      assert Named(j) == {j.previous, j.taken.value};
    }
  }

  lemma SubsetSize(a: set<string>, b: set<string>)
    requires a <= b
    ensures |a| <= |b|
  {
    assert b == a + (b - a);
  }

  /** Recovery under way or not begun, and no plan to put a release back. */
  predicate NothingToPutBack(s: State) {
    (s.proc.Idle? || s.proc.RecoverClearing?) && !PlanRecover(s.dir).PutBack?
  }

  lemma OneStepWithoutPrune(s: State, step: Step)
    requires Inv(s) && NothingToPutBack(s) && Enabled(s, step) && OfRecovery(step)
    ensures NothingToPutBack(Apply(s, step)) && Apply(s, step).dir.live == s.dir.live
    ensures forall n | Holds(s.dir, n) ::
              Holds(Apply(s, step).dir, n) && Apply(s, step).dir.releases[n] == s.dir.releases[n]
  {
    hide ReleaseName, Newer, Ascending;
  }

  lemma {:induction false} WholeReleasesStay(s: State, steps: seq<Step>)
    requires Inv(s) && NothingToPutBack(s) && Possible(s, steps) && OnlyRecovery(steps)
    ensures forall n | Holds(s.dir, n) ::
              Holds(Exec(s, steps).dir, n) && Exec(s, steps).dir.releases[n] == s.dir.releases[n]
    decreases |steps|
  {
    hide Inv, NothingToPutBack, Enabled, Apply;
    if steps != [] {
      OneStepWithoutPrune(s, steps[0]);
      StepKeepsInv(s, steps[0]);
      WholeReleasesStay(Apply(s, steps[0]), steps[1..]);
    }
  }

  /**
   When recovery gets rid of failed attempts. A whole release the journal does not name
   can be removed by recoveries, however often interrupted, if and only if there is a
   release to put back; otherwise every whole release stays.
   */
  lemma RecoveryRemovesIff(s: State, name: string)
    requires Inv(s) && s.proc.Idle? && Holds(s.dir, name) && ReleaseName(name)
    requires s.dir.journal.Some? ==> name !in Named(s.dir.journal.value)
    ensures (exists steps :: OnlyRecovery(steps) && Possible(s, steps) && name !in Exec(s, steps).dir.releases)
            <==> PlanRecover(s.dir).PutBack?
  {
    if PlanRecover(s.dir).PutBack? {
      var steps := RemovedByRecovery(s, name);
    } else {
      forall steps | OnlyRecovery(steps) && Possible(s, steps)
        ensures name in Exec(s, steps).dir.releases
      {
        WholeReleasesStay(s, steps);
      }
    }
  }

  lemma RemovedByRecovery(s: State, name: string) returns (steps: seq<Step>)
    requires Inv(s) && s.proc.Idle? && Holds(s.dir, name) && ReleaseName(name)
    requires PlanRecover(s.dir).PutBack? && s.dir.journal.Some? && name !in Named(s.dir.journal.value)
    ensures OnlyRecovery(steps) && Possible(s, steps) && name !in Exec(s, steps).dir.releases
  {
    hide ReleaseName, Newer, Ascending, PlanRecover;
    RecoverDecides(s);
    var s1 := Apply(s, Recovery(RecoverPoint));
    var s2 := Apply(s1, Removal(Tear(name)));
    steps := Before(s2, Removal(Drop(name)), []);
    steps := Before(s1, Removal(Tear(name)), steps);
    steps := Before(s, Recovery(RecoverPoint), steps);
  }

  /**
   An attempt killed between the rename of its staging directory and the next journal
   leaves its release and no journal, on a plain and on an adopted host alike, so the
   recovery that follows prunes nothing.
   */
  lemma KilledAttemptLeavesRelease(s: State, dir: string, bundle: Package, floors: seq<string>, token: string)
    returns (steps: seq<Step>)
    requires Enabled(s, Unpack(StageBegin(dir, bundle, floors))) && IsToken(token)
    requires FreshName(bundle.version, token) !in s.dir.releases
    ensures Possible(s, steps) && Exec(s, steps) == WithRelease(s, bundle, token)
    ensures PlanRecover(Exec(s, steps).dir) == NoJournal
  {
    hide ReleaseName, CheckVersionPolicy, FreshName, ManifestVersion, StagingName;
    StageHistory(s, dir, bundle, floors, token);
    var s1 := Apply(s, Unpack(StageBegin(dir, bundle, floors)));
    var s2 := Apply(s1, Unpack(StageDone(bundle, token)));
    steps := Before(s2, Crash, []);
    steps := Before(s1, Unpack(StageDone(bundle, token)), steps);
    steps := Before(s, Unpack(StageBegin(dir, bundle, floors)), steps);
  }

  /** The releases after as many attempts as there are tokens. */
  function Piled(s: State, bundle: Package, tokens: seq<string>): State
    requires ManifestVersion(bundle.version) && forall i :: 0 <= i < |tokens| ==> IsToken(tokens[i])
    decreases |tokens|
  {
    if tokens == [] then s else Piled(WithRelease(s, bundle, tokens[0]), bundle, tokens[1..])
  }

  /**
   Failed attempts do pile up: any number of them, each killed there and each followed
   by a recovery that finds nothing to do, leave as many releases.
   */
  lemma {:induction false} AttemptsPileUp(s: State, dir: string, bundle: Package, floors: seq<string>,
                                          tokens: seq<string>)
    returns (steps: seq<Step>)
    requires Inv(s) && Enabled(s, Unpack(StageBegin(dir, bundle, floors)))
    requires forall i :: 0 <= i < |tokens| ==>
               IsToken(tokens[i]) && FreshName(bundle.version, tokens[i]) !in s.dir.releases
    requires forall i, j :: 0 <= i < j < |tokens| ==> tokens[i] != tokens[j]
    ensures Possible(s, steps) && Exec(s, steps) == Piled(s, bundle, tokens)
    ensures PlanRecover(Exec(s, steps).dir) == NoJournal
    ensures |Exec(s, steps).dir.releases| == |s.dir.releases| + |tokens|
    decreases |tokens|
  {
    Begun(s, dir, bundle, floors);
    hide Inv, Enabled, Apply, FreshName, ManifestVersion, CheckVersionPolicy;
    if tokens == [] {
      steps := [];
    } else {
      var first := KilledAttemptLeavesRelease(s, dir, bundle, floors, tokens[0]);
      var s1 := Exec(s, first);
      HistoryKeepsInv(s, first);
      MayTryAgain(s, dir, bundle, floors, tokens[0]);
      forall i | 0 <= i < |tokens[1..]|
        ensures FreshName(bundle.version, tokens[1..][i]) !in s1.dir.releases
      {
        NamesDiffer(bundle.version, tokens[1..][i], "", tokens[0], dir);
      }
      var rest := AttemptsPileUp(s1, dir, bundle, floors, tokens[1..]);
      Then(s, first, rest);
      steps := first + rest;
    }
  }

  lemma MayTryAgain(s: State, dir: string, bundle: Package, floors: seq<string>, token: string)
    requires Inv(s) && Enabled(s, Unpack(StageBegin(dir, bundle, floors))) && IsToken(token)
    requires FreshName(bundle.version, token) !in s.dir.releases
    ensures Enabled(WithRelease(s, bundle, token), Unpack(StageBegin(dir, bundle, floors)))
  {
    hide ReleaseName, Newer, CheckVersionPolicy, Ascending, FreshName, ManifestVersion, StagingName;
    NamesDiffer(bundle.version, token, "", token, dir);
  }

  /**
   An attempt on a plain directory that dies after its journal, before its move: the
   recovery clears the journal and the empty directory, and keeps the release too.
   */
  lemma PlainAttemptLeavesRelease(s: State, dir: string, bundle: Package, floors: seq<string>, token: string,
                                  token': string)
    returns (steps: seq<Step>)
    requires s.dir.live.Plain? && IsToken(token) && IsToken(token')
    requires Enabled(s, Unpack(StageBegin(dir, bundle, floors)))
    requires FreshName(bundle.version, token) !in s.dir.releases
    requires LegacyName(s.dir.live.tree.version, token') !in s.dir.releases
    ensures Possible(s, steps) && Exec(s, steps) == WithRelease(s, bundle, token)
    ensures Recovery(RecoverClear) in steps
  {
    hide ReleaseName, Newer, CheckVersionPolicy, FreshName, LegacyName, ManifestVersion, StagingName;
    StageHistory(s, dir, bundle, floors, token);
    NamesDiffer(bundle.version, token, s.dir.live.tree.version, token', dir);
    var s1 := Apply(s, Unpack(StageBegin(dir, bundle, floors)));
    var s2 := Apply(s1, Unpack(StageDone(bundle, token)));
    steps := RecoveredOnPlain(s2, token');
    steps := Before(s1, Unpack(StageDone(bundle, token)), steps);
    steps := Before(s, Unpack(StageBegin(dir, bundle, floors)), steps);
  }

  lemma RecoveredOnPlain(s: State, token: string) returns (steps: seq<Step>)
    requires s.proc.Staged? && s.dir.live.Plain? && s.dir.journal.None? && IsToken(token)
    requires LegacyName(s.dir.live.tree.version, token) !in s.dir.releases
    ensures Possible(s, steps) && Exec(s, steps) == s.(proc := Idle) && Recovery(RecoverClear) in steps
  {
    var legacy := LegacyName(s.dir.live.tree.version, token);
    assert ReleaseName(legacy);
    hide ReleaseName, LegacyName;
    var s1 := Apply(s, Adoption(AdoptMkdir(token)));
    var s2 := Apply(Apply(s1, Adoption(AdoptJournal)), Crash);
    var s3 := Apply(s2, Recovery(RecoverRmdir(true)));
    assert s.dir.releases[legacy := Bare] - {legacy} == s.dir.releases;
    steps := Before(s3, Recovery(RecoverClear), []);
    steps := Before(s2, Recovery(RecoverRmdir(true)), steps);
    steps := Before(Apply(s1, Adoption(AdoptJournal)), Crash, steps);
    steps := Before(s1, Adoption(AdoptJournal), steps);
    steps := Before(s, Adoption(AdoptMkdir(token)), steps);
  }
}
