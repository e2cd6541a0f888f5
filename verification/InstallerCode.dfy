/**
 `Installer` of agent/update.py as the code runs it: fields for what is on disk,
 methods that change them one atomic step at a time. Each assignment to the disk is
 noted as a step of the machine in InstallDir, so every state in between is one the
 theorems about histories cover.
 */
module InstallerCode {
  import opened Prelude
  import opened Versions
  import opened Releases
  import opened InstallDir
  import opened InstallerSafety
  import opened InstallerService

  lemma {:induction false} ExecAppend(s: State, steps: seq<Step>, step: Step)
    requires Possible(s, steps) && Enabled(Exec(s, steps), step)
    ensures Possible(s, steps + [step]) && Exec(s, steps + [step]) == Apply(Exec(s, steps), step)
    decreases |steps|
  {
    hide Enabled, Apply;
    if steps == [] {
      assert steps + [step] == [step];
    } else {
      assert (steps + [step])[1..] == steps[1..] + [step];
      ExecAppend(Apply(s, steps[0]), steps[1..], step);
    }
  }

  /** How an install that reached the swap goes on; `restarted` is whether the health check restarted the service. */
  datatype Outcome = StopPending | HealthOk(restarted: bool) | HealthBad(restarted: bool, hook: Hook)

  datatype Hook = Absent | Restarts | Refuses

  /** A health check that restarts the service comes with a hook that does. */
  predicate HooksRestarts(outcome: Outcome) {
    outcome.HealthBad? && outcome.restarted ==> !outcome.hook.Absent?
  }

  datatype Report = Refused | Live(name: string) | RolledBack

  /** How the restart a recovery asks for is seen to. */
  datatype Restart = Systemd(ok: bool) | ByHand

  datatype Exit = OnlyRecovered | NotRestarted | NothingNew | BundleRefused | Attempted(report: Report)

  /** What a recovery leaves of the entries: it prunes exactly when there is a release to put back. */
  function Cleaned(d: Dir, stuck: set<string>): map<string, Entry> {
    match PlanRecover(d)
    case PutBack(_, keep, _) => Spared(d.releases, keep, stuck)
    case StillPlain(legacy) =>
      if legacy in d.releases && d.releases[legacy] == Bare then d.releases - {legacy} else d.releases
    case _ => d.releases
  }

  /** What a prune leaves of the entries. */
  function Spared(entries: map<string, Entry>, keep: set<string>, stuck: set<string>): map<string, Entry> {
    map n | n in entries && (n in keep || !Prunable(n) || n in stuck) :: entries[n]
  }

  lemma CleanedIsPart(d: Dir, stuck: set<string>)
    ensures Cleaned(d, stuck).Keys <= d.releases.Keys
  {
    hide PlanRecover;
  }

  /** Where nothing is left to recover, the live version is the one last kept. */
  lemma LiveIsKept(s: State)
    requires Inv(s) && s.dir.journal.None?
    ensures LiveVersion(s.dir) == Good(s).version && !RecoverAsksRestart(s.dir)
  {
    QuietIsGood(s);
  }

  lemma PendingAsksRestart(s: State)
    requires Inv(s)
    ensures s.dir.journal.Some? && s.dir.journal.value.taken.Some? ==> RecoverAsksRestart(s.dir)
  {
    hide DirInv, ProcInv, Ascending, PlanRecover;
    if s.dir.journal.Some? && s.dir.journal.value.taken.Some? {
      RecoverDecides(s);
      PendingIsLinked(s);
    }
  }

  lemma PendingIsLinked(s: State)
    requires Inv(s) && s.dir.journal.Some? && s.dir.journal.value.taken.Some?
    ensures s.dir.live.Link?
  {
    hide ReleaseName, Newer, Ascending, ProcInv;
  }

  lemma NotYetLoaded(s: State)
    requires Inv(s) && ServiceInv(s) && s.proc.Adopted?
    ensures s.service != OnRelease(s.proc.incoming)
  {
    hide ServiceIntact, Holds;
    AtTheSwap(s);
  }

  lemma AscendingByInv(s: State, tree: Package)
    requires Inv(s) && Newer(tree.version, Good(s).version)
    ensures Ascending(s.kept + [tree])
  {
    hide Newer, DirInv, ProcInv;
    AscendingAppend(s.kept, tree);
  }

  lemma TagsHaveDashes(s: string, base: string, i: nat, n: string)
    requires i < 3 && Tagged(s, base, i, n)
    ensures '-' in s
  {
    assert s[|base|] == '-';
  }

  lemma NumberIsItself(n: string)
    requires Number(n)
    ensures Tilde(n) == n && WellWritten("", n, None) && Written("", n, None) == n
  {
    if Tilde(n) != n {
      var base, i, k := OnlyTagsAreRewritten(n);
      TagsHaveDashes(n, base, i, k);
    }
    assert n[..|n|] == n;
    DigitsSplit(n, |n|);
  }

  lemma LargerIsNewer(n: string, m: string)
    requires Number(n) && Number(m) && Value(n) > Value(m)
    ensures Newer(n, m)
  {
    hide CompareVersions, Lex, Key, Value, Tilde, WellWritten, Written, Number;
    NumberIsItself(n);
    NumberIsItself(m);
    PartsDecideInOrder("", n, None, "", m, None);
    NumbersCompare(n, m);
  }

  lemma NumbersNameVersions(n: string)
    requires Number(n) && |n| <= 64
    ensures ManifestVersion(n)
  {
  }

  /** A fresh host with a plain version number takes any bundle with a larger one. */
  lemma LargerNumbersInstall(s: State, n: string, digest: string, dir: string)
    requires Installed(s) && Number(n) && |n| <= 64 && Number(s.dir.live.tree.version)
    requires Value(n) > Value(s.dir.live.tree.version) && StagingName(dir)
    ensures Enabled(s, Unpack(StageBegin(dir, Package(n, digest), [])))
  {
    hide Newer, CheckVersionPolicy, CompareVersions, Value, ManifestVersion, Number, StagingName;
    NumbersNameVersions(n);
    LargerIsNewer(n, s.dir.live.tree.version);
    MetFloorsInstall(n, s.dir.live.tree.version, []);
  }

  class Installer {
    var live: Live
    var releases: map<string, Entry>
    var journal: Option<Journal>
    ghost var service: Service
    ghost var proc: Proc
    ghost var kept: seq<Package>
    ghost var origin: State
    ghost var log: seq<Step>

    function Disk(): Dir
      reads this
    {
      Dir(live, releases, journal)
    }

    ghost function Now(): State
      reads this
    {
      State(Disk(), service, proc, kept)
    }

    /** The object is where the history `log` of its host has led. */
    ghost predicate Valid()
      reads this
    {
      Installed(origin) && Possible(origin, log) && Now() == Exec(origin, log) && Inv(Now())
    }

    constructor (tree: Package)
      ensures Valid() && proc.Idle? && live == Plain(tree) && kept == [tree]
    {
      live, releases, journal := Plain(tree), map[], None;
      service, proc, kept := OnPlain, Idle, [tree];
      origin := State(Dir(Plain(tree), map[], None), OnPlain, Idle, [tree]);
      log := [];
      new;
      assert Inv(Now());
    }

    /** The disk now is what `step` makes of `before`. */
    ghost method Took(before: State, step: Step)
      requires Installed(origin) && Possible(origin, log) && before == Exec(origin, log) && Inv(before)
      requires Enabled(before, step) && Disk() == Apply(before, step).dir
      modifies this`service, this`proc, this`kept, this`log
      ensures Valid() && Now() == Apply(before, step) && log == old(log) + [step] && origin == old(origin)
      ensures ServiceInv(before) && Disciplined(before, step) ==> ServiceInv(Now())
    {
      hide Enabled, Apply, Inv, ServiceInv;
      var after := Apply(before, step);
      service, proc, kept := after.service, after.proc, after.kept;
      ExecAppend(origin, log, step);
      StepKeepsInv(before, step);
      if ServiceInv(before) && Disciplined(before, step) {
        StepKeepsService(before, step);
      }
      log := log + [step];
    }

    /** `shutil.rmtree` of one entry: partly gone, then gone. */
    method RemoveEntry(n: string)
      requires Valid() && Doomed(Now(), n)
      modifies this
      ensures Valid() && origin == old(origin)
      ensures Now() == old(Now()).(dir := old(Disk()).(releases := old(releases) - {n}))
      ensures old(ServiceInv(Now())) ==> ServiceInv(Now())
    {
      hide Inv, ReleaseName, StagingName, Possible, Exec, ServiceInv;
      ghost var before := Now();
      releases := releases[n := Torn];
      Took(before, Removal(Tear(n)));
      before := Now();
      releases := releases - {n};
      Took(before, Removal(Drop(n)));
    }

    /** `_prune`: every release but those kept goes, except the ones whose removal fails. */
    method Prune(keep: set<string>, stuck: set<string>)
      requires Valid() && (proc == RecoverPruning(keep) || proc == Pruning(keep))
      modifies this
      ensures Valid() && origin == old(origin)
      ensures Now() == old(Now()).(dir := old(Disk()).(releases := Spared(old(releases), keep, stuck)))
      ensures stuck == {} ==> |set n | n in releases && Prunable(n)| <= 2
      ensures old(ServiceInv(Now())) ==> ServiceInv(Now())
    {
      hide Inv, ReleaseName, StagingName, Possible, Exec, Enabled, Apply, ServiceInv;
      var todo := releases.Keys;
      while todo != {}
        invariant Valid() && origin == old(origin)
        invariant todo <= old(releases).Keys && (old(ServiceInv(Now())) ==> ServiceInv(Now()))
        invariant Now() == old(Now()).(dir := old(Disk()).(releases := Spared(old(releases), keep + todo, stuck)))
        decreases todo
      {
        var n :| n in todo;
        if n !in keep && Prunable(n) && n !in stuck {
          RemoveEntry(n);
        }
        assert Spared(old(releases), keep + (todo - {n}), stuck) ==
               if n !in keep && Prunable(n) && n !in stuck then Spared(old(releases), keep + todo, stuck) - {n}
               else Spared(old(releases), keep + todo, stuck);
        todo := todo - {n};
      }
      assert keep + todo == keep;
      if stuck == {} {
        PruneLeavesTwo(Now());
      }
    }

    /**
     `recover`. From every state a history can leave it finishes without an error:
     the tree last kept is live again, the journal is gone, and the answer says
     whether the service may still run what was taken out.
     */
    method Recover(stuck: set<string>) returns (restart: bool)
      requires Valid() && proc.Idle?
      modifies this
      ensures Valid() && proc.Idle? && origin == old(origin) && kept == old(kept) && service == old(service)
      ensures journal.None? && LiveTree(Disk()) == Some(Good(old(Now())))
      ensures restart == RecoverAsksRestart(old(Disk())) && (live.Plain? || !restart ==> live == old(live))
      ensures releases == Cleaned(old(Disk()), stuck)
      ensures PlanRecover(old(Disk())).PutBack? && stuck == {} ==> |set n | n in releases && Prunable(n)| <= 2
      ensures old(ServiceInv(Now())) ==> ServiceInv(Now())
    {
      hide DirInv, ProcInv, Ascending, Possible, Exec, Prunable, Spared, Enabled, Apply, ServiceInv;
      var plan := PlanRecover(Disk());
      if plan.NoJournal? {
        QuietIsGood(Now());
        return false;
      }
      RecoverDecides(Now());
      if plan.StillPlain? {
        LeavePlain();
        return false;
      }
      PutBackPrevious(stuck);
      restart := plan.restart;
    }

    /** The branch of `recover` for a plain directory: only the empty adoption directory and the journal go. */
    method LeavePlain()
      requires Valid() && proc.Idle? && PlanRecover(Disk()).StillPlain?
      modifies this
      ensures Valid() && proc.Idle? && origin == old(origin) && kept == old(kept) && service == old(service)
      ensures journal.None? && live == old(live) && live == Plain(Good(old(Now())))
      ensures releases == Cleaned(old(Disk()), {})
      ensures old(ServiceInv(Now())) ==> ServiceInv(Now())
    {
      hide DirInv, ProcInv, Ascending, Possible, Exec, ServiceInv;
      var legacy := journal.value.previous;
      ghost var before := Now();
      if legacy in releases && releases[legacy] == Bare {
        releases := releases - {legacy};
      }
      Took(before, Recovery(RecoverRmdir(true)));
      before := Now();
      journal := None;
      Took(before, Recovery(RecoverClear));
      QuietIsGood(Now());
    }

    /** The branch of `recover` that links the previous release back, prunes, and clears the journal last. */
    method PutBackPrevious(stuck: set<string>)
      requires Valid() && proc.Idle? && PlanRecover(Disk()).PutBack?
      modifies this
      ensures Valid() && proc.Idle? && origin == old(origin) && kept == old(kept) && service == old(service)
      ensures journal.None? && live == Link(old(journal).value.previous) && LiveTree(Disk()) == Some(Good(old(Now())))
      ensures releases == Spared(old(releases), PlanRecover(old(Disk())).keep, stuck)
      ensures stuck == {} ==> |set n | n in releases && Prunable(n)| <= 2
      ensures old(ServiceInv(Now())) ==> ServiceInv(Now())
    {
      hide DirInv, ProcInv, Ascending, PlanRecover, Possible, Exec, Prunable, Spared,
           MayRemove, Removed, MayStage, Unpacked, MayAdopt, AfterAdopt, MaySwap, AfterSwap, MayUndo, AfterUndo,
           MayKeep, AfterKeep, ServiceInv;
      var plan := PlanRecover(Disk());
      JournalOrNone(Disk());
      RecoverDecides(Now());
      PointBack();
      Prune(plan.keep, stuck);
      ghost var before := Now();
      journal := None;
      Took(before, Recovery(RecoverDone));
      QuietIsGood(Now());
    }

    /** The link goes back, and only that. */
    method PointBack()
      requires Valid() && proc.Idle? && PlanRecover(Disk()).PutBack?
      modifies this
      ensures Valid() && origin == old(origin) && proc == RecoverPruning(PlanRecover(old(Disk())).keep)
      ensures Now() == old(Now()).(proc := proc, dir := old(Disk()).(live := live))
      ensures live == Link(PlanRecover(old(Disk())).previous)
      ensures old(ServiceInv(Now())) ==> ServiceInv(Now())
    {
      hide Inv, Possible, Exec, PlanRecover, ServiceInv, MayRemove, Removed, MayStage, Unpacked, MayAdopt, AfterAdopt,
           MaySwap, AfterSwap, MayUndo, AfterUndo, MayKeep, AfterKeep;
      ghost var before := Now();
      live := Link(PlanRecover(Disk()).previous);
      Took(before, Recovery(RecoverPoint));
    }

    /** `commit`: keep the pending release; refuse, changing nothing, when `agent` is not on it. */
    method CommitPending(stuck: set<string>) returns (r: Result<Option<string>, ()>)
      requires Valid() && proc.Idle?
      modifies this
      ensures Valid() && proc.Idle? && origin == old(origin) && live == old(live)
      ensures if old(journal).None? then r == Ok(None) && Now() == old(Now())
              else
                var taken := old(journal).value.taken;
                if taken.Some? && live == Link(taken.value)
                then
                  && r == Ok(taken) && journal.None?
                  && LiveTree(Disk()) == LiveTree(old(Disk())) && LiveTree(Disk()).Some?
                  && kept == old(kept) + [LiveTree(Disk()).value]
                  && (stuck == {} ==> |set n | n in releases && Prunable(n)| <= 2)
                else r.Err? && Now() == old(Now())
      ensures old(ServiceInv(Now())) ==> ServiceInv(Now())
    {
      hide DirInv, ProcInv, Ascending, Possible, Exec, Prunable, Spared,
           MayRecover, Recovered, MayStage, Unpacked, MayAdopt, AfterAdopt, MaySwap, AfterSwap, MayUndo, AfterUndo,
           ServiceInv, PlanCommit;
      CommitDecides(Now());
      var plan := PlanCommit(Disk());
      ghost var before := Now();
      if plan.NothingPending? {
        return Ok(None);
      }
      if plan.CommitRefused? {
        return Err(());
      }
      OnlyVerdictsKeep(before, Judgement(Commit));
      journal := None;
      Took(before, Judgement(Commit));
      Prune({plan.incoming, plan.previous}, stuck);
      before := Now();
      Took(before, Removal(PruneEnd));
      QuietIsGood(Now());
      r := Ok(Some(plan.incoming));
    }

    /** `_adopt_live`: the live tree under a release name, moved there first if it is a plain directory. */
    method AdoptLive(token: string) returns (previous: string)
      requires Valid() && proc.Staged? && IsToken(token)
      requires live.Plain? ==> LegacyName(live.tree.version, token) !in releases
      modifies this
      ensures Valid() && origin == old(origin) && kept == old(kept)
      ensures proc == Adopted(old(proc).incoming, previous) && live == Link(previous) && journal.None?
      ensures LiveTree(Disk()) == LiveTree(old(Disk()))
      ensures forall n | n in old(releases) :: n in releases && releases[n] == old(releases)[n]
      ensures old(ServiceInv(Now())) ==> ServiceInv(Now())
    {
      hide ReleaseName, StagingName, Newer, Ascending, Possible, Exec, LegacyName, ServiceInv;
      ghost var before := Now();
      if live.Link? {
        Took(before, Adoption(AdoptExisting));
        return live.name;
      }
      previous := LegacyName(live.tree.version, token);
      JournalAdoption(token);
      MoveAndLink();
    }

    /** The adoption up to its journal: the plain tree is still where it was. */
    method JournalAdoption(token: string)
      requires Valid() && proc.Staged? && live.Plain? && IsToken(token)
      requires LegacyName(live.tree.version, token) !in releases
      modifies this
      ensures Valid() && origin == old(origin) && kept == old(kept) && live == old(live)
      ensures proc == AdoptJournaled(old(proc).incoming, LegacyName(live.tree.version, token))
      ensures journal == Some(Journal(proc.legacy, None)) && releases == old(releases)[proc.legacy := Bare]
      ensures old(ServiceInv(Now())) ==> ServiceInv(Now())
    {
      hide ReleaseName, Newer, Ascending, Possible, Exec, LegacyName, Inv,
           MayRecover, Recovered, MayRemove, Removed, MayStage, Unpacked, MaySwap, AfterSwap, MayUndo, AfterUndo,
           MayKeep, AfterKeep, ServiceInv;
      ghost var before := Now();
      var legacy := LegacyName(live.tree.version, token);
      releases := releases[legacy := Bare];
      Took(before, Adoption(AdoptMkdir(token)));
      before := Now();
      journal := Some(Journal(legacy, None));
      Took(before, Adoption(AdoptJournal));
    }

    /** The adoption from its journal on: move, link, clear. */
    method MoveAndLink()
      requires Valid() && proc.AdoptJournaled? && live.Plain? && journal == Some(Journal(proc.legacy, None))
      modifies this
      ensures Valid() && origin == old(origin) && kept == old(kept)
      ensures proc == Adopted(old(proc).incoming, old(proc).legacy) && live == Link(old(proc).legacy) && journal.None?
      ensures releases == old(releases)[old(proc).legacy := Whole(old(live).tree)]
      ensures old(ServiceInv(Now())) ==> ServiceInv(Now())
    {
      hide ReleaseName, Newer, Ascending, Possible, Exec, Inv,
           MayRecover, Recovered, MayRemove, Removed, MayStage, Unpacked, MaySwap, AfterSwap, MayUndo, AfterUndo,
           MayKeep, AfterKeep, ServiceInv;
      var legacy := journal.value.previous;
      ghost var before := Now();
      live, releases := Missing, releases[legacy := Whole(live.tree)];
      Took(before, Adoption(AdoptMove));
      before := Now();
      live := Link(legacy);
      Took(before, Adoption(AdoptLink));
      before := Now();
      journal := None;
      Took(before, Adoption(AdoptClear));
    }

    /** `_stage`: unpack next to the releases, check the version the tree states, rename into place. */
    method Stage(dir: string, signed: Package, tree: Package, floors: seq<string>, token: string)
      returns (name: Option<string>)
      requires Valid() && proc.Idle? && journal.None? && IsToken(token)
      requires StagingName(dir) && dir !in releases && ManifestVersion(signed.version)
      requires CheckVersionPolicy(signed.version, LiveVersion(Disk()), floors) == Install
      requires FreshName(signed.version, token) !in releases
      modifies this
      ensures Valid() && origin == old(origin) && kept == old(kept) && live == old(live) && journal.None?
      ensures name.Some? <==> tree == signed
      ensures name.Some? ==> proc == Staged(name.value) && name.value == FreshName(signed.version, token)
      ensures releases == if name.Some? then old(releases)[name.value := Whole(signed)] else old(releases)
      ensures name.None? ==> proc.Idle?
      ensures old(ServiceInv(Now()) && OnLive(Now())) ==> ServiceInv(Now())
    {
      hide Inv, ReleaseName, StagingName, Possible, Exec, FreshName, CheckVersionPolicy, ManifestVersion,
           MayRecover, Recovered, MayRemove, Removed, MayAdopt, AfterAdopt, MaySwap, AfterSwap, MayUndo, AfterUndo,
           MayKeep, AfterKeep, ServiceInv;
      ghost var before := Now();
      releases := releases[dir := Torn];
      Took(before, Unpack(StageBegin(dir, signed, floors)));
      before := Now();
      if tree != signed {
        releases := releases - {dir};
        Took(before, Unpack(StageFail(true)));
        assert releases == old(releases);
        return None;
      }
      NamesDiffer(signed.version, token, "", token, dir);
      var fresh' := FreshName(signed.version, token);
      releases := (releases - {dir})[fresh' := Whole(tree)];
      Took(before, Unpack(StageDone(tree, token)));
      assert releases == old(releases)[fresh' := Whole(tree)];
      return Some(fresh');
    }

    /** The rollback inside `install`: link back, clear the journal, restart hook, prune. */
    method Undo(hook: Hook, incoming: string, previous: string, stuck: set<string>)
      requires Valid() && proc == Undoing(incoming, previous)
      modifies this
      ensures Valid() && proc.Idle? && origin == old(origin) && kept == old(kept)
      ensures journal.None? && live == Link(previous)
      ensures stuck == {} ==> |set n | n in releases && Prunable(n)| <= 2
      ensures old(ServiceInv(Now())) && (hook.Absent? ==> old(service) != OnRelease(incoming)) ==> ServiceInv(Now())
    {
      hide Inv, ReleaseName, Possible, Exec, Prunable,
           MayRecover, Recovered, MayRemove, Removed, MayStage, Unpacked, MayAdopt, AfterAdopt, MaySwap, AfterSwap,
           MayKeep, AfterKeep, ServiceInv;
      ghost var before := Now();
      live := Link(previous);
      Took(before, Reversal(UndoLink));
      before := Now();
      journal := None;
      Took(before, Reversal(UndoClear));
      AfterHook(hook, previous, incoming, stuck);
    }

    /** What follows the cleared journal: the hook's outcome decides what the prune keeps. */
    method AfterHook(hook: Hook, previous: string, incoming: string, stuck: set<string>)
      requires Valid() && proc == Unjournaled(incoming, previous)
      modifies this
      ensures Valid() && proc.Idle? && origin == old(origin) && kept == old(kept)
      ensures journal == old(journal) && live == old(live)
      ensures stuck == {} ==> |set n | n in releases && Prunable(n)| <= 2
      ensures old(ServiceInv(Now())) && (hook.Absent? ==> old(service) != OnRelease(incoming)) ==> ServiceInv(Now())
    {
      hide Inv, ReleaseName, Possible, Exec, Prunable,
           MayRecover, Recovered, MayStage, Unpacked, MayAdopt, AfterAdopt, MaySwap, AfterSwap, MayKeep, AfterKeep,
           PlanRecover, PlanCommit, ServiceInv;
      ghost var before := Now();
      match hook {
        case Absent => Took(before, Reversal(NoHook));
        case Restarts => Took(before, Reversal(HookRestarts));
        case Refuses => Took(before, Reversal(HookFails));
      }
      Prune(if hook == Refuses then {previous, incoming} else {previous}, stuck);
      before := Now();
      Took(before, Removal(PruneEnd));
    }

    /** The end of an install whose health check passed. */
    method KeepSwapped(incoming: string, previous: string, stuck: set<string>)
      requires Valid() && proc == Passed(incoming, previous)
      modifies this
      ensures Valid() && proc.Idle? && origin == old(origin) && live == old(live) && journal.None?
      ensures LiveTree(Disk()) == LiveTree(old(Disk())) && LiveTree(Disk()).Some?
      ensures kept == old(kept) + [LiveTree(Disk()).value]
      ensures stuck == {} ==> |set n | n in releases && Prunable(n)| <= 2
      ensures old(ServiceInv(Now())) ==> ServiceInv(Now())
    {
      hide DirInv, ProcInv, Ascending, Possible, Exec, Prunable, Spared,
           MayRecover, Recovered, MayStage, Unpacked, MayAdopt, AfterAdopt, MaySwap, AfterSwap, MayUndo, AfterUndo,
           ServiceInv;
      ghost var before := Now();
      OnlyVerdictsKeep(before, Judgement(Keep));
      journal := None;
      Took(before, Judgement(Keep));
      Prune({incoming, previous}, stuck);
      before := Now();
      Took(before, Removal(PruneEnd));
      QuietIsGood(Now());
    }

    /**
     `install` of a bundle the policy admits over the tree last kept: recover first, then
     stage, adopt, swap. Refused leaves what recovery made live; rolled back leaves
     exactly that tree too; live and judged is kept; pending waits in the journal with
     the old tree named to put back.
     */
    method InstallBundle(dir: string, signed: Package, tree: Package, floors: seq<string>, token: string,
                         token': string, outcome: Outcome, stuck: set<string>)
      returns (r: Report)
      requires Valid() && proc.Idle? && IsToken(token) && IsToken(token')
      requires StagingName(dir) && dir !in releases && ManifestVersion(signed.version)
      requires CheckVersionPolicy(signed.version, Good(Now()).version, floors) == Install
      requires FreshName(signed.version, token) !in releases
      requires live.Plain? ==> LegacyName(live.tree.version, token') !in releases
      modifies this
      ensures Valid() && proc.Idle? && origin == old(origin)
      ensures r.Refused? <==> tree != signed
      ensures r.RolledBack? <==> tree == signed && outcome.HealthBad?
      ensures !r.Live? ==> journal.None? && kept == old(kept) && LiveTree(Disk()) == Some(Good(old(Now())))
      ensures r.Live? ==> live == Link(r.name) && LiveTree(Disk()) == Some(signed)
      ensures r.Live? && outcome.HealthOk? ==> journal.None? && kept == old(kept) + [signed]
      ensures r.Live? && outcome.StopPending? ==>
                && kept == old(kept) && journal.Some? && journal.value.taken == Some(r.name)
                && Holds(Disk(), journal.value.previous)
                && releases[journal.value.previous].tree == Good(old(Now()))
      ensures !r.Refused? && !outcome.StopPending? && stuck == {} ==> |set n | n in releases && Prunable(n)| <= 2
      ensures old(ServiceInv(Now()) && OnLive(Now())) && !RecoverAsksRestart(old(Disk())) && HooksRestarts(outcome) ==>
                ServiceInv(Now())
    {
      hide ReleaseName, StagingName, Newer, Ascending, Possible, Exec, FreshName, LegacyName, CheckVersionPolicy,
           ManifestVersion, Prunable, Enabled, Apply, Inv, PlanRecover, RecoverAsksRestart, ServiceInv;
      CleanedIsPart(Disk(), stuck);
      var _ := Recover(stuck);
      LiveIsKept(Now());
      r := InstallOnQuiet(dir, signed, tree, floors, token, token', outcome, stuck);
    }

    /** The rest of `install`, where nothing was left to recover. */
    method InstallOnQuiet(dir: string, signed: Package, tree: Package, floors: seq<string>, token: string,
                          token': string, outcome: Outcome, stuck: set<string>)
      returns (r: Report)
      requires Valid() && proc.Idle? && journal.None? && IsToken(token) && IsToken(token')
      requires StagingName(dir) && dir !in releases && ManifestVersion(signed.version)
      requires CheckVersionPolicy(signed.version, LiveVersion(Disk()), floors) == Install
      requires FreshName(signed.version, token) !in releases
      requires live.Plain? ==> LegacyName(live.tree.version, token') !in releases
      modifies this
      ensures Valid() && proc.Idle? && origin == old(origin)
      ensures r.Refused? <==> tree != signed
      ensures r.RolledBack? <==> tree == signed && outcome.HealthBad?
      ensures !r.Live? ==> journal.None? && kept == old(kept) && LiveTree(Disk()) == LiveTree(old(Disk()))
      ensures r.Live? ==> live == Link(r.name) && LiveTree(Disk()) == Some(signed)
      ensures r.Live? && outcome.HealthOk? ==> journal.None? && kept == old(kept) + [signed]
      ensures r.Live? && outcome.StopPending? ==>
                && kept == old(kept) && journal.Some? && journal.value.taken == Some(r.name)
                && Holds(Disk(), journal.value.previous)
                && Some(releases[journal.value.previous].tree) == LiveTree(old(Disk()))
      ensures !r.Refused? && !outcome.StopPending? && stuck == {} ==> |set n | n in releases && Prunable(n)| <= 2
      ensures old(ServiceInv(Now()) && OnLive(Now())) && HooksRestarts(outcome) ==> ServiceInv(Now())
    {
      hide ReleaseName, StagingName, Newer, Ascending, Possible, Exec, FreshName, LegacyName, CheckVersionPolicy,
           ManifestVersion, Prunable, Enabled, Apply, Inv, ServiceInv;
      QuietIsGood(Now());
      if live.Plain? {
        NamesDiffer(signed.version, token, live.tree.version, token', dir);
      }
      var staged := Stage(dir, signed, tree, floors, token);
      if staged.None? {
        return Refused;
      }
      var incoming := staged.value;
      var previous := AdoptLive(token');
      r := SwapAndJudge(incoming, previous, outcome, stuck);
    }

    /**
     The order of `main`: recover, see to the restart that asks for, let the policy judge
     the signed version against the live one, install. Whatever happens, what is live
     without a journal is the tree last kept, and only a strictly newer one is attempted.
     The tree the service runs stays whole unless it was off the live tree with nothing
     to recover, or the restart a recovery asked for is left to be done by hand.
     */
    method Update(pending: bool, restart: Restart, dir: string, signed: Package, tree: Package, floors: seq<string>,
                  token: string, token': string, health: Outcome, stuck: set<string>)
      returns (r: Exit)
      requires Valid() && proc.Idle? && IsToken(token) && IsToken(token')
      requires StagingName(dir) && dir !in releases && ManifestVersion(signed.version)
      requires FreshName(signed.version, token) !in releases && (health.StopPending? <==> pending)
      requires live.Plain? ==> LegacyName(live.tree.version, token') !in releases
      modifies this
      ensures Valid() && proc.Idle? && origin == old(origin)
      ensures var good, asked := Good(old(Now())), RecoverAsksRestart(old(Disk()));
              && (r.OnlyRecovered? <==> asked && pending)
              && (r.NotRestarted? <==> asked && !pending && restart == Systemd(false))
              && (r.NothingNew? || r.BundleRefused? || r.Attempted? <==> !r.OnlyRecovered? && !r.NotRestarted?)
              && (r.NothingNew? ==> CompareReleases(signed.version, good.version) == Ok(0))
              && (r.BundleRefused? ==>
                    !Newer(signed.version, good.version) || exists f :: f in floors && !AboveFloor(signed.version, f))
              && (r.Attempted? ==> Ascending(old(kept) + [signed]))
      ensures if r.Attempted? && r.report.Live?
              then live == Link(r.report.name) && LiveTree(Disk()) == Some(signed) && tree == signed
                   && (pending <==> journal.Some?) && kept == old(kept) + if pending then [] else [signed]
              else journal.None? && kept == old(kept) && LiveTree(Disk()) == Some(Good(old(Now())))
      ensures var asked := RecoverAsksRestart(old(Disk()));
              old(ServiceInv(Now())) && (health.HealthBad? && health.restarted ==> !health.hook.Absent?)
              && (if asked then pending || restart.Systemd? else old(OnLive(Now()))) ==>
                ServiceInv(Now()) && ServiceIntact(Now())
    {
      hide ReleaseName, StagingName, Newer, Ascending, Possible, Exec, FreshName, LegacyName, CheckVersionPolicy, Parse,
           CompareReleases, AboveFloor, ManifestVersion, Prunable, Enabled, Apply, Inv, PlanRecover, RecoverAsksRestart,
           ServiceInv, ServiceIntact;
      CleanedIsPart(Disk(), stuck);
      var asked := Recover(stuck);
      LiveIsKept(Now());
      if ServiceInv(Now()) {
        IntactByInv(Now());
      }
      if asked && pending {
        return OnlyRecovered;
      }
      if asked && restart.Systemd? {
        if !restart.ok {
          return NotRestarted;
        }
        Restarted();
      }
      r := Offer(dir, signed, tree, floors, token, token', health, stuck);
      if ServiceInv(Now()) {
        IntactByInv(Now());
      }
    }

    /** The part of `main` after recovery: the policy, and the install if it lets the bundle pass. */
    method Offer(dir: string, signed: Package, tree: Package, floors: seq<string>, token: string, token': string,
                 health: Outcome, stuck: set<string>)
      returns (r: Exit)
      requires Valid() && proc.Idle? && journal.None? && IsToken(token) && IsToken(token')
      requires StagingName(dir) && dir !in releases && ManifestVersion(signed.version)
      requires FreshName(signed.version, token) !in releases
      requires live.Plain? ==> LegacyName(live.tree.version, token') !in releases
      modifies this
      ensures Valid() && proc.Idle? && origin == old(origin)
      ensures r.NothingNew? || r.BundleRefused? || r.Attempted?
      ensures var good := Good(old(Now()));
              && (r.NothingNew? ==> CompareReleases(signed.version, good.version) == Ok(0))
              && (r.BundleRefused? ==>
                    !Newer(signed.version, good.version) || exists f :: f in floors && !AboveFloor(signed.version, f))
              && (r.Attempted? ==> Ascending(old(kept) + [signed]))
      ensures if r.Attempted? && r.report.Live?
              then live == Link(r.report.name) && LiveTree(Disk()) == Some(signed) && tree == signed
                   && (health.StopPending? <==> journal.Some?)
                   && kept == old(kept) + if health.StopPending? then [] else [signed]
              else journal.None? && kept == old(kept) && LiveTree(Disk()) == Some(Good(old(Now())))
      ensures old(ServiceInv(Now()) && OnLive(Now())) && HooksRestarts(health) ==> ServiceInv(Now())
    {
      hide ReleaseName, StagingName, Newer, Ascending, Possible, Exec, FreshName, LegacyName, CheckVersionPolicy, Parse,
           CompareReleases, AboveFloor, ManifestVersion, Prunable, Enabled, Apply, Inv, PlanRecover, RecoverAsksRestart,
           ServiceInv, OnLive, HooksRestarts;
      LiveIsKept(Now());
      QuietIsGood(Now());
      PolicyMeansNewer(signed.version, LiveVersion(Disk()), floors);
      match CheckVersionPolicy(signed.version, LiveVersion(Disk()), floors) {
        case UpToDate => r := NothingNew;
        case Refuse => r := BundleRefused;
        case Install =>
          AscendingByInv(Now(), signed);
          var report := InstallBundle(dir, signed, tree, floors, token, token', health, stuck);
          r := Attempted(report);
      }
    }

    /**
     A pending install and its verdict, as scripts/update-agent.sh gives it once it has
     restarted the service: kept, the signed tree is live for good; not kept, the tree
     kept before is live again.
     */
    method TryOut(dir: string, signed: Package, tree: Package, floors: seq<string>, token: string, token': string,
                  keep: bool, stuck: set<string>)
      returns (r: Report, committed: Result<Option<string>, ()>, restart: bool)
      requires Valid() && proc.Idle? && IsToken(token) && IsToken(token')
      requires StagingName(dir) && dir !in releases && ManifestVersion(signed.version)
      requires CheckVersionPolicy(signed.version, Good(Now()).version, floors) == Install
      requires FreshName(signed.version, token) !in releases
      requires live.Plain? ==> LegacyName(live.tree.version, token') !in releases
      modifies this
      ensures Valid() && proc.Idle? && origin == old(origin) && journal.None?
      ensures r.Live? <==> tree == signed
      ensures if r.Live? && keep
              then committed == Ok(Some(r.name)) && LiveTree(Disk()) == Some(signed) && kept == old(kept) + [signed]
              else committed == Ok(None) && LiveTree(Disk()) == Some(Good(old(Now()))) && kept == old(kept)
      ensures r.Live? && !keep ==> restart
    {
      hide ReleaseName, StagingName, Newer, Ascending, Possible, Exec, FreshName, LegacyName, CheckVersionPolicy,
           ManifestVersion, Prunable, Enabled, Apply, Inv, PlanRecover, PlanCommit, RecoverAsksRestart, ServiceInv;
      r := InstallBundle(dir, signed, tree, floors, token, token', StopPending, stuck);
      Restarted();
      restart, committed := false, Ok(None);
      if keep {
        committed := CommitPending(stuck);
      } else {
        PendingAsksRestart(Now());
        restart := Recover(stuck);
      }
      if journal.None? {
        QuietIsGood(Now());
      }
    }

    /** The service manager starts the service again. */
    ghost method Restarted()
      requires Valid()
      modifies this`service, this`proc, this`kept, this`log
      ensures Valid() && service == LoadedFrom(live) && proc == old(proc) && kept == old(kept)
      ensures old(ServiceInv(Now())) ==> ServiceInv(Now())
    {
      hide Inv, ReleaseName, Possible, Exec, ServiceInv;
      Took(Now(), Respawn);
    }

    /** The swap and what follows it. */
    method SwapAndJudge(incoming: string, previous: string, outcome: Outcome, stuck: set<string>) returns (r: Report)
      requires Valid() && proc == Adopted(incoming, previous)
      requires journal.None? && live == Link(previous) && Holds(Disk(), incoming)
      modifies this
      ensures Valid() && proc.Idle? && origin == old(origin)
      ensures if outcome.HealthBad?
              then r == RolledBack && journal.None? && kept == old(kept) && LiveTree(Disk()) == LiveTree(old(Disk()))
              else r == Report.Live(incoming) && live == Link(incoming) &&
                   LiveTree(Disk()) == Some(old(releases)[incoming].tree)
      ensures outcome.HealthOk? ==> journal.None? && kept == old(kept) + [old(releases)[incoming].tree]
      ensures outcome.StopPending? ==>
                kept == old(kept) && releases == old(releases) && journal == Some(Journal(previous, Some(incoming)))
      ensures !outcome.StopPending? && stuck == {} ==> |set n | n in releases && Prunable(n)| <= 2
      ensures old(ServiceInv(Now())) && HooksRestarts(outcome) ==> ServiceInv(Now())
    {
      hide ReleaseName, StagingName, Possible, Exec, Prunable, Enabled, Apply, Inv, ServiceInv,
           ServiceIntact, PlanRecover, PlanCommit;
      QuietIsGood(Now());
      if ServiceInv(Now()) {
        NotYetLoaded(Now());
      }
      Swap(incoming, previous);
      match outcome {
        case StopPending =>
          Conclude(PendingReturn);
          r := Report.Live(incoming);
        case HealthOk(restarted) =>
          if restarted {
            Restarted();
          }
          Conclude(HealthPass);
          KeepSwapped(incoming, previous, stuck);
          r := Report.Live(incoming);
        case HealthBad(restarted, hook) =>
          if restarted {
            Restarted();
          }
          Conclude(Fail);
          Undo(hook, incoming, previous, stuck);
          QuietIsGood(Now());
          r := RolledBack;
      }
    }

    /** Journal first, then the link: what `install` does between staging and the verdict. */
    method Swap(incoming: string, previous: string)
      requires Valid() && proc == Adopted(incoming, previous)
      modifies this
      ensures Valid() && origin == old(origin) && kept == old(kept) && releases == old(releases)
      ensures proc == Swapped(incoming, previous) && live == Link(incoming)
      ensures journal == Some(Journal(previous, Some(incoming)))
      ensures service == old(service)
      ensures old(ServiceInv(Now())) ==> ServiceInv(Now())
    {
      hide Inv, ReleaseName, Possible, Exec, PlanRecover, PlanCommit,
           MayRecover, Recovered, MayRemove, Removed, MayStage, Unpacked, MayAdopt, AfterAdopt, MayUndo, AfterUndo,
           MayKeep, AfterKeep, ServiceInv;
      ghost var before := Now();
      journal := Some(Journal(previous, Some(incoming)));
      Took(before, Exchange(SwapJournal));
      before := Now();
      live := Link(incoming);
      Took(before, Exchange(SwapLink));
    }

    /** The verdict, or the lack of one, changes nothing on disk by itself. */
    ghost method Conclude(step: SwapStep)
      requires Valid() && proc.Swapped? && step in {PendingReturn, HealthPass, Fail}
      modifies this`service, this`proc, this`kept, this`log
      ensures Valid() && kept == old(kept)
      ensures service == old(service)
      ensures proc == match step
                      case HealthPass => Passed(old(proc).incoming, old(proc).previous)
                      case Fail => Undoing(old(proc).incoming, old(proc).previous)
                      case _ => Idle
      ensures old(ServiceInv(Now())) ==> ServiceInv(Now())
    {
      hide Inv, ReleaseName, Possible, Exec, ServiceInv;
      Took(Now(), Exchange(step));
    }
  }
}
