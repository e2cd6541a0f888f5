/**
 The install directory of agent/update.py as a state machine.

 Every `rename`, `unlink`, `mkdir`, `rmdir`, journal write and start of a removal
 is one step, and `Crash` may follow any of them. An entry of `releases/` that is
 being removed is `Torn` first and gone afterwards. A relative path
 `releases/<name>/agent` is represented by its `<name>`.
 */
module InstallDir {
  import opened Prelude
  import opened Releases

  /******* Names of releases *******/

  predicate IsSafe(c: char) {
    '0' <= c <= '9' || 'a' <= c <= 'z' || 'A' <= c <= 'Z' || c in "._+~-"
  }

  predicate AllSafe(s: string) {
    forall i :: 0 <= i < |s| ==> IsSafe(s[i])
  }

  predicate IsToken(t: string) {
    |t| == 8 && forall i :: 0 <= i < |t| ==> '0' <= t[i] <= '9' || 'a' <= t[i] <= 'f'
  }

  const LEGACY := "legacy-"

  /** `_RELEASE_NAME_RE`: optionally `legacy-`, 1 to 64 safe characters, a dash, 8 hex digits. */
  predicate ReleaseName(s: string) {
    && |s| > 9 && s[|s| - 9] == '-' && IsToken(s[|s| - 8..])
    && var body := s[..|s| - 9];
       || (|body| <= 64 && AllSafe(body))
       || (7 < |body| <= 71 && body[..7] == LEGACY && AllSafe(body[7..]))
  }

  /** `_UNSAFE_NAME_CHARS_RE.sub("_", s)`. */
  function Sanitised(s: string): (r: string)
    ensures |r| == |s| && AllSafe(r)
  {
    seq(|s|, i requires 0 <= i < |s| => if IsSafe(s[i]) then s[i] else '_')
  }

  /** `_VERSION_RE`: what a signed manifest may call its version. */
  predicate ManifestVersion(v: string) {
    && 1 <= |v| <= 64 && '0' <= v[0] <= '9'
    && forall i :: 0 <= i < |v| ==> (IsSafe(v[i]) && v[i] != '_') || v[i] == ':'
  }

  /** The name `_stage` gives a release. */
  function FreshName(version: string, token: string): (name: string)
    requires ManifestVersion(version) && IsToken(token)
    ensures ReleaseName(name) && |name| == |version| + 9 && name[|version| + 1..] == token
    ensures forall i :: 0 <= i < |version| ==> name[i] == if version[i] == ':' then '_' else version[i]
  {
    var body := Sanitised(version);
    assert (body + "-" + token)[..|body|] == body && (body + "-" + token)[|body| + 1..] == token;
    body + "-" + token
  }

  /** The name `_adopt_live` gives the tree the installer left, whatever its version says. */
  function LegacyName(version: string, token: string): (name: string)
    requires IsToken(token)
    ensures ReleaseName(name)
  {
    var safe := Sanitised(version);
    var cut := if |safe| > 64 then safe[..64] else if safe == "" then "unknown" else safe;
    var body := LEGACY + cut;
    assert body[..7] == LEGACY && body[7..] == cut;
    assert (body + "-" + token)[..|body|] == body && (body + "-" + token)[|body| + 1..] == token;
    body + "-" + token
  }

  /** No release name leads out of the directory it is in. */
  lemma ReleaseNameIsSafe(s: string)
    requires ReleaseName(s)
    ensures '/' !in s && s != "." && s != ".." && 10 <= |s| <= 80
  {
    assert s == s[..|s| - 9] + [s[|s| - 9]] + s[|s| - 8..];
    if |s| - 9 > 64 {
      assert s[..|s| - 9] == LEGACY + s[..|s| - 9][7..];
    }
  }

  predicate StagingName(s: string) {
    ".staging-" <= s
  }

  /** A release never takes the name of a staging directory, of an adopted tree, or of a release with another token. */
  lemma NamesDiffer(version: string, token: string, adopted: string, token': string, dir: string)
    requires ManifestVersion(version) && IsToken(token) && IsToken(token') && StagingName(dir)
    ensures FreshName(version, token) != dir && LegacyName(adopted, token') != dir
    ensures FreshName(version, token) != LegacyName(adopted, token')
    ensures token != token' ==> FreshName(version, token) != FreshName(version, token')
  {
    var name, name' := FreshName(version, token), FreshName(version, token');
    assert name[0] == version[0] && LegacyName(adopted, token')[0] == 'l' && dir[0] == '.';
    assert name[|version| + 1..] == token && name'[|version| + 1..] == token';
  }

  /******* The directory *******/

  /** A package tree: the version its `__init__.py` states, and which bytes it is. */
  datatype Package = Package(version: string, digest: string)

  datatype Live = Plain(tree: Package) | Link(name: string) | Missing

  /** A directory under `releases/`: without a package, with a whole one, or partly filled or removed. */
  datatype Entry = Bare | Whole(tree: Package) | Torn

  datatype Journal = Journal(previous: string, taken: Option<string>)

  datatype Dir = Dir(live: Live, releases: map<string, Entry>, journal: Option<Journal>)

  predicate Holds(d: Dir, name: string) {
    name in d.releases && d.releases[name].Whole?
  }

  /** The tree `agent` leads to. */
  function LiveTree(d: Dir): Option<Package> {
    match d.live
    case Plain(tree) => Some(tree)
    case Link(name) => if Holds(d, name) then Some(d.releases[name].tree) else None
    case Missing => None
  }

  /** `read_package_version(install_dir / "agent")`. */
  function LiveVersion(d: Dir): string {
    match LiveTree(d) case Some(tree) => tree.version case None => ""
  }

  /******* What recover and commit decide from what they read *******/

  datatype RecoverPlan =
    | NoJournal
    | NotAReleasePath
    | StillPlain(legacy: string)
    | PreviousMissing
    | PutBack(previous: string, keep: set<string>, restart: bool)

  /** The reading half of `recover`, with its two errors. */
  function PlanRecover(d: Dir): RecoverPlan {
    match d.journal
    case None => NoJournal
    case Some(j) =>
      if !ReleaseName(j.previous) then NotAReleasePath
      else if d.live.Plain? then StillPlain(j.previous)
      else if !Holds(d, j.previous) then PreviousMissing
      else
        var keep := {j.previous} +
                    if j.taken.Some? && ReleaseName(j.taken.value) then {j.taken.value} else {};
        if d.live.Link? && !ReleaseName(d.live.name) then NotAReleasePath
        else PutBack(j.previous, keep, |keep| == 2 || d.live != Link(j.previous))
  }

  /** Whatever the journal and the link say, nothing is linked back but a whole tree under a release name. */
  lemma OnlyWholeReleasesGoBack(d: Dir)
    requires PlanRecover(d).PutBack?
    ensures d.journal.Some? && PlanRecover(d).previous == d.journal.value.previous
    ensures Holds(d, d.journal.value.previous) && ReleaseName(d.journal.value.previous)
    ensures d.live.Link? ==> ReleaseName(d.live.name)
    ensures forall name | name in PlanRecover(d).keep :: ReleaseName(name)
  {
  }

  /** A directory tampered with is refused: a journal naming no release path, or one whose release is not whole. */
  lemma TamperedIsRefused(d: Dir)
    requires d.journal.Some?
    ensures !ReleaseName(d.journal.value.previous) ==>
              PlanRecover(d) == NotAReleasePath && PlanCommit(d) == CommitRefused
    ensures ReleaseName(d.journal.value.previous) && !d.live.Plain? && !Holds(d, d.journal.value.previous) ==>
              PlanRecover(d) == PreviousMissing
    ensures d.live.Link? && !ReleaseName(d.live.name) ==>
              (PlanRecover(d).NotAReleasePath? || PlanRecover(d).PreviousMissing?) && PlanCommit(d) == CommitRefused
  {
  }

  /** What `recover` returns from here: whether the service has to be restarted. */
  predicate RecoverAsksRestart(d: Dir) {
    PlanRecover(d).PutBack? && PlanRecover(d).restart
  }

  datatype CommitPlan =
    | NothingPending
    | CommitRefused
    | KeepPending(incoming: string, previous: string)

  /** The reading half of `commit`; every error leaves the directory alone. */
  function PlanCommit(d: Dir): CommitPlan {
    match d.journal
    case None => NothingPending
    case Some(j) =>
      if !ReleaseName(j.previous) || j.taken.None? || d.live != Link(j.taken.value) || !ReleaseName(d.live.name)
      then CommitRefused
      else KeepPending(j.taken.value, j.previous)
  }

  /******* The machine *******/

  /** Where the running service loaded its code from. */
  datatype Service = Stopped | OnPlain | OnRelease(name: string)

  function LoadedFrom(live: Live): Service {
    match live
    case Plain(_) => OnPlain
    case Link(name) => OnRelease(name)
    case Missing => Stopped
  }

  /** Where the one updater process is; `update_lock` admits no second. */
  datatype Proc =
    | Idle
    // recover
    | RecoverClearing
    | RecoverPruning(keep: set<string>)
    // install: staging
    | Staging(dir: string, signed: Package)
    | Staged(incoming: string)
    // install: adopting a plain directory
    | AdoptMade(incoming: string, legacy: string)
    | AdoptJournaled(incoming: string, legacy: string)
    | AdoptMoved(incoming: string, legacy: string)
    | AdoptLinked(incoming: string, legacy: string)
    | DroppingFresh(incoming: string)
    // install: the swap
    | Adopted(incoming: string, previous: string)
    | Journaled(incoming: string, previous: string)
    | Swapped(incoming: string, previous: string)
    | Passed(incoming: string, previous: string)
    | Undoing(incoming: string, previous: string)
    | Undone(incoming: string, previous: string)
    | Unjournaled(incoming: string, previous: string)
    // the prune that ends an install or a commit
    | Pruning(keep: set<string>)

  /** `kept` is history: the tree first installed, then every tree an update was kept with. */
  datatype State = State(dir: Dir, service: Service, proc: Proc, kept: seq<Package>)

  /** One atomic step, by the part of the code it belongs to. */
  datatype Step =
    | Crash
    | Respawn
    | Recovery(r: RecoverStep)
    | Removal(x: RemoveStep)
    | Unpack(g: StageStep)
    | Adoption(a: AdoptStep)
    | Exchange(w: SwapStep)
    | Reversal(u: UndoStep)
    | Judgement(v: KeepStep)

  datatype RecoverStep = RecoverRmdir(removed: bool) | RecoverClear | RecoverPoint | RecoverDone

  datatype RemoveStep = Tear(name: string) | Drop(name: string) | PruneEnd | DropEnd

  datatype StageStep =
    | StageBegin(dir: string, signed: Package, floors: seq<string>)
    | StageFail(removed: bool)
    | StageDone(tree: Package, token: string)

  datatype AdoptStep =
    | AdoptExisting
    | AdoptMkdir(token: string)
    | AdoptJournal
    | AdoptMove
    | AdoptLink
    | AdoptClear
    | AdoptFail

  datatype SwapStep = SwapJournal | SwapLink | PendingReturn | HealthPass | Fail

  datatype UndoStep = UndoLink | UndoClear | HookRestarts | HookFails | NoHook

  datatype KeepStep = Keep | Commit

  predicate Prunable(name: string) {
    ReleaseName(name) || StagingName(name)
  }

  /** What a removal in progress may touch. */
  predicate Doomed(s: State, name: string) {
    && name in s.dir.releases
    && match s.proc
       case RecoverPruning(keep) => name !in keep && Prunable(name)
       case Pruning(keep) => name !in keep && Prunable(name)
       case DroppingFresh(incoming) => name == incoming
       case _ => false
  }

  /** When the code takes a step. */
  predicate Enabled(s: State, step: Step) {
    match step
    case Crash => !s.proc.Idle?
    case Respawn => true
    case Recovery(r) => MayRecover(s, r)
    case Removal(x) => MayRemove(s, x)
    case Unpack(g) => MayStage(s, g)
    case Adoption(a) => MayAdopt(s, a)
    case Exchange(w) => MaySwap(s, w)
    case Reversal(u) => MayUndo(s, u)
    case Judgement(v) => MayKeep(s, v)
  }

  /** What a step does. */
  function Apply(s: State, step: Step): State
    requires Enabled(s, step)
  {
    match step
    case Crash => s.(proc := Idle)
    case Respawn => s.(service := LoadedFrom(s.dir.live))
    case Recovery(r) => Recovered(s, r)
    case Removal(x) => Removed(s, x)
    case Unpack(g) => Unpacked(s, g)
    case Adoption(a) => AfterAdopt(s, a)
    case Exchange(w) => AfterSwap(s, w)
    case Reversal(u) => AfterUndo(s, u)
    case Judgement(v) => AfterKeep(s, v)
  }

  predicate MayRecover(s: State, r: RecoverStep) {
    match r
    case RecoverRmdir(_) => s.proc.Idle? && PlanRecover(s.dir).StillPlain?
    case RecoverClear => s.proc.RecoverClearing?
    case RecoverPoint => s.proc.Idle? && PlanRecover(s.dir).PutBack?
    case RecoverDone => s.proc.RecoverPruning?
  }

  function Recovered(s: State, r: RecoverStep): State
    requires MayRecover(s, r)
  {
    var d := s.dir;
    match r
    case RecoverRmdir(removed) =>
      var legacy := PlanRecover(d).legacy;
      var bare := removed && legacy in d.releases && d.releases[legacy] == Bare;
      s.(proc := RecoverClearing, dir := if bare then d.(releases := d.releases - {legacy}) else d)
    case RecoverClear => s.(proc := Idle, dir := d.(journal := None))
    case RecoverPoint =>
      s.(proc := RecoverPruning(PlanRecover(d).keep), dir := d.(live := Link(PlanRecover(d).previous)))
    case RecoverDone => s.(proc := Idle, dir := d.(journal := None))
  }

  predicate MayRemove(s: State, x: RemoveStep) {
    match x
    case Tear(name) => Doomed(s, name)
    case Drop(name) => Doomed(s, name) && s.dir.releases[name] == Torn
    case PruneEnd => s.proc.Pruning?
    case DropEnd => s.proc.DroppingFresh?
  }

  function Removed(s: State, x: RemoveStep): State
    requires MayRemove(s, x)
  {
    match x
    case Tear(name) => s.(dir := s.dir.(releases := s.dir.releases[name := Torn]))
    case Drop(name) => s.(dir := s.dir.(releases := s.dir.releases - {name}))
    case PruneEnd => s.(proc := Idle)
    case DropEnd => s.(proc := Idle)
  }

  predicate MayStage(s: State, g: StageStep) {
    match g
    case StageBegin(dir, signed, floors) =>
      && s.proc.Idle? && s.dir.journal.None?
      && StagingName(dir) && dir !in s.dir.releases
      && ManifestVersion(signed.version)
      && CheckVersionPolicy(signed.version, LiveVersion(s.dir), floors) == Install
    case StageFail(_) => s.proc.Staging?
    case StageDone(tree, token) =>
      && s.proc.Staging? && IsToken(token) && ManifestVersion(s.proc.signed.version)
      && tree == s.proc.signed
      && FreshName(s.proc.signed.version, token) !in s.dir.releases
  }

  function Unpacked(s: State, g: StageStep): State
    requires MayStage(s, g)
  {
    var d := s.dir;
    match g
    case StageBegin(dir, signed, _) =>
      s.(proc := Staging(dir, signed), dir := d.(releases := d.releases[dir := Torn]))
    case StageFail(removed) =>
      s.(proc := Idle, dir := if removed then d.(releases := d.releases - {s.proc.dir}) else d)
    case StageDone(tree, token) =>
      var incoming := FreshName(s.proc.signed.version, token);
      s.(proc := Staged(incoming), dir := d.(releases := (d.releases - {s.proc.dir})[incoming := Whole(tree)]))
  }

  predicate MayAdopt(s: State, a: AdoptStep) {
    match a
    case AdoptExisting => s.proc.Staged? && s.dir.live.Link? && Holds(s.dir, s.dir.live.name)
    case AdoptMkdir(token) =>
      && s.proc.Staged? && s.dir.live.Plain? && IsToken(token)
      && LegacyName(s.dir.live.tree.version, token) !in s.dir.releases
    case AdoptJournal => s.proc.AdoptMade?
    case AdoptMove => s.proc.AdoptJournaled? && s.dir.live.Plain?
    case AdoptLink => s.proc.AdoptMoved?
    case AdoptClear => s.proc.AdoptLinked?
    case AdoptFail =>
      s.proc.Staged? || s.proc.AdoptMade? || s.proc.AdoptJournaled? || s.proc.AdoptMoved? || s.proc.AdoptLinked?
  }

  function AfterAdopt(s: State, a: AdoptStep): State
    requires MayAdopt(s, a)
  {
    var d := s.dir;
    match a
    case AdoptExisting => s.(proc := Adopted(s.proc.incoming, d.live.name))
    case AdoptMkdir(token) =>
      var legacy := LegacyName(d.live.tree.version, token);
      s.(proc := AdoptMade(s.proc.incoming, legacy), dir := d.(releases := d.releases[legacy := Bare]))
    case AdoptJournal =>
      s.(proc := AdoptJournaled(s.proc.incoming, s.proc.legacy),
         dir := d.(journal := Some(Journal(s.proc.legacy, None))))
    case AdoptMove =>
      s.(proc := AdoptMoved(s.proc.incoming, s.proc.legacy),
         dir := d.(live := Missing, releases := d.releases[s.proc.legacy := Whole(d.live.tree)]),
         service := if s.service.OnPlain? then OnRelease(s.proc.legacy) else s.service)
    case AdoptLink =>
      s.(proc := AdoptLinked(s.proc.incoming, s.proc.legacy), dir := d.(live := Link(s.proc.legacy)))
    case AdoptClear => s.(proc := Adopted(s.proc.incoming, s.proc.legacy), dir := d.(journal := None))
    case AdoptFail => s.(proc := DroppingFresh(s.proc.incoming))
  }

  predicate MaySwap(s: State, w: SwapStep) {
    match w
    case SwapJournal => s.proc.Adopted?
    case SwapLink => s.proc.Journaled?
    case PendingReturn => s.proc.Swapped?
    case HealthPass => s.proc.Swapped?
    case Fail => s.proc.Journaled? || s.proc.Swapped? || s.proc.Passed?
  }

  function AfterSwap(s: State, w: SwapStep): State
    requires MaySwap(s, w)
  {
    var incoming, previous := s.proc.incoming, s.proc.previous;
    match w
    case SwapJournal =>
      s.(proc := Journaled(incoming, previous), dir := s.dir.(journal := Some(Journal(previous, Some(incoming)))))
    case SwapLink => s.(proc := Swapped(incoming, previous), dir := s.dir.(live := Link(incoming)))
    case PendingReturn => s.(proc := Idle)
    case HealthPass => s.(proc := Passed(incoming, previous))
    case Fail => s.(proc := Undoing(incoming, previous))
  }

  predicate MayUndo(s: State, u: UndoStep) {
    match u
    case UndoLink => s.proc.Undoing?
    case UndoClear => s.proc.Undone?
    case _ => s.proc.Unjournaled?
  }

  function AfterUndo(s: State, u: UndoStep): State
    requires MayUndo(s, u)
  {
    var incoming, previous := s.proc.incoming, s.proc.previous;
    match u
    case UndoLink => s.(proc := Undone(incoming, previous), dir := s.dir.(live := Link(previous)))
    case UndoClear => s.(proc := Unjournaled(incoming, previous), dir := s.dir.(journal := None))
    case HookRestarts => s.(proc := Pruning({previous}), service := LoadedFrom(s.dir.live))
    case HookFails => s.(proc := Pruning({previous, incoming}))
    case NoHook => s.(proc := Pruning({previous}))
  }

  predicate MayKeep(s: State, v: KeepStep) {
    match v
    case Keep => s.proc.Passed?
    case Commit => s.proc.Idle? && PlanCommit(s.dir).KeepPending?
  }

  function AfterKeep(s: State, v: KeepStep): State
    requires MayKeep(s, v)
  {
    var keep := match v
                case Keep => {s.proc.incoming, s.proc.previous}
                case Commit => {PlanCommit(s.dir).incoming, PlanCommit(s.dir).previous};
    var kept := match LiveTree(s.dir) case Some(tree) => s.kept + [tree] case None => s.kept;
    s.(proc := Pruning(keep), dir := s.dir.(journal := None), kept := kept)
  }

  /******* Histories *******/

  predicate Possible(s: State, steps: seq<Step>)
    decreases |steps|
  {
    steps == [] || (Enabled(s, steps[0]) && Possible(Apply(s, steps[0]), steps[1..]))
  }

  function Exec(s: State, steps: seq<Step>): State
    requires Possible(s, steps)
    decreases |steps|
  {
    if steps == [] then s else Exec(Apply(s, steps[0]), steps[1..])
  }

  /** A host as the installer leaves it: a plain tree, no journal, the service on it or not started. */
  predicate Installed(s: State) {
    && s.dir.live.Plain? && s.dir.releases == map[] && s.dir.journal.None?
    && (s.service.Stopped? || s.service.OnPlain?)
    && s.proc.Idle? && s.kept == [s.dir.live.tree]
  }
}
