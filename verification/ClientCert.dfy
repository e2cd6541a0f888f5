/**
 The client certificate store of agent/mtls.py.

 A key, certificate or metadata file is represented by the enrolment (a number)
 its content came from; a key and a certificate load together exactly when they
 came from the same one. Every write and rename is one step, and the process may
 die after any of them.
 */
module ClientCert {
  import opened Prelude

  type Generation = nat

  datatype Files = Files(key: Option<Generation>, meta: Option<Generation>, cert: Option<Generation>,
                         nextKey: Option<Generation>, nextMeta: Option<Generation>, nextCert: Option<Generation>)

  datatype Triple = Triple(key: Option<Generation>, meta: Option<Generation>, cert: Option<Generation>)

  function Of(g: Generation): Triple {
    Triple(Some(g), Some(g), Some(g))
  }

  function Installed(f: Files): Triple {
    Triple(f.key, f.meta, f.cert)
  }

  /** What the files stand for: the staged enrolment once its certificate is staged, else what is installed. */
  function Effective(f: Files): Triple {
    if f.nextCert.Some? then Of(f.nextCert.value) else Installed(f)
  }

  /** A staged certificate implies that its key, and its metadata, are staged or already moved in. */
  predicate Inv(f: Files) {
    f.nextCert.Some? ==>
      && (f.nextKey == f.nextCert || (f.nextKey.None? && f.key == f.nextCert))
      && (f.nextMeta == f.nextCert || (f.nextMeta.None? && f.meta == f.nextCert))
  }

  /******* The steps *******/

  function StageKey(f: Files, g: Generation): Files { f.(nextKey := Some(g)) }

  function StageMeta(f: Files, g: Generation): Files { f.(nextMeta := Some(g)) }

  function StageCert(f: Files, g: Generation): Files { f.(nextCert := Some(g)) }

  function MoveKey(f: Files): Files { if f.nextKey.Some? then f.(key := f.nextKey, nextKey := None) else f }

  function MoveMeta(f: Files): Files { if f.nextMeta.Some? then f.(meta := f.nextMeta, nextMeta := None) else f }

  function MoveCert(f: Files): Files { if f.nextCert.Some? then f.(cert := f.nextCert, nextCert := None) else f }

  /** The states `_move_staged_in` passes through, the last one included. */
  function MoveTrace(f: Files): seq<Files> {
    [MoveKey(f), MoveMeta(MoveKey(f)), MoveCert(MoveMeta(MoveKey(f)))]
  }

  /** The states `install` passes through. */
  function InstallTrace(f: Files, g: Generation): seq<Files> {
    var staged := StageCert(StageMeta(StageKey(f, g), g), g);
    [StageKey(f, g), StageMeta(StageKey(f, g), g), staged] + MoveTrace(staged)
  }

  /** The states `_finish_interrupted_install` passes through. */
  function RepairTrace(f: Files): seq<Files> {
    if f.nextCert.Some? then MoveTrace(f)
    else [f.(nextKey := None), f.(nextKey := None, nextMeta := None)]
  }

  /** The states `_discard` passes through: the certificate goes first. */
  function DropTrace(f: Files): seq<Files> {
    [f.(cert := None), f.(cert := None, key := None), f.(cert := None, key := None, meta := None)]
  }

  /******* Lives of the worker *******/

  /**
   A start whose repair dies after `steps` steps (or completes), an install that does,
   or the discard of a pair that does not load.
   */
  datatype Event = Repair(steps: nat) | Install(g: Generation, steps: nat) | Drop(steps: nat)

  datatype Store = Store(files: Files, ready: bool)

  function At(f: Files, trace: seq<Files>, steps: nat): Files
    requires trace != []
  {
    if steps == 0 then f else if steps <= |trace| then trace[steps - 1] else trace[|trace| - 1]
  }

  /** A key and a certificate that do not belong together. */
  predicate Mismatched(t: Triple) {
    t.key.Some? && t.cert.Some? && t.key != t.cert
  }

  /** All but the repair happens only in a worker whose repair completed and that has not died since. */
  predicate Allowed(s: Store, e: Event) {
    match e
    case Repair(_) => true
    case Install(_, _) => s.ready
    case Drop(_) => s.ready && Mismatched(Installed(s.files))
  }

  function Trace(f: Files, e: Event): (trace: seq<Files>)
    ensures trace != []
  {
    match e
    case Repair(_) => RepairTrace(f)
    case Install(g, _) => InstallTrace(f, g)
    case Drop(_) => DropTrace(f)
  }

  function Next(s: Store, e: Event): Store
    requires Allowed(s, e)
  {
    var trace := Trace(s.files, e);
    Store(At(s.files, trace, e.steps), e.steps >= |trace|)
  }

  predicate Possible(s: Store, events: seq<Event>)
    decreases |events|
  {
    events == [] || (Allowed(s, events[0]) && Possible(Next(s, events[0]), events[1..]))
  }

  function Run(s: Store, events: seq<Event>): Store
    requires Possible(s, events)
    decreases |events|
  {
    if events == [] then s else Run(Next(s, events[0]), events[1..])
  }

  /** What is left of a pair whose discard took that many steps. */
  function Remains(t: Triple, steps: nat): Triple {
    Triple(if steps >= 2 then None else t.key, if steps >= 3 then None else t.meta, if steps >= 1 then None else t.cert)
  }

  /** An install counts once it staged its certificate, a discard from its first step on. */
  function After(t: Triple, e: Event): Triple {
    match e
    case Repair(_) => t
    case Install(g, steps) => if steps >= 3 then Of(g) else t
    case Drop(steps) => Remains(t, steps)
  }

  /** What counts after a history: the last enrolment that got as far as staging its certificate, if any. */
  function Latest(initial: Triple, events: seq<Event>): Triple
    decreases |events|
  {
    if events == [] then initial else Latest(After(initial, events[0]), events[1..])
  }

  predicate Nothing(f: Files) {
    f.nextKey.None? && f.nextMeta.None? && f.nextCert.None?
  }

  predicate StoreInv(s: Store) {
    Inv(s.files) && (s.ready ==> Nothing(s.files))
  }

  /** Staging the certificate is the one step of an install or a repair that changes what the files stand for. */
  lemma StepOfStore(s: Store, e: Event)
    requires StoreInv(s) && Allowed(s, e)
    ensures StoreInv(Next(s, e))
    ensures Effective(Next(s, e).files) == After(Effective(s.files), e)
  {
    if e.Install? {
      assert |InstallTrace(s.files, e.g)| == 6;
    }
  }

  /**
   Key and certificate replace as a pair. Whatever sequence of repairs, installs and
   discards, each cut short anywhere, what the files stand for is wholly the initial
   set, wholly the latest enrolment, or what a discard left of a mismatched pair; and
   whatever completes leaves exactly that on disk with nothing staged.
   */
  lemma {:induction false} PairReplacesAsOne(s: Store, events: seq<Event>)
    requires StoreInv(s) && Possible(s, events)
    ensures var t := Run(s, events);
            && StoreInv(t)
            && Effective(t.files) == Latest(Effective(s.files), events)
            && (t.ready ==> Installed(t.files) == Latest(Effective(s.files), events) && Nothing(t.files))
    decreases |events|
  {
    if events != [] {
      StepOfStore(s, events[0]);
      PairReplacesAsOne(Next(s, events[0]), events[1..]);
    }
  }

  /**
   A mismatched pair can only have been there from the start. Once there is none there
   never is one again, nothing is ever discarded, and the files stand for the initial
   set or for an enrolment of the history.
   */
  lemma {:induction false} NeverMismatchedAgain(s: Store, events: seq<Event>)
    requires StoreInv(s) && Possible(s, events) && !Mismatched(Effective(s.files))
    ensures var t := Effective(Run(s, events).files);
            && !Mismatched(t)
            && (t == Effective(s.files) || exists k :: 0 <= k < |events| && events[k].Install? && t == Of(events[k].g))
    ensures forall k :: 0 <= k < |events| ==> !events[k].Drop?
    decreases |events|
  {
    if events != [] {
      var e, s' := events[0], Next(s, events[0]);
      StepOfStore(s, e);
      NeverMismatchedAgain(s', events[1..]);
      var t := Effective(Run(s, events).files);
      if t != Effective(s'.files) {
        var k :| 0 <= k < |events[1..]| && events[1..][k].Install? && t == Of(events[1..][k].g);
        assert events[k + 1] == events[1..][k];
      }
      assert forall k :: 1 <= k < |events| ==> events[k] == events[1..][k - 1];
    }
  }

  /** From its first step on a discard has left no pair, until an install puts a matching one there. */
  lemma DropLeavesNoPair(s: Store, steps: nat)
    requires StoreInv(s) && Allowed(s, Drop(steps)) && steps > 0
    ensures Effective(Next(s, Drop(steps)).files).cert.None? && !Mismatched(Effective(Next(s, Drop(steps)).files))
  {
    StepOfStore(s, Drop(steps));
  }

  /** A worker that dies anywhere and is repaired at its next start is ready, from every state. */
  lemma RepairCompletes(s: Store)
    requires StoreInv(s)
    ensures Next(s, Repair(3)).ready && Installed(Next(s, Repair(3)).files) == Effective(s.files)
  {
    StepOfStore(s, Repair(3));
  }

  /**
   Why the repair has to come first: staging the next key over a certificate still
   staged keeps the invariant exactly when it is that certificate's key.
   */
  lemma StageKeyNeedsRepair(f: Files, g: Generation)
    requires Inv(f)
    ensures Inv(StageKey(f, g)) <==> f.nextCert.None? || f.nextCert == Some(g)
  {
  }

  /******* The object *******/

  const EXPIRY_MARGIN := 300.0
  const RETRY := 300.0

  /** What the certificates of an enrolment say, as far as it can be read. */
  datatype Lifetimes = Lifetimes(notAfter: map<Generation, real>, renewAfter: map<Generation, real>)

  function NotAfter(life: Lifetimes, cert: Option<Generation>): Option<real> {
    if cert.Some? && cert.value in life.notAfter then Some(life.notAfter[cert.value]) else None
  }

  function RenewAfter(life: Lifetimes, f: Files): Option<real> {
    if f.meta.Some? && f.meta.value in life.renewAfter then Some(life.renewAfter[f.meta.value]) else None
  }

  predicate Present(f: Files) {
    f.cert.Some? && f.key.Some?
  }

  function Stamp(f: Files): Option<(Generation, Generation)> {
    if Present(f) then Some((f.cert.value, f.key.value)) else None
  }

  predicate RunsOut(expiry: Option<real>, now: real) {
    expiry.Some? && now >= expiry.value - EXPIRY_MARGIN
  }

  /** What a TLS context presents, and until when it knows the certificate to last. */
  datatype Context = Context(presents: bool, until: Option<real>)

  class ClientCertificate {
    var files: Files
    const enrol: bool
    const repair: bool
    const life: Lifetimes
    var presenting: bool
    var presentedUntil: Option<real>
    var loadedStamp: Option<(Generation, Generation)>
    var forced: bool
    var nextAttempt: real
    ghost var trace: seq<Files>

    constructor (files: Files, enrol: bool, repair: bool, life: Lifetimes)
      ensures this.files == files && this.enrol == enrol && this.repair == (enrol && repair) && this.life == life
      ensures !presenting && presentedUntil.None? && loadedStamp.None? && !forced && nextAttempt == 0.0 && trace == []
    {
      this.files, this.enrol, this.repair, this.life := files, enrol, enrol && repair, life;
      presenting, presentedUntil, loadedStamp, forced, nextAttempt := false, None, None, false, 0.0;
      trace := [];
    }

    /** `install`, for an answer that carries a certificate. */
    method InstallPair(g: Generation)
      modifies this
      ensures trace == old(trace) + InstallTrace(old(files), g) && files == trace[|trace| - 1]
      ensures !forced && nextAttempt == 0.0
      ensures unchanged(`presenting) && unchanged(`presentedUntil) && unchanged(`loadedStamp)
      ensures Installed(files) == Of(g) && Nothing(files)
    {
      files := StageKey(files, g);
      trace := trace + [files];
      files := StageMeta(files, g);
      trace := trace + [files];
      files := StageCert(files, g);
      trace := trace + [files];
      MoveStagedIn();
      forced, nextAttempt := false, 0.0;
    }

    method MoveStagedIn()
      modifies `files, `trace
      ensures trace == old(trace) + MoveTrace(old(files)) && files == trace[|trace| - 1]
    {
      files := MoveKey(files);
      trace := trace + [files];
      files := MoveMeta(files);
      trace := trace + [files];
      files := MoveCert(files);
      trace := trace + [files];
    }

    method FinishInterruptedInstall()
      modifies `files, `trace
      ensures trace == old(trace) + RepairTrace(old(files)) && files == trace[|trace| - 1]
      ensures Inv(old(files)) ==> Installed(files) == Effective(old(files)) && Nothing(files)
    {
      if files.nextCert.Some? {
        MoveStagedIn();
      } else {
        files := files.(nextKey := None);
        trace := trace + [files];
        files := files.(nextMeta := None);
        trace := trace + [files];
      }
    }

    /** `_discard`: the certificate first, so that a pair cut short here is no pair. */
    method Discard()
      modifies `files, `trace
      ensures trace == old(trace) + DropTrace(old(files)) && files == trace[|trace| - 1]
      ensures forall i :: |old(trace)| <= i < |trace| ==> !Present(trace[i])
    {
      files := files.(cert := None);
      trace := trace + [files];
      files := files.(key := None);
      trace := trace + [files];
      files := files.(meta := None);
      trace := trace + [files];
    }

    /**
     `ssl_context` at time `now`; `None` is `ClientCertConfigError`, for files that cannot
     be read and for a pair of somebody else's that does not load. What is presented is a
     pair from one enrolment that does not run out within the margin; a pair of its own
     that does not load is dropped. A call that raises has already cleared `presenting`.
     */
    method SslContext(now: real, readable: bool) returns (context: Option<Context>)
      requires Inv(files)
      modifies this
      ensures context.None? <==> Blocked(Found(old(files)), now, readable)
      ensures context.Some? ==> context.value == Context(presenting, presentedUntil)
      ensures context.Some? ==> (presenting <==> Present(files) && !RunsOut(NotAfter(life, files.cert), now))
      ensures presenting ==> files.key == files.cert && presentedUntil == NotAfter(life, files.cert)
      ensures presenting ==> files.cert.Some? && (files.cert.value in life.notAfter ==>
                presentedUntil == Some(life.notAfter[files.cert.value])
                && now + EXPIRY_MARGIN < life.notAfter[files.cert.value])
      ensures var t := Found(old(files));
              && t.key.Some? && t.cert.Some?
              && (t.cert.value in life.notAfter ==> now + EXPIRY_MARGIN < life.notAfter[t.cert.value]) ==>
                && (readable && t.key == t.cert ==> presenting && context.Some?)
                && (!readable || (!repair && t.key != t.cert) ==> context.None?)
                && (readable && repair && t.key != t.cert ==>
                      context.Some? && !presenting && files.cert.None? && forced)
      ensures context.Some? ==>
                loadedStamp == if files.key.Some? && files.cert.Some? then Some((files.cert.value, files.key.value))
                               else None
      ensures context.None? || !presenting ==> !presenting && presentedUntil.None?
      ensures loadedStamp == (if context.Some? then Stamp(files) else old(loadedStamp))
              && nextAttempt == old(nextAttempt)
      ensures forced == (old(forced) || Dropped(Found(old(files)), now, readable))
      ensures Installed(files) == if Dropped(Found(old(files)), now, readable) then Triple(None, None, None)
                                  else Found(old(files))
      ensures !repair ==> files == old(files)
      ensures Inv(files)
      ensures trace == old(trace) + ContextTrace(old(files), now, readable)
    {
      if repair {
        FinishInterruptedInstall();
      }
      presenting, presentedUntil := false, None;
      if Present(files) && !RunsOut(NotAfter(life, files.cert), now) {
        if !readable {
          return None;
        } else if files.key == files.cert {
          presenting, presentedUntil := true, NotAfter(life, files.cert);
        } else if repair {
          Discard();
          forced := true;
        } else {
          return None;
        }
      }
      loadedStamp := Stamp(files);
      context := Some(Context(presenting, presentedUntil));
    }

    /** The states `ssl_context` passes through: those of the repair, then those of the discard. */
    ghost function ContextTrace(f: Files, now: real, readable: bool): seq<Files> {
      var repaired := if repair then RepairTrace(f) else [];
      var found := if repaired == [] then f else repaired[|repaired| - 1];
      repaired + if Dropped(Installed(found), now, readable) then DropTrace(found) else []
    }

    /** What `ssl_context` finds once it repaired, where it repairs. */
    function Found(f: Files): Triple {
      if repair then Effective(f) else Installed(f)
    }

    /** A pair that would be presented and cannot be: unreadable, or somebody else's and mismatched. */
    predicate Blocked(t: Triple, now: real, readable: bool) {
      && t.key.Some? && t.cert.Some? && !RunsOut(NotAfter(life, t.cert), now)
      && (!readable || (!repair && t.key != t.cert))
    }

    /** A pair this process owns, about to be presented, that does not load. */
    predicate Dropped(t: Triple, now: real, readable: bool) {
      repair && readable && Mismatched(t) && !RunsOut(NotAfter(life, t.cert), now)
    }

    predicate NeedsReload(now: real)
      reads this
    {
      Stamp(files) != loadedStamp || (presenting && RunsOut(presentedUntil, now))
    }

    predicate EnrolmentDue(now: real)
      reads this
    {
      enrol && now >= nextAttempt &&
      (forced || !Present(files) || RunsOut(NotAfter(life, files.cert), now) ||
       RenewAfter(life, files).None? || now >= RenewAfter(life, files).value)
    }

    /** Somebody else replaces the files of a mounted pair. */
    method Rotate(t: Triple)
      modifies `files
      ensures files == Files(t.key, t.meta, t.cert, None, None, None)
    {
      files := Files(t.key, t.meta, t.cert, None, None, None);
    }

    /** `force_enrolment` does not cut a retry delay short. */
    method ForceEnrolment()
      modifies `forced
      ensures forced
    {
      forced := true;
    }

    method EnrolmentFailed(now: real)
      modifies `nextAttempt
      ensures nextAttempt == now + RETRY
    {
      nextAttempt := now + RETRY;
    }

    predicate RetryPending(now: real)
      reads this
    {
      now < nextAttempt
    }

    /**
     `_after_client_cert_refusal` for a certificate an enrolment can replace. The next
     poll enrols exactly when the retry delay is over; in either case an enrolment is
     due once the wait is.
     */
    method AfterRefusal(now: real, pollInterval: real) returns (wait: real, checkNow: bool)
      requires pollInterval >= 0.0
      modifies `forced
      ensures forced && (checkNow <==> now >= nextAttempt) && (enrol ==> (checkNow <==> EnrolmentDue(now)))
      ensures if checkNow then 0.0 <= wait <= pollInterval && wait <= 5.0 else wait == RETRY
      ensures enrol && nextAttempt <= now + RETRY ==> EnrolmentDue(now + wait)
    {
      var pending := RetryPending(now);
      ForceEnrolment();
      if !pending {
        return if pollInterval <= 5.0 then pollInterval else 5.0, true;
      }
      return RETRY, false;
    }
  }

  /** The part of `AgentClient` that holds the context in use: it changes only when a new one was built. */
  class AgentClient {
    const cert: ClientCertificate
    var opener: Context

    constructor (cert: ClientCertificate)
      ensures this.cert == cert && opener == Context(cert.presenting, cert.presentedUntil)
    {
      this.cert := cert;
      opener := Context(cert.presenting, cert.presentedUntil);
    }

    /** `reload_client_certificate`: when `ssl_context` raises, the old context stays in use. */
    method Reload(now: real, readable: bool) returns (ok: bool)
      requires Inv(cert.files)
      modifies this, cert
      ensures ok <==> !cert.Blocked(cert.Found(old(cert.files)), now, readable)
      ensures opener == if ok then Context(cert.presenting, cert.presentedUntil) else old(opener)
      ensures Inv(cert.files) && (opener.presents && ok ==> !RunsOut(opener.until, now))
      ensures !ok ==> !cert.presenting && cert.presentedUntil.None?
      ensures ok ==> cert.loadedStamp == Stamp(cert.files)
      ensures ok && opener.presents ==>
                cert.files.cert.Some? && (cert.files.cert.value in cert.life.notAfter ==>
                  opener.until == Some(cert.life.notAfter[cert.files.cert.value]))
      ensures cert.nextAttempt == old(cert.nextAttempt)
      ensures !ok ==> cert.loadedStamp == old(cert.loadedStamp) && Installed(cert.files) == cert.Found(old(cert.files))
      ensures !cert.repair ==> cert.files == old(cert.files)
      ensures ok ==> (opener.presents <==> Present(cert.files) && !RunsOut(NotAfter(cert.life, cert.files.cert), now))
      ensures var found := cert.Found(old(cert.files));
              cert.Dropped(found, now, readable)
              || (Installed(cert.files) == found && cert.forced == old(cert.forced))
    {
      var context := cert.SslContext(now, readable);
      if context.None? {
        return false;
      }
      opener := context.value;
      ok := true;
    }

    /** The client as the passes over time see it. */
    ghost function Watched(looked: real, failed: Option<real>): Watch
      reads this, cert
    {
      Watch(opener, cert.presenting, cert.presentedUntil, cert.nextAttempt, looked, failed)
    }

    /**
     `_maintain_client_certificate`: reload when asked to, enrol when due. Each pass is
     one of the turns the theorems below are about, and a reload raises exactly when the
     pair it finds is blocked. A pass that asks for nothing once the delay is over has a
     certificate that is there, lasts and was not refused; one that was answered ends
     with the new pair. `answer` is the enrolment the API issued, if it did; the times
     are when each part of the pass happened, `readable` whether the files could be read
     then.
     */
    method Maintain(now: real, reloadAt: real, dueAt: real, endAt: real, answer: Option<Generation>,
                    readable: (bool, bool),
                    ghost looked: real, ghost failed: Option<real>)
      returns (ghost turn: Turn)
      requires Inv(cert.files) && looked <= now <= reloadAt <= dueAt <= endAt
      modifies this, cert
      ensures Inv(cert.files) && turn.now == now && GoodTurn(old(Watched(looked, failed)), turn)
      ensures var next := AfterTurn(old(Watched(looked, failed)), turn); Watched(now, next.failed) == next
      ensures turn.reload.NotAsked? <==> !old(cert.NeedsReload(now))
      ensures var f := old(cert.files);
              turn.reload.NotAsked? <==>
                && old(cert.loadedStamp) == (if f.key.Some? && f.cert.Some? then Some((f.cert.value, f.key.value))
                                             else None)
                && !(old(cert.presenting) && old(cert.presentedUntil).Some?
                     && now >= old(cert.presentedUntil).value - EXPIRY_MARGIN)
      ensures !turn.reload.Raised? && !turn.attempt.Unloaded? ==>
                cert.loadedStamp == if cert.files.key.Some? && cert.files.cert.Some?
                                    then Some((cert.files.cert.value, cert.files.key.value)) else None
      ensures !cert.enrol ==> turn.attempt.NoAttempt?
      ensures var t, life := Installed(old(cert.files)), cert.life;
              && Nothing(old(cert.files)) && !turn.reload.Raised? && !old(cert.forced)
              && t.key.Some? && t.cert.Some? && (cert.repair ==> t.key == t.cert)
              && (t.cert.value in life.notAfter ==> dueAt + EXPIRY_MARGIN < life.notAfter[t.cert.value]) ==>
                (!turn.attempt.NoAttempt? <==>
                   && cert.enrol && dueAt >= old(cert.nextAttempt)
                   && (t.meta.None? || t.meta.value !in life.renewAfter || dueAt >= life.renewAfter[t.meta.value]))
      ensures turn.reload.Raised? <==>
                old(cert.NeedsReload(now)) && cert.Blocked(cert.Found(old(cert.files)), reloadAt, readable.0)
      ensures !turn.attempt.NoAttempt? ==> turn.attempt.start == dueAt && turn.attempt.end == endAt
      ensures turn.attempt.Unloaded? ==> answer.Some? && cert.Blocked(Of(answer.value), endAt, readable.1)
      ensures turn.reload.Raised? && !cert.repair ==>
              cert.files == old(cert.files) && cert.loadedStamp == old(cert.loadedStamp)
      ensures cert.enrol && !turn.reload.Raised? && turn.attempt.NoAttempt? && dueAt >= old(cert.nextAttempt) ==>
                Present(cert.files) && !RunsOut(NotAfter(cert.life, cert.files.cert), dueAt) && !cert.forced
      ensures turn.attempt.Succeeds? ==>
                && answer.Some? && Installed(cert.files) == Of(answer.value) && !cert.forced
                && (opener.presents <==> !RunsOut(NotAfter(cert.life, answer), endAt))
    {
      hide Inv, Stamp, ClientCertificate.NeedsReload, ClientCertificate.Blocked, ClientCertificate.Found;
      var reload := ReloadIfAsked(now, reloadAt, readable.0, looked, failed);
      turn := Turn(now, reload, NoAttempt);
      if !reload.Raised? && cert.EnrolmentDue(dueAt) {
        turn := Enrol(dueAt, endAt, answer, readable.1, turn);
      }
    }

    /** The first half of a pass. */
    method ReloadIfAsked(now: real, reloadAt: real, readable: bool, ghost looked: real, ghost failed: Option<real>)
      returns (reload: Reload)
      requires Inv(cert.files) && now <= reloadAt
      modifies this, cert
      ensures Inv(cert.files) && Watched(looked, failed) == AfterReload(old(Watched(looked, failed)), reload)
      ensures reload.NotAsked? <==> !old(cert.NeedsReload(now))
      ensures var f := old(cert.files);
              reload.NotAsked? <==>
                && old(cert.loadedStamp) == (if f.key.Some? && f.cert.Some? then Some((f.cert.value, f.key.value))
                                             else None)
                && !(old(cert.presenting) && old(cert.presentedUntil).Some?
                     && now >= old(cert.presentedUntil).value - EXPIRY_MARGIN)
      ensures reload.Raised? <==>
                old(cert.NeedsReload(now)) && cert.Blocked(cert.Found(old(cert.files)), reloadAt, readable)
      ensures match reload
              case NotAsked => true
              case Raised(at) => at == reloadAt
              case Built(at, context) => at == reloadAt && GoodContext(context, at)
      ensures reload.Raised? ||
              cert.loadedStamp == if cert.files.key.Some? && cert.files.cert.Some?
                                  then Some((cert.files.cert.value, cert.files.key.value)) else None
      ensures reload.NotAsked? || (reload.Raised? && !cert.repair) ==>
                cert.files == old(cert.files) && cert.loadedStamp == old(cert.loadedStamp)
      ensures Nothing(old(cert.files)) && (cert.repair ==> !Mismatched(Installed(old(cert.files)))) ==>
                Installed(cert.files) == Installed(old(cert.files)) && cert.forced == old(cert.forced)
    {
      if !cert.NeedsReload(now) {
        return NotAsked;
      }
      var ok := Reload(reloadAt, readable);
      return if ok then Built(reloadAt, opener) else Raised(reloadAt);
    }

    /** The enrolment of a pass: any error in it, the reload's own included, sets the retry delay. */
    method Enrol(dueAt: real, endAt: real, answer: Option<Generation>, readable: bool, ghost before: Turn)
      returns (ghost turn: Turn)
      requires Inv(cert.files)
      modifies this, cert
      ensures Inv(cert.files) && turn == before.(attempt := turn.attempt)
      ensures match turn.attempt
              case NoAttempt => false
              case Fails(start, end) =>
                && start == dueAt && end == endAt && answer.None? && opener == old(opener)
                && cert.nextAttempt == endAt + RETRY
                && cert.presenting == old(cert.presenting) && cert.presentedUntil == old(cert.presentedUntil)
                && cert.files == old(cert.files) && cert.loadedStamp == old(cert.loadedStamp)
              case Unloaded(start, end) =>
                && start == dueAt && end == endAt && opener == old(opener)
                && answer.Some? && cert.Blocked(Of(answer.value), endAt, readable)
                && cert.nextAttempt == endAt + RETRY
                && !cert.presenting && cert.presentedUntil.None?
              case Succeeds(start, end, context) =>
                && start == dueAt && end == endAt && context == opener && cert.nextAttempt == 0.0 && !cert.forced
                && opener == Context(cert.presenting, cert.presentedUntil)
                && (opener.presents ==> !RunsOut(opener.until, endAt))
                && answer.Some? && Installed(cert.files) == Of(answer.value)
                && cert.loadedStamp == Some((answer.value, answer.value))
                && (opener.presents <==> !RunsOut(NotAfter(cert.life, answer), endAt))
    {
      if answer.None? {
        cert.EnrolmentFailed(endAt);
        return before.(attempt := Fails(dueAt, endAt));
      }
      cert.InstallPair(answer.value);
      var ok := Reload(endAt, readable);
      if !ok {
        cert.EnrolmentFailed(endAt);
        return before.(attempt := Unloaded(dueAt, endAt));
      }
      turn := before.(attempt := Succeeds(dueAt, endAt, opener));
    }

    /**
     Any number of passes, with refusals and, where the pair is mounted, any rotation of
     its files before each. If no pass finds a blocked pair, the certificate in use is
     short of its known end for a margin after the last look; and every attempt keeps
     its distance from the last one that failed. `found` is what each pass found.
     */
    method Passes(passes: seq<Pass>, ghost since: real, ghost looked: real, ghost failed: Option<real>)
      returns (ghost turns: seq<Turn>, ghost found: seq<Triple>)
      requires Inv(cert.files) && looked <= since && Scheduled(passes, since)
      requires Current(Watched(looked, failed)) && Paced(Watched(looked, failed), since)
      modifies this, cert
      ensures Inv(cert.files) && |turns| == |found| == |passes| && GoodTurns(old(Watched(looked, failed)), turns, since)
      ensures forall k :: 0 <= k < |passes| && !cert.repair ==> found[k] == passes[k].found
      ensures var last := AfterTurns(old(Watched(looked, failed)), turns);
              opener == last.context && last.looked == LastLook(passes, looked)
      ensures (forall k :: 0 <= k < |passes| ==> Clear(passes[k], found[k])) ==>
                InTime(opener, LastLook(passes, looked))
      ensures forall k :: 0 <= k < |turns| && !turns[k].attempt.NoAttempt? ==>
                var last := AfterTurns(old(Watched(looked, failed)), turns[..k]).failed;
                last.Some? ==> Start(turns[k].attempt) >= last.value + RETRY
    {
      hide GoodTurn, GoodTurns, AfterTurn, AfterTurns, Current, Paced, Stale, Clear, Finished, Inv, InTime;
      ghost var w, fails := Watched(looked, failed), failed;
      NoTurnYet(w, since);
      turns, found := [], [];
      for n := 0 to |passes|
        invariant Inv(cert.files) && |turns| == |found| == n && GoodTurns(w, turns, since)
        invariant Watched(LastLook(passes[..n], looked), fails) == AfterTurns(w, turns)
        invariant LastFinished(turns, since) <= if n == 0 then since else passes[n - 1].endAt
        invariant LastLook(passes[..n], looked) <= if n == 0 then since else passes[n - 1].endAt
        invariant forall k :: 0 <= k < n && !cert.repair ==> found[k] == passes[k].found
        invariant (forall k :: 0 <= k < n ==> Clear(passes[k], found[k])) ==>
                    forall k :: 0 <= k < n ==> !turns[k].reload.Raised? && !turns[k].attempt.Unloaded?
      {
        ghost var turn, triple := OnePass(passes[n], LastLook(passes[..n], looked), fails);
        OneMoreTurn(w, turns, turn, since);
        assert passes[..n + 1][n] == passes[n];
        fails := AfterTurns(w, turns + [turn]).failed;
        turns, found := turns + [turn], found + [triple];
      }
      assert passes[..|passes|] == passes;
      Conclusions(w, turns, since);
      if forall k :: 0 <= k < |passes| ==> Clear(passes[k], found[k]) {
        ReturnsAreNotStale(turns);
      }
    }

    /** What may come before a pass, and the pass. */
    method OnePass(p: Pass, ghost looked: real, ghost failed: Option<real>)
      returns (ghost turn: Turn, ghost found: Triple)
      requires Inv(cert.files) && looked <= p.now <= p.reloadAt <= p.dueAt <= p.endAt
      modifies this, cert
      ensures Inv(cert.files) && turn.now == p.now && GoodTurn(old(Watched(looked, failed)), turn)
      ensures var next := AfterTurn(old(Watched(looked, failed)), turn); Watched(p.now, next.failed) == next
      ensures p.now <= Finished(turn) <= p.endAt && (!cert.repair ==> found == p.found)
      ensures Clear(p, found) ==> !turn.reload.Raised? && !turn.attempt.Unloaded?
    {
      hide GoodTurn, AfterTurn;
      if !cert.repair {
        cert.Rotate(p.found);
      }
      if p.refused {
        cert.ForceEnrolment();
      }
      found := cert.Found(cert.files);
      turn := Maintain(p.now, p.reloadAt, p.dueAt, p.endAt, p.answer, p.readable, looked, failed);
    }

    /** A pass whose reload, and whose enrolment's reload, do not meet a blocked pair. */
    ghost predicate Clear(p: Pass, found: Triple) {
      && !cert.Blocked(found, p.reloadAt, p.readable.0)
      && (p.answer.Some? ==> !cert.Blocked(Of(p.answer.value), p.endAt, p.readable.1))
    }

    /**
     A mounted pair rotated to one that does not load, looked at every minute: whatever
     the certificate in use says about its end, it is still the one presented after any
     number of passes.
     */
    method PassesOverMismatch(start: real, passes: nat)
      requires Inv(cert.files) && !cert.repair && !cert.enrol
      requires Mismatched(Installed(cert.files)) && Stamp(cert.files) != cert.loadedStamp
      requires !RunsOut(NotAfter(cert.life, cert.files.cert), start + 60.0 * passes as real)
      modifies this, cert
      ensures opener == old(opener)
    {
      var now := start;
      for k := 0 to passes
        invariant now == start + 60.0 * k as real
        invariant opener == old(opener) && cert.files == old(cert.files) && cert.loadedStamp == old(cert.loadedStamp)
      {
        ghost var turn := Maintain(now, now, now, now, None, (true, true), now, None);
        now := now + 60.0;
      }
    }
  }

  /******* Pacing and expiry over time *******/

  /**
   What the passes act on: the context in use, what the certificate object believes is
   presented, the retry delay, when the certificate was last looked at, and when an
   enrolment last failed.
   */
  datatype Watch = Watch(context: Context, presenting: bool, until: Option<real>, nextAttempt: real,
                         looked: real, failed: Option<real>)

  datatype Reload = NotAsked | Raised(at: real) | Built(at: real, context: Context)

  /** `Unloaded` is an enrolment that was answered and installed, and whose reload raised. */
  datatype Attempt =
    | NoAttempt
    | Fails(start: real, end: real)
    | Unloaded(start: real, end: real)
    | Succeeds(start: real, end: real, context: Context)

  /** One pass of `_maintain_client_certificate`, begun at `now`. */
  datatype Turn = Turn(now: real, reload: Reload, attempt: Attempt)

  /**
   What a pass meets: the files somebody else left (where they are mounted), whether the
   API refused the certificate since the last one, when each part happens, what the API
   issues, and whether the files can be read.
   */
  datatype Pass = Pass(found: Triple, refused: bool, now: real, reloadAt: real, dueAt: real, endAt: real,
                       answer: Option<Generation>, readable: (bool, bool))

  predicate Scheduled(passes: seq<Pass>, since: real) {
    && (forall k :: 0 <= k < |passes| ==>
          passes[k].now <= passes[k].reloadAt <= passes[k].dueAt <= passes[k].endAt)
    && (forall k :: 0 < k < |passes| ==> passes[k - 1].endAt <= passes[k].now)
    && (passes != [] ==> since <= passes[0].now)
  }

  function LastLook(passes: seq<Pass>, looked: real): real {
    if passes == [] then looked else passes[|passes| - 1].now
  }

  predicate GoodContext(context: Context, at: real) {
    context.presents ==> !RunsOut(context.until, at)
  }

  predicate GoodTurn(w: Watch, turn: Turn) {
    && turn.now >= w.looked
    && (w.presenting && RunsOut(w.until, turn.now) ==> !turn.reload.NotAsked?)
    && (match turn.reload
        case NotAsked => true
        case Raised(at) => at >= turn.now && turn.attempt.NoAttempt?
        case Built(at, context) => at >= turn.now && GoodContext(context, at))
    && (!turn.attempt.NoAttempt? ==>
          turn.now <= turn.attempt.start <= turn.attempt.end && turn.attempt.start >= w.nextAttempt)
    && (turn.attempt.Succeeds? ==> GoodContext(turn.attempt.context, turn.attempt.end))
  }

  function AfterReload(w: Watch, reload: Reload): Watch {
    match reload
    case NotAsked => w
    case Raised(_) => w.(presenting := false, until := None)
    case Built(_, context) => w.(context := context, presenting := context.presents, until := context.until)
  }

  function AfterTurn(w: Watch, turn: Turn): Watch {
    var r := AfterReload(w, turn.reload).(looked := turn.now);
    match turn.attempt
    case NoAttempt => r
    case Fails(_, end) => r.(nextAttempt := end + RETRY, failed := Some(end))
    case Unloaded(_, end) => r.(nextAttempt := end + RETRY, failed := Some(end), presenting := false, until := None)
    case Succeeds(_, _, context) =>
      r.(context := context, presenting := context.presents, until := context.until, nextAttempt := 0.0)
  }

  /** The next pass starts after whatever the last one waited for. */
  function Finished(turn: Turn): real {
    if turn.attempt.NoAttempt? then turn.now else turn.attempt.end
  }

  predicate GoodTurns(w: Watch, turns: seq<Turn>, since: real)
    decreases |turns|
  {
    turns == [] ||
    (turns[0].now >= since && GoodTurn(w, turns[0])
     && GoodTurns(AfterTurn(w, turns[0]), turns[1..], Finished(turns[0])))
  }

  function AfterTurns(w: Watch, turns: seq<Turn>): Watch
    decreases |turns|
  {
    if turns == [] then w else AfterTurns(AfterTurn(w, turns[0]), turns[1..])
  }

  function Start(a: Attempt): real
    requires !a.NoAttempt?
  {
    a.start
  }

  predicate Paced(w: Watch, since: real) {
    w.failed.Some? ==> w.nextAttempt >= w.failed.value + RETRY || since >= w.failed.value + RETRY
  }

  /**
   Pacing: over every sequence of passes, refusals forcing an enrolment included, an
   attempt starts at least `RETRY` seconds after the last one that failed.
   */
  lemma {:induction false} EnrolmentIsPaced(w: Watch, turns: seq<Turn>, since: real, k: nat)
    requires GoodTurns(w, turns, since) && Paced(w, since) && k < |turns| && !turns[k].attempt.NoAttempt?
    ensures var failed := AfterTurns(w, turns[..k]).failed;
            failed.Some? ==> Start(turns[k].attempt) >= failed.value + RETRY
    decreases k
  {
    if k == 0 {
      assert turns[..0] == [];
    } else {
      assert turns[..k][0] == turns[0] && turns[..k][1..] == turns[1..][..k - 1];
      EnrolmentIsPaced(AfterTurn(w, turns[0]), turns[1..], Finished(turns[0]), k - 1);
    }
  }

  /** Whether the last context asked for was not built, so that an older one is still in use. */
  predicate StaleAfter(stale: bool, turn: Turn) {
    match turn.attempt
    case Unloaded(_, _) => true
    case Succeeds(_, _, _) => false
    case _ => if turn.reload.NotAsked? then stale else turn.reload.Raised?
  }

  predicate Stale(stale: bool, turns: seq<Turn>)
    decreases |turns|
  {
    if turns == [] then stale else Stale(StaleAfter(stale, turns[0]), turns[1..])
  }

  /** The object knows what the context in use presents, and that stays presentable for a margin after the last look. */
  predicate Current(w: Watch) {
    w.context.presents ==>
      w.presenting && w.until == w.context.until && (w.until.Some? ==> w.looked < w.until.value - EXPIRY_MARGIN)
  }

  /**
   Expiry: if the passes come at most a margin apart, then at every moment up to the
   next one the certificate the context in use presents is short of its known end,
   unless the last reload asked for raised.
   */
  lemma {:induction false} NeverPresentedPastItsEnd(w: Watch, stale: bool, turns: seq<Turn>, since: real, t: real)
    requires GoodTurns(w, turns, since) && (!stale ==> Current(w)) && !Stale(stale, turns)
    requires var last := AfterTurns(w, turns); last.looked <= t <= last.looked + EXPIRY_MARGIN
    ensures var last := AfterTurns(w, turns).context;
            last.presents && last.until.Some? ==> t < last.until.value
    decreases |turns|
  {
    if turns != [] {
      NeverPresentedPastItsEnd(AfterTurn(w, turns[0]), StaleAfter(stale, turns[0]), turns[1..], Finished(turns[0]), t);
    }
  }

  /** When the last pass of a history was over. */
  function LastFinished(turns: seq<Turn>, since: real): real {
    if turns == [] then since else Finished(turns[|turns| - 1])
  }

  lemma {:induction false} OneMoreTurn(w: Watch, turns: seq<Turn>, turn: Turn, since: real)
    requires GoodTurns(w, turns, since) && turn.now >= LastFinished(turns, since)
    requires GoodTurn(AfterTurns(w, turns), turn)
    ensures GoodTurns(w, turns + [turn], since)
    ensures AfterTurns(w, turns + [turn]) == AfterTurn(AfterTurns(w, turns), turn)
    decreases |turns|
  {
    if turns == [] {
      assert turns + [turn] == [turn] && [turn][1..] == [];
    } else {
      assert (turns + [turn])[1..] == turns[1..] + [turn];
      OneMoreTurn(AfterTurn(w, turns[0]), turns[1..], turn, Finished(turns[0]));
    }
  }

  /** What a context presents lasts for more than a margin after the last look. */
  predicate InTime(context: Context, looked: real) {
    context.presents && context.until.Some? ==> looked + EXPIRY_MARGIN < context.until.value
  }

  lemma NoTurnYet(w: Watch, since: real)
    ensures GoodTurns(w, [], since) && AfterTurns(w, []) == w
  {
  }

  /** The two theorems together. */
  lemma Conclusions(w: Watch, turns: seq<Turn>, since: real)
    requires GoodTurns(w, turns, since) && Current(w) && Paced(w, since)
    ensures var last := AfterTurns(w, turns);
            !Stale(false, turns) ==> InTime(last.context, last.looked)
    ensures forall k :: 0 <= k < |turns| && !turns[k].attempt.NoAttempt? ==>
              var last := AfterTurns(w, turns[..k]).failed;
              last.Some? ==> Start(turns[k].attempt) >= last.value + RETRY
  {
    var last := AfterTurns(w, turns);
    if !Stale(false, turns) {
      NeverPresentedPastItsEnd(w, false, turns, since, last.looked + EXPIRY_MARGIN);
    }
    forall k | 0 <= k < |turns| && !turns[k].attempt.NoAttempt?
      ensures var last := AfterTurns(w, turns[..k]).failed;
              last.Some? ==> Start(turns[k].attempt) >= last.value + RETRY
    {
      EnrolmentIsPaced(w, turns, since, k);
    }
  }

  /** A history in which no reload raises leaves no old context in use. */
  lemma {:induction false} ReturnsAreNotStale(turns: seq<Turn>)
    requires forall k :: 0 <= k < |turns| ==> !turns[k].reload.Raised? && !turns[k].attempt.Unloaded?
    ensures !Stale(false, turns)
    decreases |turns|
  {
    if turns != [] {
      assert forall k :: 0 <= k < |turns[1..]| ==> turns[1..][k] == turns[k + 1];
      ReturnsAreNotStale(turns[1..]);
    }
  }

  /** Passes a minute apart whose reloads raise: the context in use stays what it was. */
  lemma {:induction false} RaisesKeepTheContext(w: Watch, start: real, n: nat) returns (turns: seq<Turn>)
    requires start >= w.looked
    ensures |turns| == n + 1 && GoodTurns(w, turns, start)
    ensures forall k :: 0 <= k <= n ==> turns[k].now == start + 60.0 * k as real && turns[k].reload.Raised?
    ensures AfterTurns(w, turns).context == w.context && AfterTurns(w, turns).looked == start + 60.0 * n as real
    decreases n
  {
    var turn := Turn(start, Raised(start), NoAttempt);
    if n == 0 {
      turns := [turn];
      assert AfterTurns(AfterTurn(w, turn), []) == AfterTurn(w, turn);
    } else {
      var rest := RaisesKeepTheContext(AfterTurn(w, turn), start + 60.0, n - 1);
      assert GoodTurns(AfterTurn(w, turn), rest, start);
      turns := [turn] + rest;
      assert turns[1..] == rest;
    }
  }

  /**
   The condition is needed: whatever certificate is in use, passes a minute apart whose
   reloads raise take it past its known end.
   */
  lemma OutlivesItsEnd(w: Watch, end: real, start: real) returns (turns: seq<Turn>)
    requires w.context == Context(true, Some(end)) && start >= w.looked
    ensures GoodTurns(w, turns, start) && turns != [] && turns[0].now == start
    ensures forall k :: 0 < k < |turns| ==> turns[k].now == turns[k - 1].now + 60.0
    ensures AfterTurns(w, turns).context == w.context && AfterTurns(w, turns).looked >= end
  {
    var n := if end <= start then 0 else (end - start).Floor + 1;
    turns := RaisesKeepTheContext(w, start, n);
  }
}
