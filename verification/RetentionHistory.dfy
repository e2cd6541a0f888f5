/**
 The ledger and the run directories over the life of a sensor: the job lifecycle of
 agent/worker.py drives them, restarts forget what is active, and sweeps happen
 whenever they like. Ledger writes succeed; time does not go backwards.
 */
module RetentionHistory {
  import opened Prelude
  import opened Retention

  /**
   `acked` and `owed` are history: the runs whose upload returned in their current
   attempt, and since when a cancelled attempt's partial results have been owed.
   */
  datatype Sensor = Sensor(ledger: map<string, Entry>, runs: seq<Run>, active: set<string>,
                           acked: set<string>, owed: map<string, real>)

  datatype Event =
    | JobStart(id: string, now: real)
    | Scan(run: Run)
    | MarkOwed(id: string, now: real)
    | UploadReturned(id: string)
    | MarkDelivered(id: string, now: real)
    | JobEnd(id: string)
    | Restart
    | SweepRuns(i: Inputs, due: seq<Run>, over: seq<Run>, left: seq<Run>, harm: map<string, Run>)
    | SweepCut(i: Inputs, due: seq<Run>, over: seq<Run>, left: seq<Run>,
               k: nat, remain: seq<Run>, dropped: set<string>, died: bool)

  function Ids(runs: seq<Run>): set<string> {
    set r | r in runs :: r.id
  }

  function Without(runs: seq<Run>, id: string): (s: seq<Run>)
    ensures forall r :: r in s <==> r in runs && r.id != id
  {
    if runs == [] then []
    else if runs[0].id == id then Without(runs[1..], id)
    else [runs[0]] + Without(runs[1..], id)
  }

  /** Every directory of a listing has its own name. */
  predicate Unique(runs: seq<Run>) {
    forall r, x | r in runs && x in runs :: r.id == x.id ==> r == x
  }

  /** A run whose removal was tried and failed: `rmtree` may have taken part of it. */
  predicate Harmed(i: Inputs, r: Run) {
    r.id in i.stuck && Tried(i, r)
  }

  predicate HarmedId(i: Inputs, id: string) {
    exists r :: r in i.runs && r.id == id && Harmed(i, r)
  }

  /** What a failed removal left of a run, where it took something. */
  function Hurt(i: Inputs, r: Run, harm: map<string, Run>): (x: Run)
    ensures x.id == r.id && (x != r ==> Harmed(i, r))
  {
    if Harmed(i, r) && r.id in harm && harm[r.id].id == r.id then harm[r.id] else r
  }

  function AllHurt(i: Inputs, runs: seq<Run>, harm: map<string, Run>): seq<Run> {
    seq(|runs|, k requires 0 <= k < |runs| => Hurt(i, runs[k], harm))
  }

  lemma HurtKeepsNames(i: Inputs, runs: seq<Run>, harm: map<string, Run>)
    ensures Ids(AllHurt(i, runs, harm)) == Ids(runs)
    ensures Unique(runs) ==> Unique(AllHurt(i, runs, harm))
    ensures forall r | r in runs :: Hurt(i, r, harm) in AllHurt(i, runs, harm)
  {
    hide Hurt;
    var s := AllHurt(i, runs, harm);
    forall r | r in runs
      ensures Hurt(i, r, harm) in s && r.id in Ids(s)
    {
      var k :| 0 <= k < |runs| && runs[k] == r;
      assert s[k] == Hurt(i, r, harm) && s[k].id == r.id;
    }
    forall x | x in s
      ensures exists r :: r in runs && x == Hurt(i, r, harm)
    {
      var k :| 0 <= k < |s| && s[k] == x;
      assert runs[k] in runs;
    }
  }

  /** What the first `k` removals of a sweep have taken. */
  function Gone(due: seq<Run>, over: seq<Run>, k: nat): seq<Run>
    requires k <= |due + over|
  {
    (due + over)[..k]
  }

  /** The run a sweep was removing when it was cut short, if it was removing one. */
  predicate AtWork(due: seq<Run>, over: seq<Run>, k: nat, id: string) {
    k < |due + over| && (due + over)[k].id == id
  }

  /**
   What a sweep killed, or failing, after `k` removals leaves: the run it was at may be
   there whole, in part or not at all, and one whose removal failed before in part. A
   ledger entry is dropped only once its directory is gone, and those of runs it did not
   remove only after the last removal.
   */
  predicate CutShort(s: Sensor, i: Inputs, due: seq<Run>, over: seq<Run>, left: seq<Run>, k: nat, remain: seq<Run>,
                     dropped: set<string>) {
    && k <= |due + over| && Unique(remain)
    && (forall r | r in remain :: r in s.runs || AtWork(due, over, k, r.id) || HarmedId(i, r.id))
    && (forall r | r in s.runs ::
          r in remain || r in Gone(due, over, k) || AtWork(due, over, k, r.id) || Harmed(i, r))
    && dropped !! Ids(remain)
    && dropped <= Ids(Gone(due, over, k)) + if k == |due + over| then s.ledger.Keys - Ids(left) - s.active else {}
  }

  /** When the worker, or the loop around it, does each of these. */
  predicate Allowed(s: Sensor, e: Event) {
    match e
    case JobStart(_, _) => true
    case Scan(run) => run.id in s.active
    case MarkOwed(id, _) => id in s.active
    case UploadReturned(id) => id in s.active
    case MarkDelivered(id, _) => id in s.active && id in s.acked
    case JobEnd(_) => true
    case Restart => true
    case SweepRuns(i, due, over, left, _) =>
      i.ledger == s.ledger && i.runs == s.runs && i.active == s.active && Swept(i, due, over, left)
    case SweepCut(i, due, over, left, k, remain, dropped, _) =>
      && i.ledger == s.ledger && i.runs == s.runs && i.active == s.active && Swept(i, due, over, left)
      && CutShort(s, i, due, over, left, k, remain, dropped)
  }

  /** `_prune_ledger` after the removals: entries of runs still there, or in progress. */
  function PrunedLedger(s: Sensor, left: seq<Run>): map<string, Entry> {
    map id | id in s.ledger && (id in Ids(left) || id in s.active) :: s.ledger[id]
  }

  function Next(s: Sensor, e: Event): Sensor
    requires Allowed(s, e)
  {
    match e
    case JobStart(id, now) =>
      s.(active := s.active + {id}, ledger := s.ledger[id := Entry(Running, now)], acked := s.acked - {id},
         owed := s.owed - {id})
    case Scan(run) => s.(runs := Without(s.runs, run.id) + [run])
    case MarkOwed(id, now) => s.(ledger := s.ledger[id := Entry(Owed, now)], owed := s.owed[id := now])
    case UploadReturned(id) => s.(acked := s.acked + {id})
    case MarkDelivered(id, now) => s.(ledger := s.ledger[id := Entry(Delivered, now)], owed := s.owed - {id})
    case JobEnd(id) => s.(active := s.active - {id})
    case Restart => s.(active := {})
    case SweepRuns(i, _, _, left, harm) => s.(runs := AllHurt(i, left, harm), ledger := PrunedLedger(s, left))
    case SweepCut(_, _, _, _, _, remain, dropped, died) =>
      s.(runs := remain, ledger := s.ledger - dropped, active := if died then {} else s.active)
  }

  predicate Possible(s: Sensor, events: seq<Event>)
    decreases |events|
  {
    events == [] || (Allowed(s, events[0]) && Possible(Next(s, events[0]), events[1..]))
  }

  function Exec(s: Sensor, events: seq<Event>): Sensor
    requires Possible(s, events)
    decreases |events|
  {
    if events == [] then s else Exec(Next(s, events[0]), events[1..])
  }

  /** The ledger never calls delivered what no upload returned for, and forgets no debt on disk. */
  predicate Inv(s: Sensor) {
    && Unique(s.runs)
    && (forall id | id in s.ledger :: s.ledger[id].mark == Delivered ==> id in s.acked)
    && (forall id | id in s.owed && (id in Ids(s.runs) || id in s.active) ::
          id in s.ledger && s.ledger[id] == Entry(Owed, s.owed[id]))
  }

  lemma SweepLeavesListed(i: Inputs, due: seq<Run>, over: seq<Run>, left: seq<Run>)
    requires Swept(i, due, over, left)
    ensures forall r | r in left :: r in i.runs
  {
    forall r | r in left
      ensures r in i.runs
    {
      assert r in multiset(due) + multiset(over) + multiset(left);
      assert r in multiset(i.runs);
    }
  }

  lemma CutKeepsInv(s: Sensor, e: Event)
    requires Inv(s) && e.SweepCut? && Allowed(s, e)
    ensures Inv(Next(s, e))
  {
    hide Swept;
    forall r | r in e.due + e.over
      ensures r in s.runs && r.id !in s.active
    {
      ProtectedRunsStay(e.i, e.due, e.over, e.left, r);
    }
    forall r | r in e.remain
      ensures r.id in Ids(s.runs)
    {
      if r !in s.runs && !HarmedId(e.i, r.id) {
        var run := (e.due + e.over)[e.k];
        assert run in e.due + e.over && run.id in Ids(s.runs);
      }
    }
    assert forall r | r in Gone(e.due, e.over, e.k) :: r in e.due + e.over;
    assert e.dropped !! s.active;
  }

  lemma EventKeepsInv(s: Sensor, e: Event)
    requires Inv(s) && Allowed(s, e)
    ensures Inv(Next(s, e))
  {
    hide Swept, CutShort, AllHurt;
    if e.SweepRuns? {
      SweepLeavesListed(e.i, e.due, e.over, e.left);
      HurtKeepsNames(e.i, e.left, e.harm);
    } else if e.SweepCut? {
      CutKeepsInv(s, e);
    }
  }

  lemma {:induction false} HistoryKeepsInv(s: Sensor, events: seq<Event>)
    requires Inv(s) && Possible(s, events)
    ensures Inv(Exec(s, events))
    decreases |events|
  {
    hide Inv;
    if events != [] {
      EventKeepsInv(s, events[0]);
      HistoryKeepsInv(Next(s, events[0]), events[1..]);
    }
  }

  /** A sensor that has run nothing yet; directories of an earlier release may lie around. */
  predicate Fresh(s: Sensor) {
    Unique(s.runs) && s.ledger == map[] && s.active == {} && s.acked == {} && s.owed == map[]
  }

  predicate IsSweep(e: Event) {
    e.SweepRuns? || e.SweepCut?
  }

  lemma NotLeftIsRemoved(i: Inputs, due: seq<Run>, over: seq<Run>, left: seq<Run>, r: Run)
    requires Swept(i, due, over, left) && r in i.runs && r !in left
    ensures r in due + over
  {
    assert r in multiset(i.runs) && r !in multiset(left);
    assert r in multiset(due) || r in multiset(over);
  }

  /** A run that a sweep, complete or not, took or damaged is one it meant to remove or failed to. */
  lemma LostToSweep(s: Sensor, e: Event, r: Run)
    requires IsSweep(e) && Allowed(s, e) && Unique(s.runs) && r in s.runs && r !in Next(s, e).runs
    ensures Harmed(e.i, r) || r in e.due + e.over
  {
    hide Harmed, Swept, AllHurt;
    if Harmed(e.i, r) {
    } else if e.SweepRuns? {
      HurtKeepsNames(e.i, e.left, e.harm);
      assert r in e.left ==> Hurt(e.i, r, e.harm) == r;
      NotLeftIsRemoved(e.i, e.due, e.over, e.left, r);
    } else if AtWork(e.due, e.over, e.k, r.id) {
      ProtectedRunsStay(e.i, e.due, e.over, e.left, (e.due + e.over)[e.k]);
    } else {
      assert r in Gone(e.due, e.over, e.k);
    }
  }

  /**
   Retention safety. Whatever happens after any history, sweeps cut short at any point
   and removals that fail part-way included, a run is lost or damaged only by its own
   scan, which replaces it, or by a sweep; and no sweep takes or damages a run in
   progress, the baseline, or one owed for less than an hour and not requeued since; a
   run younger than the retention, in a store within its budget, goes only if the upload
   of its archive returned.
   */
  lemma RetentionSafety(s: Sensor, events: seq<Event>, e: Event, r: Run)
    requires Fresh(s) && Possible(s, events) && Allowed(Exec(s, events), e)
    requires r in Exec(s, events).runs && r !in Next(Exec(s, events), e).runs
    ensures var t := Exec(s, events);
            if !IsSweep(e) then e.Scan? && e.run.id == r.id && r.id in t.active
            else
              && r.id !in t.active && (e.i.pointed.Some? ==> e.i.pointed.value != r.id)
              && (e.i.pointed.None? ==> exists x :: x in t.runs && x.id != r.id && x.mtime >= r.mtime)
              && (r.id in t.owed ==> e.i.now - t.owed[r.id] >= 3600.0)
              && ((e.i.retention == 0.0 || e.i.now - r.mtime <= e.i.retention) ==>
                    e.i.maxBytes == 0 || Total(t.runs) <= e.i.maxBytes ==> r.id in t.acked)
              && (e.i.shared ==> r.id in t.ledger)
  {
    hide Swept, CutShort, Tried, AllHurt;
    HistoryKeepsInv(s, events);
    var t := Exec(s, events);
    if IsSweep(e) {
      LostToSweep(t, e, r);
      if r in e.due + e.over {
        RemovedWereTried(e.i, e.due, e.over, e.left, r);
      }
      OnlyRemovableAreTried(e.i, r);
      assert r.id in Ids(t.runs);
    }
  }

  function Excluding(runs: seq<Run>, ids: set<string>): (s: seq<Run>)
    ensures forall r :: r in s <==> r in runs && r.id !in ids
  {
    if runs == [] then []
    else if runs[0].id in ids then Excluding(runs[1..], ids)
    else [runs[0]] + Excluding(runs[1..], ids)
  }

  /**
   The order of `_remove` makes every moment of a sweep such a cut: after `k` directories,
   with the entry of the last of them dropped or not yet.
   */
  lemma EveryMomentIsACut(s: Sensor, e: Event, k: nat, entry: bool)
    requires e.SweepRuns? && Allowed(s, e) && Unique(s.runs) && 0 < k <= |e.due + e.over|
    ensures var gone := Gone(e.due, e.over, k);
            var dropped := Ids(Gone(e.due, e.over, if entry then k else k - 1));
            Allowed(s, SweepCut(e.i, e.due, e.over, e.left, k, Excluding(s.runs, Ids(gone)), dropped, true))
  {
    var gone := Gone(e.due, e.over, k);
    forall r | r in gone
      ensures r in s.runs
    {
      assert r in e.due + e.over;
      ProtectedRunsStay(e.i, e.due, e.over, e.left, r);
    }
    assert forall r | r in Gone(e.due, e.over, k - 1) :: r in gone;
    forall r | r in s.runs && r.id in Ids(gone)
      ensures r in gone
    {
      var x :| x in gone && x.id == r.id;
    }
  }

  /** After a sweep the ledger speaks only of runs that survived or are in progress. */
  lemma LedgerFollowsRuns(s: Sensor, e: Event)
    requires e.SweepRuns? && Allowed(s, e)
    ensures Next(s, e).ledger.Keys <= Ids(Next(s, e).runs) + Next(s, e).active
    ensures forall id | id in s.ledger && (id in Ids(e.left) || id in s.active) ::
              id in Next(s, e).ledger && Next(s, e).ledger[id] == s.ledger[id]
  {
    HurtKeepsNames(e.i, e.left, e.harm);
  }

  /******* The object, and the job that drives it *******/

  /** How the upload of a job ended. */
  datatype Upload = Returned | Declined | Failed

  class RunRetention {
    var ledger: map<string, Entry>
    var runs: seq<Run>
    var active: set<string>
    ghost var acked: set<string>
    ghost var owed: map<string, real>
    ghost var origin: Sensor
    ghost var log: seq<Event>

    ghost function Now(): Sensor
      reads this
    {
      Sensor(ledger, runs, active, acked, owed)
    }

    ghost predicate Valid()
      reads this
    {
      Fresh(origin) && Possible(origin, log) && Now() == Exec(origin, log)
    }

    constructor (runs: seq<Run>)
      requires Unique(runs)
      ensures Valid() && this.runs == runs && active == {}
    {
      ledger, this.runs, active, acked, owed := map[], runs, {}, {}, map[];
      origin, log := Sensor(map[], runs, {}, {}, map[]), [];
    }

    ghost method Happened(before: Sensor, e: Event)
      requires Fresh(origin) && Possible(origin, log) && before == Exec(origin, log) && Allowed(before, e)
      requires Sensor(ledger, runs, active, Next(before, e).acked, Next(before, e).owed) == Next(before, e)
      modifies `acked, `owed, `log
      ensures Valid() && Now() == Next(before, e) && log == old(log) + [e]
    {
      hide Allowed, Next;
      acked, owed := Next(before, e).acked, Next(before, e).owed;
      ExecAppend(origin, log, e);
      log := log + [e];
    }

    /** `_record`, for a run id the pattern admits. */
    method MarkRun(id: string, mark: Mark, now: real)
      modifies `ledger
      ensures ledger == old(ledger)[id := Entry(mark, now)]
    {
      ledger := ledger[id := Entry(mark, now)];
    }

    /** `sweep`, as `job` runs it at its end and the loop runs it when idle. */
    method SweepNow(now: real, pointed: Option<string>, shared: bool, retention: real, maxBytes: nat,
                    stuck: set<string>, harm: map<string, Run>)
      returns (ghost e: Event)
      requires Valid()
      modifies this
      ensures Valid() && origin == old(origin) && log == old(log) + [e] && active == old(active)
      ensures e.SweepRuns? && Allowed(old(Now()), e) && Now() == Next(old(Now()), e)
      ensures ledger.Keys <= Ids(runs) + active
    {
      hide Swept, Possible, Exec;
      ghost var before := Now();
      var i := Inputs(now, ledger, runs, active, pointed, shared, retention, maxBytes, stuck);
      var due, over, left := Sweep(i);
      e := SweepRuns(i, due, over, left, harm);
      LedgerFollowsRuns(before, e);
      HurtKeepsNames(i, left, harm);
      runs := AllHurt(i, left, harm);
      ledger := map id | id in ledger && (id in Ids(left) || id in active) :: ledger[id];
      Happened(before, e);
    }

    /** `job` on entry: the run is held out of every sweep and its ledger entry starts over. */
    method BeginJob(id: string, now: real)
      requires Valid()
      modifies this
      ensures Valid() && origin == old(origin) && Now() == Next(old(Now()), JobStart(id, now))
      ensures active == old(active) + {id} && id !in acked && id !in owed && runs == old(runs)
      ensures ledger == old(ledger)[id := Entry(Running, now)]
    {
      hide Possible, Exec, Swept;
      ghost var before := Now();
      active := active + {id};
      MarkRun(id, Running, now);
      Happened(before, JobStart(id, now));
    }

    /** `job` on exit, before its sweep. */
    method EndJob(id: string)
      requires Valid()
      modifies this
      ensures Valid() && origin == old(origin) && Now() == Next(old(Now()), JobEnd(id))
      ensures active == old(active) - {id} && ledger == old(ledger) && runs == old(runs)
    {
      hide Possible, Exec, Swept;
      ghost var before := Now();
      active := active - {id};
      Happened(before, JobEnd(id));
    }

    /** The scanner writes the run directory. */
    method RecordScan(run: Run)
      requires Valid() && run.id in active
      modifies this
      ensures Valid() && origin == old(origin) && active == old(active) && ledger == old(ledger)
      ensures Now() == Next(old(Now()), Scan(run)) && run in runs
      ensures forall r :: r in runs <==> r == run || (r in old(runs) && r.id != run.id)
    {
      hide Possible, Exec, Swept;
      ghost var before := Now();
      runs := Without(runs, run.id) + [run];
      Happened(before, Scan(run));
    }

    /**
     The uploading half of `_execute_job`: the debt of a cancelled scan is noted before
     the upload, the delivery only after the upload of an archive returned.
     */
    method SendArchive(id: string, owedAt: real, doneAt: real, cancelled: bool, upload: Upload)
      requires Valid() && id in active
      modifies this
      ensures Valid() && origin == old(origin) && active == old(active) && runs == old(runs)
      ensures upload.Returned? ==> ledger == old(ledger)[id := Entry(Delivered, doneAt)] && id in acked
      ensures !upload.Returned? && cancelled ==> ledger == old(ledger)[id := Entry(Owed, owedAt)] && id in owed
      ensures !upload.Returned? && !cancelled ==> ledger == old(ledger)
    {
      hide Possible, Exec, Swept;
      if cancelled {
        ghost var before := Now();
        MarkRun(id, Owed, owedAt);
        Happened(before, MarkOwed(id, owedAt));
      }
      if upload.Returned? {
        Happened(Now(), UploadReturned(id));
        ghost var before := Now();
        MarkRun(id, Delivered, doneAt);
        Happened(before, MarkDelivered(id, doneAt));
      }
    }

    /** What retention sees of `_execute_job`: hold the run, scan, send, let go, sweep. */
    method ExecuteJob(id: string, startAt: real, owedAt: real, doneAt: real, sweepAt: real, scanned: Option<Run>,
                      cancelled: bool, archive: bool, upload: Upload,
                      pointed: Option<string>, shared: bool, retention: real, maxBytes: nat, stuck: set<string>,
                      harm: map<string, Run>)
      requires Valid() && id !in active && (scanned.Some? ==> scanned.value.id == id)
      modifies this
      ensures Valid() && origin == old(origin) && active == old(active)
      ensures id in ledger ==>
                ledger[id].mark == if archive && upload.Returned? then Delivered
                                   else if archive && cancelled then Owed
                                   else Running
    {
      hide Possible, Exec, Swept;
      BeginJob(id, startAt);
      if scanned.Some? {
        RecordScan(scanned.value);
      }
      if archive {
        SendArchive(id, owedAt, doneAt, cancelled, upload);
      }
      EndJob(id);
      assert active == old(active);
      ghost var e := SweepNow(sweepAt, pointed, shared, retention, maxBytes, stuck, harm);
    }
  }

  lemma {:induction false} ExecAppend(s: Sensor, events: seq<Event>, e: Event)
    requires Possible(s, events) && Allowed(Exec(s, events), e)
    ensures Possible(s, events + [e]) && Exec(s, events + [e]) == Next(Exec(s, events), e)
    decreases |events|
  {
    hide Allowed, Next;
    if events == [] {
      assert events + [e] == [e];
    } else {
      assert (events + [e])[1..] == events[1..] + [e];
      ExecAppend(Next(s, events[0]), events[1..], e);
    }
  }
}
