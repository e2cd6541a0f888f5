/**
 Run retention (agent/run_retention.py): what one sweep removes, and what no
 sequence of jobs, uploads, restarts and sweeps ever removes.
 */
module Retention {
  import opened Prelude

  datatype Mark = Running | Owed | Delivered

  datatype Entry = Entry(mark: Mark, at: real)

  datatype Run = Run(id: string, size: nat, mtime: real)

  const OWED_PROTECTION := 3600.0

  /** Everything one sweep reads. `stuck` are the runs whose removal fails. */
  datatype Inputs = Inputs(now: real, ledger: map<string, Entry>, runs: seq<Run>, active: set<string>,
                           pointed: Option<string>, shared: bool, retention: real, maxBytes: nat, stuck: set<string>)

  /******* The rules *******/

  /** The first run with the newest modification. */
  function Newest(runs: seq<Run>): (r: Run)
    requires runs != []
    ensures r in runs && forall x | x in runs :: x.mtime <= r.mtime
  {
    var last := runs[|runs| - 1];
    if |runs| == 1 then last
    else
      var rest := Newest(runs[..|runs| - 1]);
      assert forall x | x in runs :: x in runs[..|runs| - 1] || x == last;
      if last.mtime > rest.mtime then last else rest
  }

  /** `_baseline`: what the scanner's `latest_run.json` names, else the newest run. */
  function Baseline(i: Inputs): Option<string> {
    if i.pointed.Some? then i.pointed
    else if i.runs == [] then None
    else Some(Newest(i.runs).id)
  }

  predicate OwedNow(i: Inputs, id: string) {
    id in i.ledger && i.ledger[id].mark == Owed && i.now - i.ledger[id].at < OWED_PROTECTION
  }

  predicate Protected(i: Inputs, id: string) {
    id in i.active || Baseline(i) == Some(id) || OwedNow(i, id)
  }

  predicate Removable(i: Inputs, r: Run) {
    !Protected(i, r.id) && (i.shared ==> r.id in i.ledger)
  }

  predicate Acknowledged(i: Inputs, id: string) {
    id in i.ledger && i.ledger[id].mark == Delivered
  }

  predicate Aged(i: Inputs, r: Run) {
    i.retention != 0.0 && i.now - r.mtime > i.retention
  }

  /** What the first pass removes. */
  predicate Due(i: Inputs, r: Run) {
    Removable(i, r) && (Acknowledged(i, r.id) || Aged(i, r))
  }

  predicate Goes(i: Inputs, r: Run) {
    Removable(i, r) && r.id !in i.stuck
  }

  /** What a removal may have been tried on: due, or removable in a store over its budget. */
  predicate Tried(i: Inputs, r: Run) {
    Due(i, r) || (Removable(i, r) && i.maxBytes > 0 && Total(i.runs) > i.maxBytes)
  }

  function Total(runs: seq<Run>): nat {
    if runs == [] then 0 else runs[0].size + Total(runs[1..])
  }

  lemma {:induction false} TotalConcat(a: seq<Run>, b: seq<Run>)
    ensures Total(a + b) == Total(a) + Total(b)
  {
    if a == [] {
      assert a + b == b;
    } else {
      assert (a + b)[1..] == a[1..] + b;
      TotalConcat(a[1..], b);
    }
  }

  /** The first pass removes exactly the due runs whose removal works. */
  predicate FirstPass(i: Inputs, due: seq<Run>, kept: seq<Run>) {
    && (forall r | r in due :: Due(i, r) && r.id !in i.stuck)
    && (forall r | r in kept :: Due(i, r) ==> r.id in i.stuck)
  }

  /** Every suffix of what was removed, put back, is over the budget. */
  predicate OnlyWhileOver(over: seq<Run>, total: nat, maxBytes: nat) {
    forall k :: 0 <= k < |over| ==> Total(over[k..]) + total > maxBytes
  }

  /**
   The size pass removes only removable runs, only over budget, none while a strictly
   older removable one stays; it stops within budget or with nothing left to remove.
   */
  predicate SizePass(i: Inputs, over: seq<Run>, left: seq<Run>) {
    && (i.maxBytes == 0 ==> over == [])
    && (forall r | r in over :: Goes(i, r))
    && OnlyWhileOver(over, Total(left), i.maxBytes)
    && (forall x, y | x in over && y in left :: Goes(i, y) ==> x.mtime <= y.mtime)
    && (i.maxBytes > 0 ==> Total(left) <= i.maxBytes || forall r | r in left :: !Goes(i, r))
  }

  /**
   The sweep's post-condition. `due` and `over` are what the two passes removed, in
   order, `left` what is still there: together they are the runs listed.
   */
  predicate Swept(i: Inputs, due: seq<Run>, over: seq<Run>, left: seq<Run>) {
    && multiset(i.runs) == multiset(due) + multiset(over) + multiset(left)
    && FirstPass(i, due, over + left)
    && SizePass(i, over, left)
  }

  /******* One sweep *******/

  predicate Sorted(runs: seq<Run>) {
    forall j, k :: 0 <= j < k < |runs| ==> runs[j].mtime <= runs[k].mtime
  }

  /** `r` behind every run at most as new: a stable insertion. */
  function Insert(runs: seq<Run>, r: Run): (s: seq<Run>)
    ensures multiset(s) == multiset(runs) + multiset{r}
  {
    if runs == [] || r.mtime < runs[0].mtime then [r] + runs
    else
      assert runs == [runs[0]] + runs[1..];
      [runs[0]] + Insert(runs[1..], r)
  }

  lemma {:induction false} InsertAbove(runs: seq<Run>, r: Run, floor: real)
    requires r.mtime >= floor && forall k :: 0 <= k < |runs| ==> runs[k].mtime >= floor
    ensures forall k :: 0 <= k < |Insert(runs, r)| ==> Insert(runs, r)[k].mtime >= floor
  {
    if runs != [] && runs[0].mtime <= r.mtime {
      InsertAbove(runs[1..], r, floor);
    }
  }

  lemma {:induction false} InsertSorted(runs: seq<Run>, r: Run)
    requires Sorted(runs)
    ensures Sorted(Insert(runs, r))
  {
    if runs != [] && runs[0].mtime <= r.mtime {
      InsertSorted(runs[1..], r);
      InsertAbove(runs[1..], r, runs[0].mtime);
    }
  }

  /** `sorted(kept, key=mtime)`. */
  function ByMtime(runs: seq<Run>): (s: seq<Run>)
    ensures Sorted(s) && multiset(s) == multiset(runs)
  {
    if runs == [] then [] else
      var rest := ByMtime(runs[..|runs| - 1]);
      assert runs == runs[..|runs| - 1] + [runs[|runs| - 1]];
      InsertSorted(rest, runs[|runs| - 1]);
      Insert(rest, runs[|runs| - 1])
  }

  /** The first pass of `_sweep`. */
  method RemoveDue(i: Inputs) returns (due: seq<Run>, kept: seq<Run>)
    ensures multiset(i.runs) == multiset(due) + multiset(kept)
    ensures FirstPass(i, due, kept)
  {
    due, kept := [], [];
    for k := 0 to |i.runs|
      invariant multiset(i.runs[..k]) == multiset(due) + multiset(kept)
      invariant forall r | r in due :: Due(i, r) && r.id !in i.stuck
      invariant forall r | r in kept :: Due(i, r) ==> r.id in i.stuck
    {
      var run := i.runs[k];
      assert i.runs[..k + 1] == i.runs[..k] + [run];
      if Due(i, run) && run.id !in i.stuck {
        due := due + [run];
      } else {
        kept := kept + [run];
      }
    }
    assert i.runs[..|i.runs|] == i.runs;
  }

  lemma OneMore(over: seq<Run>, run: Run, total: nat, maxBytes: nat)
    requires OnlyWhileOver(over, total, maxBytes) && total > maxBytes && run.size <= total
    ensures OnlyWhileOver(over + [run], total - run.size, maxBytes)
  {
    forall k | 0 <= k < |over + [run]|
      ensures Total((over + [run])[k..]) + (total - run.size) > maxBytes
    {
      assert (over + [run])[k..] == over[k..] + [run];
      TotalConcat(over[k..], [run]);
    }
  }

  /** The size pass of `_sweep`: oldest first, until the rest fits; `n` runs were looked at, `spared` of them stay. */
  method RemoveOverBudget(i: Inputs, sorted: seq<Run>) returns (over: seq<Run>, spared: seq<Run>, n: nat)
    ensures n <= |sorted| && multiset(sorted[..n]) == multiset(over) + multiset(spared)
    ensures forall r | r in over :: Goes(i, r)
    ensures forall r | r in spared :: !Goes(i, r)
    ensures OnlyWhileOver(over, Total(spared) + Total(sorted[n..]), i.maxBytes)
    ensures n == |sorted| || Total(spared) + Total(sorted[n..]) <= i.maxBytes
  {
    hide Goes, OnlyWhileOver, Total;
    var total := Total(sorted);
    n, over, spared := 0, [], [];
    assert sorted[0..] == sorted;
    NothingYet(total, i.maxBytes);
    while n < |sorted| && total > i.maxBytes
      invariant n <= |sorted| && multiset(sorted[..n]) == multiset(over) + multiset(spared)
      invariant total == Total(spared) + Total(sorted[n..])
      invariant forall r | r in over :: Goes(i, r)
      invariant forall r | r in spared :: !Goes(i, r)
      invariant OnlyWhileOver(over, total, i.maxBytes)
    {
      var run := sorted[n];
      assert sorted[..n + 1] == sorted[..n] + [run];
      assert sorted[n..] == [run] + sorted[n + 1..];
      TotalConcat([run], sorted[n + 1..]);
      TotalOfOne(run);
      if Goes(i, run) {
        OneMore(over, run, total, i.maxBytes);
        over := over + [run];
        total := total - run.size;
      } else {
        TotalConcat(spared, [run]);
        spared := spared + [run];
      }
      n := n + 1;
    }
  }

  /** What the size pass took is at most as new as any removable run it left. */
  lemma OldestFirst(i: Inputs, sorted: seq<Run>, over: seq<Run>, spared: seq<Run>, n: nat, x: Run, y: Run)
    requires Sorted(sorted) && n <= |sorted| && multiset(sorted[..n]) == multiset(over) + multiset(spared)
    requires forall r | r in spared :: !Goes(i, r)
    requires x in over && y in spared + sorted[n..] && Goes(i, y)
    ensures x.mtime <= y.mtime
  {
    hide Goes;
    assert x in multiset(sorted[..n]);
    var j :| 0 <= j < n && sorted[j] == x;
    var k :| n <= k < |sorted| && sorted[k] == y;
  }

  lemma NothingYet(total: nat, maxBytes: nat)
    ensures OnlyWhileOver([], total, maxBytes) && Total([]) == 0
  {
  }

  lemma TotalOfOne(run: Run)
    ensures Total([run]) == run.size
  {
  }

  lemma NoLimit(i: Inputs, kept: seq<Run>)
    requires i.maxBytes == 0
    ensures SizePass(i, [], kept)
  {
  }

  /** The size pass on the runs the first one kept, when there is a limit. */
  method FitBudget(i: Inputs, kept: seq<Run>) returns (over: seq<Run>, left: seq<Run>)
    ensures multiset(kept) == multiset(over) + multiset(left) && SizePass(i, over, left)
  {
    hide Goes, OnlyWhileOver, Total, Sorted, SizePass;
    if i.maxBytes == 0 {
      NoLimit(i, kept);
      return [], kept;
    }
    var sorted := ByMtime(kept);
    var spared, n;
    over, spared, n := RemoveOverBudget(i, sorted);
    left := spared + sorted[n..];
    assert multiset(kept) == multiset(over) + multiset(left) by {
      assert sorted == sorted[..n] + sorted[n..];
    }
    TotalConcat(spared, sorted[n..]);
    PassIsDone(i, sorted, over, spared, n);
  }

  lemma PassIsDone(i: Inputs, sorted: seq<Run>, over: seq<Run>, spared: seq<Run>, n: nat)
    requires i.maxBytes > 0 && Sorted(sorted) && n <= |sorted|
    requires multiset(sorted[..n]) == multiset(over) + multiset(spared)
    requires (forall r | r in over :: Goes(i, r)) && (forall r | r in spared :: !Goes(i, r))
    requires OnlyWhileOver(over, Total(spared + sorted[n..]), i.maxBytes)
    requires n == |sorted| || Total(spared + sorted[n..]) <= i.maxBytes
    ensures SizePass(i, over, spared + sorted[n..])
  {
    hide Goes, OnlyWhileOver, Total, Sorted;
    forall x, y | x in over && y in spared + sorted[n..] && Goes(i, y)
      ensures x.mtime <= y.mtime
    {
      OldestFirst(i, sorted, over, spared, n, x, y);
    }
    assert n == |sorted| ==> spared + sorted[n..] == spared;
  }

  /** `_sweep`. */
  method Sweep(i: Inputs) returns (due: seq<Run>, over: seq<Run>, left: seq<Run>)
    ensures Swept(i, due, over, left)
  {
    hide Due, SizePass;
    var kept;
    due, kept := RemoveDue(i);
    over, left := FitBudget(i, kept);
    assert multiset(kept) == multiset(over + left);
    forall r | r in over + left
      ensures r in kept
    {
      assert r in multiset(over + left);
    }
  }

  /******* Consequences for one sweep *******/

  /** Nothing protected goes, and in a shared store only runs of the ledger go. */
  lemma ProtectedRunsStay(i: Inputs, due: seq<Run>, over: seq<Run>, left: seq<Run>, r: Run)
    requires Swept(i, due, over, left) && r in due + over
    ensures r in i.runs && r.id !in i.active && (i.shared ==> r.id in i.ledger)
    ensures r.id in i.ledger && i.ledger[r.id].mark == Owed ==> i.now - i.ledger[r.id].at >= 3600.0
    ensures i.pointed.Some? ==> i.pointed.value != r.id
    ensures i.pointed.None? ==> exists x :: x in i.runs && x.id != r.id && x.mtime >= r.mtime
  {
    assert r in multiset(due) + multiset(over) + multiset(left);
    assert r in multiset(i.runs);
    RemovedWereTried(i, due, over, left, r);
    OnlyRemovableAreTried(i, r);
  }

  /** A young run in a store within its budget goes only when the ledger calls it delivered. */
  lemma YoungRunsStay(i: Inputs, due: seq<Run>, over: seq<Run>, left: seq<Run>, r: Run)
    requires Swept(i, due, over, left) && r in due + over
    requires i.retention == 0.0 || i.now - r.mtime <= i.retention
    requires i.maxBytes == 0 || Total(i.runs) <= i.maxBytes
    ensures r.id in i.ledger && i.ledger[r.id].mark == Delivered
  {
    RemovedWereTried(i, due, over, left, r);
    ProtectedRunsStay(i, due, over, left, r);
    OnlyRemovableAreTried(i, r);
  }

  /** A run nothing holds back, delivered or older than a retention that is set, goes unless its removal fails. */
  lemma DueRunsGo(i: Inputs, due: seq<Run>, over: seq<Run>, left: seq<Run>, r: Run)
    requires Swept(i, due, over, left) && r in i.runs && r.id !in i.stuck
    requires r.id !in i.active && (i.shared ==> r.id in i.ledger)
    requires if i.pointed.Some? then i.pointed.value != r.id else Newest(i.runs).id != r.id
    requires r.id in i.ledger && i.ledger[r.id].mark == Owed ==> i.now - i.ledger[r.id].at >= 3600.0
    requires (r.id in i.ledger && i.ledger[r.id].mark == Delivered)
             || (i.retention != 0.0 && i.now - r.mtime > i.retention)
    ensures r !in left && r !in over && r in due
  {
    assert Due(i, r);
    assert r !in over + left;
    assert r in multiset(i.runs);
    assert r in multiset(due) || r in multiset(over) || r in multiset(left);
  }

  /** Where a store stays over its limit, each run left is held back by a rule, or its removal failed. */
  lemma OverTheLimitAllAreHeld(i: Inputs, due: seq<Run>, over: seq<Run>, left: seq<Run>, r: Run)
    requires Swept(i, due, over, left) && 0 < i.maxBytes < Total(left) && r in left
    ensures i.runs != []
    ensures || r.id in i.stuck || r.id in i.active || (i.shared && r.id !in i.ledger)
            || i.pointed == Some(r.id) || (i.pointed.None? && Newest(i.runs).id == r.id)
            || (r.id in i.ledger && i.ledger[r.id].mark == Owed && i.now - i.ledger[r.id].at < 3600.0)
  {
    assert r in multiset(left);
    assert r in multiset(i.runs);
    assert !Goes(i, r);
  }

  /** A run a removal may be tried on is not protected, and delivered if it is young in a store within its budget. */
  lemma OnlyRemovableAreTried(i: Inputs, r: Run)
    requires Tried(i, r) && r in i.runs
    ensures r.id !in i.active && (i.shared ==> r.id in i.ledger)
    ensures r.id in i.ledger && i.ledger[r.id].mark == Owed ==> i.now - i.ledger[r.id].at >= 3600.0
    ensures i.pointed.Some? ==> i.pointed.value != r.id
    ensures i.pointed.None? ==> exists x :: x in i.runs && x.id != r.id && x.mtime >= r.mtime
    ensures i.retention == 0.0 || i.now - r.mtime <= i.retention ==>
              i.maxBytes == 0 || Total(i.runs) <= i.maxBytes ==>
                r.id in i.ledger && i.ledger[r.id].mark == Delivered
  {
  }

  /** What the size pass takes, and so whatever it tries, it takes from a store over its budget. */
  lemma RemovedWereTried(i: Inputs, due: seq<Run>, over: seq<Run>, left: seq<Run>, r: Run)
    requires Swept(i, due, over, left) && r in due + over
    ensures Tried(i, r)
  {
    if r in due {
    } else {
      assert 0 < |over| && over[0..] == over;
      TotalOfParts(i.runs, over + left);
      TotalConcat(over, left);
    }
  }

  /** A part of a listing is no larger than the listing. */
  lemma {:induction false} TotalOfParts(runs: seq<Run>, part: seq<Run>)
    requires multiset(part) <= multiset(runs)
    ensures Total(part) <= Total(runs)
    decreases |part|
  {
    if part != [] {
      var p := part[0];
      assert p in multiset(part);
      assert part == [p] + part[1..];
      var k :| 0 <= k < |runs| && runs[k] == p;
      var rest := runs[..k] + runs[k + 1..];
      assert runs == runs[..k] + [p] + runs[k + 1..];
      assert multiset(runs) == multiset(rest) + multiset{p};
      assert multiset(part) == multiset(part[1..]) + multiset{p};
      FewerOfEach(multiset(part[1..]), multiset(rest), p);
      TotalOfParts(rest, part[1..]);
      TotalConcat(runs[..k] + [p], runs[k + 1..]);
      TotalConcat(runs[..k], [p]);
      TotalConcat(runs[..k], runs[k + 1..]);
    }
  }

  lemma FewerOfEach(a: multiset<Run>, b: multiset<Run>, p: Run)
    requires a + multiset{p} <= b + multiset{p}
    ensures a <= b
  {
    forall x
      ensures a[x] <= b[x]
    {
      assert (a + multiset{p})[x] <= (b + multiset{p})[x];
    }
  }
}
