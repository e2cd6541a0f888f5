/**
 `ResultSigner.load_or_create` of agent/result_signing.py: any number of processes that
 start on the same key file, interleaved at every system call and killed anywhere.
 */
module ResultKey {
  import opened Prelude

  type Key = nat

  /** What a key file holds: a key, or something that does not parse as one. */
  datatype Content = Pem(key: Key) | Garbage

  /** How a call ends: with a key, or with an error. */
  type Outcome = Option<Key>

  /**
   Where a process stands. `depth` is how many enclosing calls it is in, each with a
   temporary file of its own to remove on the way out.
   */
  datatype Proc =
    | Reading(depth: nat)
    | Generating(depth: nat)
    | Ready(key: Key, depth: nat)
    | Unwinding(outcome: Outcome, depth: nat)
    | Ended(outcome: Outcome)
    | Killed

  /** `temps` are the temporary files left, each by its process and the depth it was made at. */
  datatype System = System(file: Option<Content>, procs: seq<Proc>, temps: set<(nat, nat)>)

  datatype Event =
    | Read(p: nat)
    | Make(p: nat, key: Key)
    | Link(p: nat)
    | Fail(p: nat)
    | Unlink(p: nat)
    | Kill(p: nat)

  predicate Enabled(s: System, e: Event) {
    && e.p < |s.procs|
    && match e
       case Read(p) => s.procs[p].Reading?
       case Make(p, _) => s.procs[p].Generating?
       case Link(p) => s.procs[p].Ready?
       case Fail(p) => s.procs[p].Reading? || s.procs[p].Generating? || s.procs[p].Ready?
       case Unlink(p) => s.procs[p].Unwinding?
       case Kill(p) => !s.procs[p].Ended?
  }

  /** `load_pem_private_key` of what is there. */
  function Parsed(c: Content): Outcome {
    if c.Pem? then Some(c.key) else None
  }

  /** How many temporary files a process still has to remove. */
  function Held(proc: Proc): nat {
    match proc
    case Reading(depth) => depth
    case Generating(depth) => depth
    case Ready(_, depth) => depth + 1
    case Unwinding(_, depth) => depth
    case _ => 0
  }

  function Moved(s: System, p: nat, proc: Proc): System
    requires p < |s.procs|
  {
    s.(procs := s.procs[p := proc])
  }

  function Apply(s: System, e: Event): System
    requires Enabled(s, e)
  {
    var proc := s.procs[e.p];
    match e
    case Read(p) =>
      Moved(s, p, if s.file.None? then Generating(proc.depth) else Unwinding(Parsed(s.file.value), proc.depth))
    case Make(p, key) => Moved(s, p, Ready(key, proc.depth)).(temps := s.temps + {(p, proc.depth)})
    case Link(p) =>
      if s.file.None?
      then Moved(s, p, Unwinding(Some(proc.key), proc.depth + 1)).(file := Some(Pem(proc.key)))
      else Moved(s, p, Reading(proc.depth + 1))
    case Fail(p) => Moved(s, p, Unwinding(None, Held(proc)))
    case Unlink(p) =>
      if proc.depth == 0 then Moved(s, p, Ended(proc.outcome))
      else Moved(s, p, Unwinding(proc.outcome, proc.depth - 1)).(temps := s.temps - {(p, proc.depth - 1)})
    case Kill(p) => Moved(s, p, Killed)
  }

  function Exec(s: System, events: seq<Event>): Option<System>
    decreases |events|
  {
    if events == [] then Some(s)
    else if !Enabled(s, events[0]) then None
    else Exec(Apply(s, events[0]), events[1..])
  }

  /** `n` processes about to read, whatever the file holds. */
  function Begin(file: Option<Content>, n: nat): System {
    System(file, seq(n, _ => Reading(0)), {})
  }

  /** A key in hand is the key in the file, and only one retry is ever under way. */
  predicate ProcInv(file: Option<Content>, proc: Proc) {
    match proc
    case Reading(depth) => depth <= 1 && (depth == 1 ==> file.Some?)
    case Generating(depth) => depth == 0
    case Ready(_, depth) => depth == 0
    case Unwinding(outcome, depth) => depth <= 1 && (outcome.Some? ==> file == Some(Pem(outcome.value)))
    case Ended(outcome) => outcome.Some? ==> file == Some(Pem(outcome.value))
    case Killed => true
  }

  /** Only a killed process leaves a temporary file it does not hold. */
  predicate TempInv(s: System, temp: (nat, nat)) {
    temp.0 < |s.procs| && (s.procs[temp.0].Killed? || temp.1 < Held(s.procs[temp.0]))
  }

  predicate Inv(s: System) {
    && (forall p :: 0 <= p < |s.procs| ==> ProcInv(s.file, s.procs[p]))
    && (forall temp :: temp in s.temps ==> TempInv(s, temp))
  }

  lemma StepKeepsInv(s: System, e: Event)
    requires Inv(s) && Enabled(s, e)
    ensures Inv(Apply(s, e)) && |Apply(s, e).procs| == |s.procs|
    ensures s.file.Some? ==> Apply(s, e).file == s.file
  {
    var s' := Apply(s, e);
    assert ProcInv(s.file, s.procs[e.p]);
    forall p | 0 <= p < |s'.procs|
      ensures ProcInv(s'.file, s'.procs[p])
    {
      assert ProcInv(s.file, s.procs[p]);
    }
    forall temp | temp in s'.temps
      ensures TempInv(s', temp)
    {
      if temp in s.temps {
        assert TempInv(s, temp);
      }
    }
  }

  lemma {:induction false} HistoryKeepsInv(s: System, events: seq<Event>)
    requires Inv(s) && Exec(s, events).Some?
    ensures var s' := Exec(s, events).value;
            Inv(s') && |s'.procs| == |s.procs| && (s.file.Some? ==> s'.file == s.file)
    decreases |events|
  {
    if events != [] {
      StepKeepsInv(s, events[0]);
      HistoryKeepsInv(Apply(s, events[0]), events[1..]);
    }
  }

  /**
   One key for all: whatever the interleaving, every call that returns holds the key
   that is in the file, so any two hold the same one; no call retries more than once;
   and a call that ended left no temporary file behind.
   */
  lemma OneKeyForAll(file: Option<Content>, n: nat, events: seq<Event>)
    requires Exec(Begin(file, n), events).Some?
    ensures var s := Exec(Begin(file, n), events).value;
            && |s.procs| == n && (file.Some? ==> s.file == file)
            && (forall p | 0 <= p < n && s.procs[p].Ended? && s.procs[p].outcome.Some? ::
                  s.file == Some(Pem(s.procs[p].outcome.value)))
            && (forall p, q | 0 <= p < q < n && s.procs[p].Ended? && s.procs[q].Ended? ::
                  s.procs[p].outcome.Some? && s.procs[q].outcome.Some? ==> s.procs[p] == s.procs[q])
            && (forall p | 0 <= p < n :: s.procs[p].Reading? ==> s.procs[p].depth <= 1)
            && (forall p, d: nat | 0 <= p < n && (p, d) in s.temps :: !s.procs[p].Ended?)
  {
    HistoryKeepsInv(Begin(file, n), events);
    var s := Exec(Begin(file, n), events).value;
    assert forall p | 0 <= p < n :: ProcInv(s.file, s.procs[p]);
    forall p, d: nat | 0 <= p < n && (p, d) in s.temps
      ensures !s.procs[p].Ended?
    {
      assert TempInv(s, (p, d));
    }
  }

  /**
   What happens around one call of `load_or_create`: what others create before its read,
   between read and link, and after the link, and which of its own steps raise.
   */
  datatype Call = Call(before: Option<Key>, readFails: bool, makeFails: bool, between: Option<Key>, linkFails: bool,
                       later: Option<Key>)

  predicate Smooth(c: Call) {
    !c.readFails && !c.makeFails && !c.linkFails
  }

  /** A read of a file that holds a key yields that key, of one that holds none an error, and of no file neither. */
  lemma ReadYieldsTheKey(s: System, p: nat, key: Key)
    requires Enabled(s, Read(p))
    ensures s.file == Some(Pem(key)) ==> Apply(s, Read(p)).procs[p] == Unwinding(Some(key), s.procs[p].depth)
    ensures s.file == Some(Garbage) ==> Apply(s, Read(p)).procs[p] == Unwinding(None, s.procs[p].depth)
    ensures s.file == None ==> Apply(s, Read(p)).procs[p] == Generating(s.procs[p].depth)
  {
  }

  /** The key file as one process sees it while others may be creating it. */
  class KeyFile {
    var file: Option<Content>

    /** All that others can do to the file, as `StepKeepsInv` has it: create it. */
    method Others(put: Option<Key>)
      modifies this
      ensures file == if old(file).None? && put.Some? then Some(Pem(put.value)) else old(file)
    {
      if file.None? && put.Some? {
        file := Some(Pem(put.value));
      }
    }

    /**
     `load_or_create`, the retry a call of its own. The measure shows that a retry finds
     the file there and does not retry again; a key is only ever returned when it is the
     one in the file, and where no step raises an error means a file that is no key.
     */
    method LoadOrCreate(key: Key, call: Call, retry: Call) returns (r: Outcome, ghost retries: nat)
      modifies this
      ensures old(file).Some? ==> file == old(file)
      ensures r.Some? ==> file == Some(Pem(r.value))
      ensures Smooth(call) && (retries > 0 ==> Smooth(retry)) ==> r.Some? || file == Some(Garbage)
      ensures Smooth(call) && (retries > 0 ==> Smooth(retry)) ==> file.Some? && r == Parsed(file.value)
      ensures retries <= 1 && (retries == 1 ==> old(file).None? && call.before.None? && call.between.Some?)
      ensures old(file).None? && call.before.None? && call.between.None? && Smooth(call) ==> file == Some(Pem(key))
      decreases if file.Some? then 0 else 1
    {
      retries := 0;
      Others(call.before);
      if call.readFails {
        return None, 0;
      }
      if file.Some? {
        return Parsed(file.value), 0;
      }
      Others(call.between);
      if call.makeFails || call.linkFails {
        return None, 0;
      }
      if file.Some? {
        r, retries := LoadOrCreate(key, retry, retry);
        retries := retries + 1;
      } else {
        file := Some(Pem(key));
        r := Some(key);
        Others(call.later);
      }
    }
  }
}
