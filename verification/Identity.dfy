/**
 The identity a sensor keeps across restarts when it works with a provisioning key and
 an id file (agent/worker.py): what `_exchange` and `_register` do to the file and to
 the loop's variables, over every history of answers, failed writes and crashes.
 */
module Identity {
  import opened Prelude

  /** An agent id; "" is none, on disk (no file) as in memory. */
  type Id = string

  /** How `save_agent_id` ends: it may fail before its rename, or after it when the directory is synced. */
  datatype Save = Saved | FailedBefore | FailedAfter

  datatype Reply = Failed | OtherTenant | Granted(id: Id, token: bool)

  datatype Loop = Loop(id: Id, registered: bool, due: bool)

  /**
   `loop` is what the running process knows, `sent` the ids registrations were sent
   under, `refusals` how often the server said the id is another tenant's.
   */
  datatype State = State(file: Id, loop: Option<Loop>, sent: seq<Id>, refusals: nat)

  datatype Event =
    | Start
    | Expire
    | Crash
    | Exchange(first: Reply, second: Reply, save: Save, diesAfterSave: bool)
    | Register(answer: Option<Id>, save: Save)

  predicate Enabled(s: State, e: Event) {
    match e
    case Start => s.loop.None?
    case Expire => s.loop.Some?
    case Crash => s.loop.Some?
    case Exchange(_, _, _, _) => s.loop.Some? && s.loop.value.due
    case Register(_, _) => s.loop.Some? && !s.loop.value.due && !s.loop.value.registered
  }

  /** The file after `save_agent_id`. */
  function AfterSave(file: Id, id: Id, save: Save): Id {
    if save.FailedBefore? then file else id
  }

  /** What a granted exchange does: the id is saved before the token is taken. */
  function Adopt(s: State, l: Loop, reply: Reply, save: Save, dies: bool): State
    requires reply.Granted?
  {
    var minted := reply.id;
    var writes := minted != "" && minted != l.id;
    var s' := if writes then s.(file := AfterSave(s.file, minted, save)) else s;
    if dies then s'.(loop := None)
    else if writes && !save.Saved? then s'.(loop := Some(l))
    else if !reply.token then s'.(loop := Some(l))
    else if writes then s'.(loop := Some(Loop(minted, false, false)))
    else s'.(loop := Some(l.(due := false)))
  }

  /** `_exchange`: on the other-tenant refusal the id is dropped and a new one asked for. */
  function Exchanged(s: State, first: Reply, second: Reply, save: Save, dies: bool): State
    requires s.loop.Some?
  {
    var l := s.loop.value;
    match first
    case Failed => s
    case Granted(_, _) => Adopt(s, l, first, save, dies)
    case OtherTenant =>
      var l' := l.(id := "");
      var s' := s.(loop := Some(l'), refusals := s.refusals + 1);
      if second.Granted? then Adopt(s', l', second, save, dies) else s'
  }

  /** `_register`: the request is sent under the loop's id, and the answer is what it is from then on. */
  function Registered(s: State, answer: Option<Id>, save: Save): State
    requires s.loop.Some?
  {
    var l := s.loop.value;
    var s' := s.(sent := s.sent + [l.id]);
    if answer.None? then s'
    else s'.(loop := Some(l.(id := answer.value, registered := true)),
             file := if answer.value != l.id then AfterSave(s.file, answer.value, save) else s.file)
  }

  function Apply(s: State, e: Event): State
    requires Enabled(s, e)
  {
    match e
    case Start => s.(loop := Some(Loop(s.file, false, true)))
    case Expire => s.(loop := Some(s.loop.value.(due := true)))
    case Crash => s.(loop := None)
    case Exchange(first, second, save, dies) => Exchanged(s, first, second, save, dies)
    case Register(answer, save) => Registered(s, answer, save)
  }

  /** Every exchange that is granted names an agent: the one presented, or one it mints. */
  predicate Names(presented: Id, reply: Reply) {
    reply.Granted? ==> reply.id != "" && (presented != "" ==> reply.id == presented)
  }

  /**
   What the server owes a sensor with a provisioning key. An answer to an exchange that
   presents an id is for that id, and a registration answers the id it was sent under.
   */
  predicate Honest(s: State, e: Event)
    requires Enabled(s, e)
  {
    match e
    case Exchange(first, second, _, _) => Names(s.loop.value.id, first) && Names("", second)
    case Register(answer, _) => answer.Some? ==> answer.value == s.loop.value.id
    case _ => true
  }

  function Exec(s: State, events: seq<Event>): Option<State>
    decreases |events|
  {
    if events == [] then Some(s)
    else if !Enabled(s, events[0]) || !Honest(s, events[0]) then None
    else Exec(Apply(s, events[0]), events[1..])
  }

  const FRESH := State("", None, [], 0)

  function Distinct(s: State): set<Id> {
    set i | 0 <= i < |s.sent| :: s.sent[i]
  }

  /** An id the loop can still register under without another refusal. */
  predicate Loose(s: State) {
    s.file !in Distinct(s) || (s.loop.Some? && s.loop.value.id == "")
  }

  predicate Inv(s: State) {
    && (s.loop.Some? ==> s.loop.value.id == "" || s.loop.value.id == s.file)
    && (s.loop.Some? && !s.loop.value.due ==> s.loop.value.id != "")
    && "" !in Distinct(s)
    && |Distinct(s)| <= s.refusals + (if Loose(s) then 0 else 1)
  }

  lemma ExchangeKeepsInv(s: State, e: Event)
    requires Inv(s) && e.Exchange? && Enabled(s, e) && Honest(s, e)
    ensures Inv(Apply(s, e)) && Apply(s, e).sent == s.sent
  {
    var s' := Apply(s, e);
    assert Distinct(s') == Distinct(s);
  }

  lemma RegisterKeepsInv(s: State, e: Event)
    requires Inv(s) && e.Register? && Enabled(s, e) && Honest(s, e)
    ensures Inv(Apply(s, e)) && Apply(s, e).sent == s.sent + [s.file]
  {
    var s' := Apply(s, e);
    assert Distinct(s') == Distinct(s) + {s.file} by {
      assert forall i :: 0 <= i < |s.sent| ==> s'.sent[i] == s.sent[i];
      assert s'.sent[|s.sent|] == s.file;
    }
  }

  lemma StepKeepsInv(s: State, e: Event)
    requires Inv(s) && Enabled(s, e) && Honest(s, e)
    ensures Inv(Apply(s, e))
  {
    match e {
      case Exchange(_, _, _, _) => ExchangeKeepsInv(s, e);
      case Register(_, _) => RegisterKeepsInv(s, e);
      case _ => assert Distinct(Apply(s, e)) == Distinct(s);
    }
  }

  lemma {:induction false} HistoryKeepsInv(s: State, events: seq<Event>)
    requires Inv(s) && Exec(s, events).Some?
    ensures Inv(Exec(s, events).value)
    decreases |events|
  {
    if events != [] {
      StepKeepsInv(s, events[0]);
      HistoryKeepsInv(Apply(s, events[0]), events[1..]);
    }
  }

  /** Whatever happened before, a registration is sent under the id that is in the file. */
  lemma RegistersTheSavedId(history: seq<Event>, e: Event)
    requires Exec(FRESH, history).Some? && e.Register? && Enabled(Exec(FRESH, history).value, e)
    ensures var s := Exec(FRESH, history).value;
            s.file != "" && s.loop.value.id == s.file && Registered(s, e.answer, e.save).sent == s.sent + [s.file]
  {
    HistoryKeepsInv(FRESH, history);
  }

  /**
   Over any history the sensor registers under at most one id more than the server
   refused ids as another tenant's, so without such a refusal it is always the same.
   */
  lemma OneIdPerTenant(history: seq<Event>)
    requires Exec(FRESH, history).Some?
    ensures var s := Exec(FRESH, history).value;
            && |Distinct(s)| <= s.refusals + 1
            && (s.refusals == 0 ==> forall i, j :: 0 <= i < j < |s.sent| ==> s.sent[i] == s.sent[j])
  {
    HistoryKeepsInv(FRESH, history);
    var s := Exec(FRESH, history).value;
    forall i, j | 0 <= i < j < |s.sent| && s.refusals == 0
      ensures s.sent[i] == s.sent[j]
    {
      if s.sent[i] != s.sent[j] {
        TwoAreTwo(Distinct(s), s.sent[i], s.sent[j]);
      }
    }
  }

  lemma TwoAreTwo(ids: set<Id>, a: Id, b: Id)
    requires a in ids && b in ids && a != b
    ensures |ids| >= 2
  {
    assert |ids - {a}| == |ids| - 1 && b in ids - {a};
  }

  lemma Unroll(s: State, e: Event, events: seq<Event>)
    requires Enabled(s, e) && Honest(s, e)
    ensures Exec(s, [e] + events) == Exec(Apply(s, e), events)
  {
    assert ([e] + events)[1..] == events;
  }

  lemma NothingMore(s: State)
    ensures Exec(s, []) == Some(s)
  {
  }

  lemma BecomesAgent(s: State, first: Reply, second: Reply, id: Id)
    requires Inv(s) && s.loop.Some? && s.loop.value.due && id != ""
    requires Names(s.loop.value.id, first) && Names("", second)
    requires if first.OtherTenant? then second == Granted(id, true) else first == Granted(id, true)
    requires s.loop.value.id == "" || first.OtherTenant?
    ensures Exec(s, [Exchange(first, second, Saved, false)] + [Register(Some(id), Saved)] + [Expire])
            == Some(State(id, Some(Loop(id, true, true)), s.sent + [id],
                          s.refusals + if first.OtherTenant? then 1 else 0))
  {
    hide Exec, Inv;
    var e, f := Exchange(first, second, Saved, false), Register(Some(id), Saved);
    var s1 := Apply(s, e);
    assert s1.loop == Some(Loop(id, false, false)) && s1.file == id;
    assert [e] + [f] + [Expire] == [e] + ([f] + ([Expire] + []));
    Unroll(s, e, [f] + ([Expire] + []));
    Unroll(s1, f, [Expire] + []);
    Unroll(Apply(s1, f), Expire, []);
    NothingMore(Apply(Apply(s1, f), Expire));
  }

  /** The first agent of a fresh sensor. */
  lemma FirstAgent(id: Id) returns (history: seq<Event>)
    requires id != ""
    ensures Exec(FRESH, history) == Some(State(id, Some(Loop(id, true, true)), [id], 0))
  {
    var start := Apply(FRESH, Start);
    StepKeepsInv(FRESH, Start);
    BecomesAgent(start, Granted(id, true), Failed, id);
    assert start.sent + [id] == [id];
    history := [Exchange(Granted(id, true), Failed, Saved, false)] + [Register(Some(id), Saved)] + [Expire];
    Unroll(FRESH, Start, history);
    history := [Start] + history;
  }

  /** The bound is reached for every number of refusals: `n` of them, and `n + 1` ids are registered in turn. */
  lemma {:induction false} RefusalsCostIds(ids: seq<Id>) returns (history: seq<Event>)
    requires ids != [] && forall i :: 0 <= i < |ids| ==> ids[i] != ""
    ensures Exec(FRESH, history)
            == Some(State(ids[|ids| - 1], Some(Loop(ids[|ids| - 1], true, true)), ids, |ids| - 1))
    decreases |ids|
  {
    var n, id := |ids| - 1, ids[|ids| - 1];
    if n == 0 {
      history := FirstAgent(id);
      assert ids == [id];
    } else {
      var before := RefusalsCostIds(ids[..n]);
      var s := Exec(FRESH, before).value;
      HistoryKeepsInv(FRESH, before);
      BecomesAgent(s, OtherTenant, Granted(id, true), id);
      var last := [Exchange(OtherTenant, Granted(id, true), Saved, false)] + [Register(Some(id), Saved)] + [Expire];
      ExecAppend(FRESH, before, last);
      history := before + last;
      assert ids[..n] + [id] == ids;
    }
  }

  /** Registered under ids that differ, a sensor has as many identities as it registered. */
  lemma {:induction false} DifferentIdsCount(s: State)
    requires forall i, j :: 0 <= i < j < |s.sent| ==> s.sent[i] != s.sent[j]
    ensures |Distinct(s)| == |s.sent|
    decreases |s.sent|
  {
    if s.sent != [] {
      var n := |s.sent| - 1;
      var s' := s.(sent := s.sent[..n]);
      DifferentIdsCount(s');
      assert Distinct(s) == Distinct(s') + {s.sent[n]} && s.sent[n] !in Distinct(s');
    }
  }

  lemma {:induction false} ExecAppend(s: State, first: seq<Event>, second: seq<Event>)
    requires Exec(s, first).Some?
    ensures Exec(s, first + second) == Exec(Exec(s, first).value, second)
    decreases |first|
  {
    if first == [] {
      assert first + second == second;
    } else {
      assert (first + second)[1..] == first[1..] + second;
      ExecAppend(Apply(s, first[0]), first[1..], second);
    }
  }

  /** Both rest on the exchange naming an agent: one that does not is followed by a registration under no id. */
  lemma NamelessExchange(s: State, answer: Option<Id>)
    requires s.loop == Some(Loop("", false, true))
    ensures var s' := Exchanged(s, Granted("", true), Failed, Saved, false);
            Enabled(s', Register(answer, Saved)) && Registered(s', answer, Saved).sent == s.sent + [""]
  {
  }

  /** The variables of `run_loop` that make up the identity, and the id file. */
  class RunLoop {
    var file: Id
    var agentId: Id
    var registered: bool
    var due: bool
    ghost var sent: seq<Id>
    ghost var refusals: nat

    ghost function Now(): State
      reads this
    {
      State(file, Some(Loop(agentId, registered, due)), sent, refusals)
    }

    /** A process starts with what an earlier one saved. */
    constructor (file: Id, ghost sent: seq<Id>, ghost refusals: nat)
      ensures Now() == Apply(State(file, None, sent, refusals), Start)
    {
      this.file, agentId, registered, due := file, file, false, true;
      this.sent, this.refusals := sent, refusals;
    }

    method SaveAgentId(id: Id, save: Save) returns (ok: bool)
      modifies this`file
      ensures file == AfterSave(old(file), id, save) && ok == save.Saved?
      ensures match save
              case Saved => ok && file == id
              case FailedBefore => !ok && file == old(file)
              case FailedAfter => !ok && file == id
    {
      if !save.FailedBefore? {
        file := id;
      }
      ok := save.Saved?;
    }

    method AskForToken(first: Reply, second: Reply, save: Save) returns (ok: bool)
      requires due
      modifies this
      ensures Now() == Apply(old(Now()), Exchange(first, second, save, false))
      ensures ok <==> !due
      ensures registered ==> old(registered) && (agentId == old(agentId) || agentId == "")
      ensures first == Granted(old(agentId), true) ==> ok && agentId == old(agentId) && registered == old(registered)
    {
      var exchanged := first;
      if exchanged.OtherTenant? {
        agentId := "";
        refusals := refusals + 1;
        exchanged := second;
      }
      if !exchanged.Granted? {
        return false;
      }
      var minted := exchanged.id;
      if minted != "" && minted != agentId {
        var saved := SaveAgentId(minted, save);
        if !saved {
          return false;
        }
      }
      if !exchanged.token {
        return false;
      }
      due := false;
      if minted != "" && minted != agentId {
        agentId := minted;
        registered := false;
      }
      ok := true;
    }

    method SendRegistration(answer: Option<Id>, save: Save) returns (ok: bool)
      requires !due && !registered
      modifies this
      ensures Now() == Apply(old(Now()), Register(answer, save)) && ok == registered
      ensures (registered <==> answer.Some?) && (answer.Some? ==> agentId == answer.value)
      ensures sent == old(sent) + [old(agentId)]
      ensures answer.None? ==> file == old(file) && agentId == old(agentId)
    {
      sent := sent + [agentId];
      if answer.None? {
        return false;
      }
      if answer.value != agentId {
        var _ := SaveAgentId(answer.value, save);
      }
      agentId := answer.value;
      registered := true;
      ok := true;
    }

    /** One turn of the loop up to the heartbeat: nothing registers past a failed exchange. */
    method Turn(first: Reply, second: Reply, answered: bool, save: Save) returns (ok: bool)
      requires Inv(Now()) && Names(agentId, first) && Names("", second)
      modifies this
      ensures Inv(Now()) && (ok ==> registered && agentId == file != "")
      ensures sent == old(sent) || sent == old(sent) + [file]
    {
      if due {
        ghost var e := Exchange(first, second, save, false);
        StepKeepsInv(Now(), e);
        var exchanged := AskForToken(first, second, save);
        if !exchanged {
          return false;
        }
      }
      if registered {
        return true;
      }
      var answer := if answered then Some(agentId) else None;
      RegisterKeepsInv(Now(), Register(answer, save));
      ok := SendRegistration(answer, save);
    }
  }
}
