/** Where calls cannot jam, whatever state a run has reached, all calls in flight
    can be driven to their end. */
module Completion {
  import opened Int64
  import opened Ledger
  import opened Protocol
  import opened Invariant
  import opened Evolution
  import opened Preservation
  import opened Guarantees
  import opened SingleProcess
  import opened Deadlock

  // ---- how far a call still has to go -------------------------------------

  /** An upper bound on the lines a call still runs. */
  function LinesLeft(call: Call): nat {
    match call.pc
    case Lookup => 30
    case GetMutex(i) => if i == 0 then 28 else 27
    case Acquire(i) => if i == 0 then 24 else 23
    case ReadWallet => 20
    case Begin => 19
    case LockRow(i) => if i == 0 then 18 else 17
    case Validate => 15
    case Append(i) => if i == 0 then 14 else 13
    case Compare(i) => if i == 0 then 12 else 10
    case Write(i) => if i == 0 then 11 else 9
    case Commit | SetStatus | Undo => 8
    case Unlock => 2 + call.held
    case CheckNew => 2
    case InsertNew | Replay(_) => 1
    case Done => 0
  }

  /** The part of the invariant that bounds a call's remaining lines. */
  predicate Short(call: Call) {
    && call.held <= 2 && |call.mutexes| <= 2 && |LockOrder(call.req)| <= 2
    && (call.pc.Append? ==> |call.plan.entries| <= 2)
    && (call.pc.Compare? || call.pc.Write? ==> |call.plan.updates| <= 2)
  }

  lemma InvShort(db: Db, tables: Tables, call: Call)
    requires CallInv(db, tables, call)
    ensures Short(call)
  {
    if call.pc.Append? || call.pc.Compare? || call.pc.Write? {
      PlanShape(db, call);
    }
  }

  lemma ReadWalletLeft(db: Db, call: Call)
    requires Short(call) && call.pc.ReadWallet? && call.req.Delta?
    ensures LinesLeft(ReadWalletLine(db, call)) < LinesLeft(call)
  {
  }

  lemma ValidateLeft(call: Call)
    requires Short(call) && call.pc.Validate? && call.req.Transfer? && |call.read| == 2
    ensures LinesLeft(ValidateLine(call)) < LinesLeft(call)
  {
  }

  lemma QuietLeft(db: Db, call: Call)
    requires Short(call) && QuietLine(db, call).Some?
    ensures LinesLeft(QuietLine(db, call).value) < LinesLeft(call)
  {
    match call.pc
    case ReadWallet => ReadWalletLeft(db, call);
    case Validate => ValidateLeft(call);
    case _ =>
  }

  lemma AppendLeft(db: Db, call: Call, i: nat)
    requires Short(call) && call.pc == Append(i) && i < |call.plan.entries|
    ensures LinesLeft(AppendLine(db, call, i)) < LinesLeft(call)
  {
  }

  lemma CompareLeft(db: Db, call: Call, i: nat)
    requires Short(call) && call.pc == Compare(i) && i < |call.plan.updates|
    ensures LinesLeft(CompareLine(db, call, i)) < LinesLeft(call)
  {
  }

  lemma TakingLeft(s: State, c: CallId, s': State)
    requires c in s.calls && Short(s.calls[c]) && DoStep(s, c) == Some(s')
    requires QuietLine(s.db, s.calls[c]).None?
    requires s.calls[c].pc.Acquire? ==> |s.calls[c].mutexes| == |LockOrder(s.calls[c].req)|
    ensures c in s'.calls && LinesLeft(s'.calls[c]) < LinesLeft(s.calls[c])
  {
    match s.calls[c].pc
    case Append(i) => AppendLeft(s.db, s.calls[c], i);
    case Compare(i) => CompareLeft(s.db, s.calls[c], i);
    case _ =>
  }

  /** A call that can move has a step that brings it closer to its end. */
  lemma StepLeft(s: State, c: CallId, ev: Event, s': State)
    requires Step(s, ev) == Some(s') && ActorOf(ev) == Some(c) && Unfinished(s, c)
    requires CallInv(s.db, s.tables, s.calls[c])
    requires ev.Do? || ev.Reap? || ev.Insert?
    ensures c in s'.calls && LinesLeft(s'.calls[c]) < LinesLeft(s.calls[c])
  {
    InvShort(s.db, s.tables, s.calls[c]);
    if ev.Do? {
      if QuietLine(s.db, s.calls[c]).Some? {
        QuietLeft(s.db, s.calls[c]);
      } else {
        TakingLeft(s, c, s');
      }
    }
  }

  // ---- adding it up -------------------------------------------------------

  ghost function SumOf(m: map<CallId, nat>): nat {
    if m == map[] then 0
    else
      var k :| k in m;
      m[k] + SumOf(m - {k})
  }

  lemma {:induction false} SumSplit(m: map<CallId, nat>, k: CallId)
    requires k in m
    ensures SumOf(m) == m[k] + SumOf(m - {k})
    decreases |m|
  {
    var j :| j in m && SumOf(m) == m[j] + SumOf(m - {j});
    if j != k {
      SumSplit(m - {j}, k);
      SumSplit(m - {k}, j);
      assert m - {j} - {k} == m - {k} - {j};
    }
  }

  function LeftOf(s: State): map<CallId, nat> {
    map c | c in s.calls :: LinesLeft(s.calls[c])
  }

  ghost function Work(s: State): nat {
    SumOf(LeftOf(s))
  }

  lemma WorkDrops(s: State, s': State, c: CallId)
    requires c in s.calls && c in s'.calls && s'.calls.Keys == s.calls.Keys
    requires forall d | d in s.calls && d != c :: s'.calls[d] == s.calls[d]
    requires LinesLeft(s'.calls[c]) < LinesLeft(s.calls[c])
    ensures Work(s') < Work(s)
  {
    SumSplit(LeftOf(s), c);
    SumSplit(LeftOf(s'), c);
    assert LeftOf(s) - {c} == LeftOf(s') - {c};
  }

  // ---- completion ---------------------------------------------------------

  lemma {:induction false} FreshId(ids: set<nat>) returns (id: nat)
    ensures forall i | i in ids :: i < id
    decreases |ids|
  {
    if ids == {} {
      id := 0;
    } else {
      var i :| i in ids;
      var j := FreshId(ids - {i});
      id := if i < j then j else i + 1;
      assert forall k | k in ids :: k == i || k in ids - {i};
    }
  }

  lemma OnlyActorChanges(s: State, ev: Event, s': State, c: CallId)
    requires Step(s, ev) == Some(s') && ActorOf(ev) == Some(c) && c in s.calls
    ensures s'.calls.Keys == s.calls.Keys
    ensures forall d | d in s.calls && d != c :: s'.calls[d] == s.calls[d]
  {
    forall d
      ensures d in s.calls <==> d in s'.calls
      ensures d in s.calls && d != c ==> s'.calls[d] == s.calls[d]
    {
      OneCallChanges(s, ev, s', c, d);
    }
  }

  lemma OneCallChanges(s: State, ev: Event, s': State, c: CallId, d: CallId)
    requires Step(s, ev) == Some(s') && ActorOf(ev) == Some(c) && c in s.calls
    ensures d in s.calls <==> d in s'.calls
    ensures d in s.calls && d != c ==> s'.calls[d] == s.calls[d]
  {
    if d == c {
      StepFollows(s, ev, s', c);
    } else {
      OthersFollow(s, ev, s', d);
    }
  }

  /** All live calls in one process, or no topups and payments in flight. */
  ghost predicate CannotJam(s: State) {
    SingleInstance(s) || NoDeltasInFlight(s)
  }

  /** Some call in flight has a step. */
  lemma SomebodySteps(s: State, c: CallId) returns (f: CallId, ev: Event)
    requires Inv(s) && CannotJam(s) && Unfinished(s, c)
    ensures Unfinished(s, f) && ActorOf(ev) == Some(f) && Step(s, ev).Some?
    ensures ev.Do? || ev.Reap? || ev.Insert?
  {
    if p :| OneLive(s, p) {
      f := FreeInOneProcess(s, p, c);
    } else {
      f := FreeWithoutDeltas(s, c);
    }
    var id := FreshId(s.db.wallets.Keys);
    ev := FreeMeansStep(s, f, id);
  }

  lemma StillCannotJam(s: State, ev: Event, s': State, f: CallId)
    requires Step(s, ev) == Some(s') && CannotJam(s) && ActorOf(ev) == Some(f) && f in s.calls
    ensures CannotJam(s')
  {
    OnlyActorChanges(s, ev, s', f);
    StepFollows(s, ev, s', f);
    if p :| OneLive(s, p) {
      assert OneLive(s', p);
    }
  }

  /** One more step towards everybody's end. */
  lemma MoveOne(s: State, c: CallId) returns (ev: Event, s': State)
    requires Inv(s) && CannotJam(s) && Unfinished(s, c)
    ensures Step(s, ev) == Some(s') && Inv(s') && CannotJam(s') && Work(s') < Work(s)
    ensures ev.Do? || ev.Reap? || ev.Insert?
    ensures s'.calls.Keys == s.calls.Keys
  {
    var f: CallId;
    f, ev := SomebodySteps(s, c);
    s' := Step(s, ev).value;
    StepRefines(s, ev, s');
    StepLeft(s, f, ev, s');
    OnlyActorChanges(s, ev, s', f);
    StillCannotJam(s, ev, s', f);
    WorkDrops(s, s', f);
  }

  /** From position n on, only lines that run, rollbacks of dead calls and inserts. */
  predicate Faultless(evs: seq<Event>, n: nat) {
    forall i | n <= i < |evs| :: evs[i].Do? || evs[i].Reap? || evs[i].Insert?
  }

  lemma FaultlessLonger(evs: seq<Event>, ev: Event, more: seq<Event>)
    requires ev.Do? || ev.Reap? || ev.Insert?
    requires evs + [ev] <= more && Faultless(more, |evs| + 1)
    ensures evs <= more && Faultless(more, |evs|)
  {
    assert more[|evs|] == (evs + [ev])[|evs|];
  }

  predicate AllDone(s: State) {
    forall c | c in s.calls :: s.calls[c].pc == Done
  }

  lemma FinishFrom(s: State, evs: seq<Event>, t: State) returns (more: seq<Event>, t': State)
    requires Run(s, evs) == Some(t) && Inv(t) && CannotJam(t)
    ensures evs <= more && Run(s, more) == Some(t') && AllDone(t') && t'.calls.Keys == t.calls.Keys
    ensures Faultless(more, |evs|)
    decreases Work(t)
  {
    if AllDone(t) {
      more, t' := evs, t;
    } else {
      var c :| c in t.calls && t.calls[c].pc != Done;
      var ev, t1 := MoveOne(t, c);
      RunSnoc(s, evs, t, ev, t1);
      more, t' := FinishFrom(s, evs + [ev], t1);
      FaultlessLonger(evs, ev, more);
    }
  }

  /** Completion: every run that ends with the live calls in one process, or
      with no topup or payment in flight in any number of processes, can be
      continued, without a fault, a crash or a new call, until every call in
      flight has returned. */
  lemma {:induction false} EverybodyCanFinish(evs: seq<Event>) returns (more: seq<Event>)
    requires Run(INIT, evs).Some? && CannotJam(Run(INIT, evs).value)
    ensures evs <= more && Run(INIT, more).Some? && AllDone(Run(INIT, more).value)
    ensures Run(INIT, more).value.calls.Keys == Run(INIT, evs).value.calls.Keys
    ensures Faultless(more, |evs|)
  {
    InitHolds();
    RunRefines(INIT, evs);
    var t: State;
    more, t := FinishFrom(INIT, evs, Run(INIT, evs).value);
  }
}
