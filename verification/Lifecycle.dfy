/** The runtime's lifecycle: Run, BeginDrain and Shutdown called by any number of threads, interleaved
    at every critical section. */
module Lifecycle {
  import opened InboxTables

  datatype State = New | Running | Draining | Closed

  function Rank(s: State): nat {
    match s
    case New => 0
    case Running => 1
    case Draining => 2
    case Closed => 3
  }

  /** An error value; zero is nil. */
  type Err = nat

  const ALREADY_RUNNING: Err := 1
  const ALREADY_CLOSED: Err := 2
  const CONTEXT_DONE: Err := 3

  /** sync.Once around the body of beginDrain: callers other than the first wait until it has returned. */
  datatype Once = Fresh | Busy(who: nat) | Finished

  /** Who called beginDrain: Run, a Shutdown that owns the lifecycle, a Shutdown that waits for Run, or
      somebody who only drains. */
  datatype Caller = FromRun | FromOwner | FromWaiter | FromOutside

  datatype Pc =
    | RunStart | RunMain | RunStop
    | ShutStart | ShutWait | ShutRead | ShutOwn
    | DrainStart(caller: Caller) | DrainMark(caller: Caller) | DrainStore(caller: Caller) | DrainClose(caller: Caller)
    | DrainRead(caller: Caller)
    | MarkClosed(err: Err) | CloseDone(err: Err)
    | Returned(err: Err, observedClosure: bool)

  /** The mutex-guarded fields, the two channels with the number of times each was closed, and the two
      once-guards. owner and final are bookkeeping: which thread owns the lifecycle, and the error it
      ended with. */
  datatype Fields = Fields(state: State, runCancel: bool, shutdownStarted: bool, shutdownErr: Err, drainErr: Err,
                           done: nat, drain: nat, drainOnce: Once, closeOnce: bool,
                           owner: Option<nat>, final: Option<Err>)

  datatype World = World(fields: Fields, threads: map<nat, Pc>)

  const START := World(Fields(New, false, false, 0, 0, 0, 0, Fresh, false, None, None), map[])

  /** Run: claim the runtime, and in the end publish the combined error and close. */
  ghost predicate RunSection(f: Fields, t: nat, pc: Pc, e: Err, f': Fields, pc': Pc) {
    match pc
    case RunStart =>
      if f.state.Running? || f.state.Draining? then f' == f && pc' == Returned(ALREADY_RUNNING, false)
      else if f.state.Closed? then f' == f && pc' == Returned(ALREADY_CLOSED, false)
      else f' == f.(runCancel := true, state := Running, owner := Some(t)) && pc' == RunMain
    case RunMain => f' == f && pc' == DrainStart(FromRun)
    case RunStop => f' == f.(shutdownErr := e, final := Some(e)) && pc' == MarkClosed(e)
    case MarkClosed(err) => f' == f.(state := Closed) && pc' == CloseDone(err)
    case CloseDone(err) =>
      f' == f.(done := if f.closeOnce then f.done else f.done + 1, closeOnce := true) && pc' == Returned(err, true)
    case _ => false
  }

  /** Shutdown: claim a runtime that never ran, or wait for the one that closes it. */
  ghost predicate ShutSection(f: Fields, t: nat, pc: Pc, e: Err, quits: bool, f': Fields, pc': Pc) {
    match pc
    case ShutStart =>
      if f.state.Closed? then f' == f && pc' == Returned(f.shutdownErr, true)
      else if f.runCancel then f' == f && pc' == DrainStart(FromWaiter)
      else if f.shutdownStarted then f' == f && pc' == ShutWait
      else f' == f.(shutdownStarted := true, state := Draining, owner := Some(t)) && pc' == DrainStart(FromOwner)
    case ShutWait =>
      f' == f && if quits then pc' == Returned(CONTEXT_DONE, false) else f.done > 0 && pc' == ShutRead
    case ShutRead => f' == f && pc' == Returned(f.shutdownErr, true)
    case ShutOwn => f' == f.(shutdownErr := e, final := Some(e)) && pc' == MarkClosed(e)
    case _ => false
  }

  /** beginDrain: its body runs once, and everybody then reads the error it left. */
  ghost predicate DrainSection(f: Fields, t: nat, pc: Pc, e: Err, f': Fields, pc': Pc) {
    match pc
    case DrainStart(caller) =>
      if f.drainOnce.Fresh? then f' == f.(drainOnce := Busy(t)) && pc' == DrainMark(caller)
      else f.drainOnce.Finished? && f' == f && pc' == DrainRead(caller)
    case DrainMark(caller) =>
      f' == f.(state := if f.state.Closed? then Closed else Draining) && pc' == DrainStore(caller)
    case DrainStore(caller) => f' == f.(drainErr := e) && pc' == DrainClose(caller)
    case DrainClose(caller) => f' == f.(drain := f.drain + 1, drainOnce := Finished) && pc' == DrainRead(caller)
    case DrainRead(caller) =>
      && f' == f
      && pc' == (if caller.FromRun? then RunStop else if caller.FromOwner? then ShutOwn
                 else if caller.FromWaiter? then ShutWait else Returned(f.drainErr, false))
    case _ => false
  }

  /** One critical section, channel operation or return of a thread; e is whatever error its own work
      produced, quits whether its context ends first. */
  ghost predicate Section(f: Fields, t: nat, pc: Pc, e: Err, quits: bool, f': Fields, pc': Pc) {
    RunSection(f, t, pc, e, f', pc') || ShutSection(f, t, pc, e, quits, f', pc') || DrainSection(f, t, pc, e, f', pc')
  }

  predicate Entry(pc: Pc) {
    pc.RunStart? || pc.ShutStart? || pc == DrainStart(FromOutside)
  }

  ghost predicate Next(w: World, t: nat, e: Err, quits: bool, w': World) {
    && t in w'.threads && w'.threads == w.threads[t := w'.threads[t]]
    && if t in w.threads then Section(w.fields, t, w.threads[t], e, quits, w'.fields, w'.threads[t])
       else w'.fields == w.fields && Entry(w'.threads[t])
  }

  // ---------------------------------------------------------------- invariant

  /** Positions that only the lifecycle owner reaches before it has ended. */
  predicate Owning(pc: Pc) {
    || pc.RunMain? || pc.RunStop? || pc.ShutOwn?
    || ((pc.DrainStart? || pc.DrainMark? || pc.DrainStore? || pc.DrainClose? || pc.DrainRead?)
        && (pc.caller.FromRun? || pc.caller.FromOwner?))
  }

  predicate InsideOnce(pc: Pc) {
    pc.DrainMark? || pc.DrainStore? || pc.DrainClose?
  }

  predicate PcOk(f: Fields, t: nat, pc: Pc) {
    && (Owning(pc) ==> f.owner == Some(t) && f.final.None?)
    && (pc.MarkClosed? ==> f.owner == Some(t) && f.final == Some(pc.err) && f.done == 0)
    && (pc.CloseDone? ==> f.owner == Some(t) && f.final == Some(pc.err) && f.state.Closed? && f.done == 0)
    && (InsideOnce(pc) ==> f.drainOnce == Busy(t))
    && (pc.ShutRead? ==> f.done > 0)
    && (pc.Returned? && pc.observedClosure ==> f.final == Some(pc.err) && f.state.Closed?)
  }

  predicate FieldsOk(f: Fields) {
    && (f.owner.Some? <==> f.runCancel || f.shutdownStarted) && !(f.runCancel && f.shutdownStarted)
    && (f.state.New? ==> f.owner.None?) && (f.state.Running? ==> f.runCancel)
    && (f.shutdownStarted ==> f.state.Draining? || f.state.Closed?)
    && (f.final.Some? ==> f.owner.Some? && f.shutdownErr == f.final.value)
    && (f.state.Closed? ==> f.final.Some?)
    && f.done == (if f.closeOnce then 1 else 0) && (f.done > 0 ==> f.state.Closed?)
    && f.drain == (if f.drainOnce.Finished? then 1 else 0)
  }

  ghost predicate Inv(w: World) {
    FieldsOk(w.fields) && forall t | t in w.threads :: PcOk(w.fields, t, w.threads[t])
  }

  /** What one section may do to the fields that other threads rely on: ownership is claimed once, the
      final error is written once and by the owner, each channel is closed once, the state only moves on. */
  predicate Forward(f: Fields, t: nat, f': Fields) {
    && (f'.owner == f.owner || (f.owner.None? && f'.owner == Some(t)))
    && (f'.final == f.final || (f.owner == Some(t) && f.final.None?))
    && (f'.drainOnce == f.drainOnce || f.drainOnce.Fresh? || f.drainOnce == Busy(t))
    && f.done <= f'.done <= 1 && (f'.done != f.done ==> f.owner == Some(t))
    && f.drain <= f'.drain <= 1
    && Rank(f.state) <= Rank(f'.state)
  }

  lemma RunSectionOk(f: Fields, t: nat, pc: Pc, e: Err, f': Fields, pc': Pc)
    requires FieldsOk(f) && PcOk(f, t, pc) && RunSection(f, t, pc, e, f', pc')
    ensures FieldsOk(f') && PcOk(f', t, pc') && Forward(f, t, f')
  {
  }

  lemma ShutSectionOk(f: Fields, t: nat, pc: Pc, e: Err, quits: bool, f': Fields, pc': Pc)
    requires FieldsOk(f) && PcOk(f, t, pc) && ShutSection(f, t, pc, e, quits, f', pc')
    ensures FieldsOk(f') && PcOk(f', t, pc') && Forward(f, t, f')
  {
  }

  lemma DrainSectionOk(f: Fields, t: nat, pc: Pc, e: Err, f': Fields, pc': Pc)
    requires FieldsOk(f) && PcOk(f, t, pc) && DrainSection(f, t, pc, e, f', pc')
    ensures FieldsOk(f') && PcOk(f', t, pc') && Forward(f, t, f')
  {
  }

  /** Other threads' positions stay justified. */
  lemma OthersStayOk(f: Fields, t: nat, f': Fields, u: nat, pc: Pc)
    requires u != t && PcOk(f, u, pc) && Forward(f, t, f')
    ensures PcOk(f', u, pc)
  {
  }

  lemma StepKeepsInv(w: World, t: nat, e: Err, quits: bool, w': World)
    requires Inv(w) && Next(w, t, e, quits, w')
    ensures Inv(w') && Forward(w.fields, t, w'.fields)
  {
    hide Section, FieldsOk, PcOk, Forward;
    var f', pc' := w'.fields, w'.threads[t];
    if t in w.threads {
      SectionOk(w.fields, t, w.threads[t], e, quits, f', pc');
    } else {
      EntryOk(w.fields, t, pc');
    }
    forall u | u in w'.threads ensures PcOk(f', u, w'.threads[u]) {
      if u != t {
        OthersStayOk(w.fields, t, f', u, w.threads[u]);
      }
    }
  }

  lemma SectionOk(f: Fields, t: nat, pc: Pc, e: Err, quits: bool, f': Fields, pc': Pc)
    requires FieldsOk(f) && PcOk(f, t, pc) && Section(f, t, pc, e, quits, f', pc')
    ensures FieldsOk(f') && PcOk(f', t, pc') && Forward(f, t, f')
  {
    hide FieldsOk, PcOk, RunSection, ShutSection, DrainSection, Forward;
    if RunSection(f, t, pc, e, f', pc') {
      RunSectionOk(f, t, pc, e, f', pc');
    } else if ShutSection(f, t, pc, e, quits, f', pc') {
      ShutSectionOk(f, t, pc, e, quits, f', pc');
    } else {
      DrainSectionOk(f, t, pc, e, f', pc');
    }
  }

  lemma EntryOk(f: Fields, t: nat, pc: Pc)
    requires FieldsOk(f) && Entry(pc)
    ensures PcOk(f, t, pc) && Forward(f, t, f)
  {
  }

  // ---------------------------------------------------------------- every interleaving

  datatype Move = Move(t: nat, e: Err, quits: bool)

  ghost predicate Reachable(ws: seq<World>, moves: seq<Move>) {
    && |ws| == |moves| + 1 && ws[0] == START
    && forall k | 0 <= k < |moves| :: Next(ws[k], moves[k].t, moves[k].e, moves[k].quits, ws[k + 1])
  }

  lemma {:induction false} EveryRunKeepsInv(ws: seq<World>, moves: seq<Move>, k: nat)
    requires Reachable(ws, moves) && k < |ws|
    ensures Inv(ws[k])
  {
    if k > 0 {
      hide Next, Inv;
      EveryRunKeepsInv(ws, moves, k - 1);
      var m := moves[k - 1];
      assert Next(ws[k - 1], m.t, m.e, m.quits, ws[k - 1 + 1]);
      StepKeepsInv(ws[k - 1], m.t, m.e, m.quits, ws[k]);
    }
  }

  /** Over a whole run the state never moves back, each channel is closed at most once, and ownership and
      the final error, once set, never change. */
  lemma {:induction false} RunsMoveForward(ws: seq<World>, moves: seq<Move>, j: nat, k: nat)
    requires Reachable(ws, moves) && j <= k < |ws|
    ensures var f, g := ws[j].fields, ws[k].fields;
            && Rank(f.state) <= Rank(g.state) && f.done <= g.done <= 1 && f.drain <= g.drain <= 1
            && (f.owner.Some? ==> g.owner == f.owner) && (f.final.Some? ==> g.final == f.final)
  {
    hide *;
    EveryRunKeepsInv(ws, moves, k);
    CountsOf(ws[k]);
    if j < k {
      RunsMoveForward(ws, moves, j, k - 1);
      EveryRunKeepsInv(ws, moves, k - 1);
      StepForward(ws, moves, k - 1);
    }
  }

  lemma CountsOf(w: World)
    requires Inv(w)
    ensures w.fields.done <= 1 && w.fields.drain <= 1
  {
  }

  lemma StepForward(ws: seq<World>, moves: seq<Move>, k: nat)
    requires Reachable(ws, moves) && k + 1 < |ws| && Inv(ws[k])
    ensures var f, g := ws[k].fields, ws[k + 1].fields;
            && Rank(f.state) <= Rank(g.state) && f.done <= g.done && f.drain <= g.drain
            && (f.owner.Some? ==> g.owner == f.owner) && (f.final.Some? ==> g.final == f.final)
  {
    hide Next, Inv;
    var m := moves[k];
    assert Next(ws[k], m.t, m.e, m.quits, ws[k + 1]);
    StepKeepsInv(ws[k], m.t, m.e, m.quits, ws[k + 1]);
  }

  /** At most one thread ever owns closing, and whoever reports having seen the runtime closed reports the
      owner's final error. */
  lemma ObserversAgree(ws: seq<World>, moves: seq<Move>, j: nat, k: nat, t: nat, u: nat)
    requires Reachable(ws, moves) && j < |ws| && k < |ws|
    requires t in ws[j].threads && u in ws[k].threads
    ensures Owning(ws[j].threads[t]) && Owning(ws[k].threads[u]) ==> t == u
    ensures var a, b := ws[j].threads[t], ws[k].threads[u];
            a.Returned? && b.Returned? && a.observedClosure && b.observedClosure ==> a.err == b.err
  {
    EveryRunKeepsInv(ws, moves, j);
    EveryRunKeepsInv(ws, moves, k);
    assert PcOk(ws[j].fields, t, ws[j].threads[t]) && PcOk(ws[k].fields, u, ws[k].threads[u]);
    hide Reachable, Inv;
    if j <= k {
      RunsMoveForward(ws, moves, j, k);
    } else {
      RunsMoveForward(ws, moves, k, j);
    }
  }
}
