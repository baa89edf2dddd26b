/** Stopping a node (dht/node.go): any number of callers of `Stop`, the two
    background loops and the four channels between them, in any interleaving. */
module Shutdowns {

  datatype Routine = Refresh | Republish

  /** Where a background loop is: not launched, at its `select`, busy after a
      tick, about to acknowledge, gone. */
  datatype LoopAt = Unborn | Selecting | Busy | Acking | Gone

  /** Where a caller of `Stop` is; `stopped` is false when the node had not been
      started. */
  datatype CallerAt =
    | AtStarted | AtShutdown | AtSwap | Waiting
    | SendStop(r: Routine) | AwaitAck(r: Routine) | CloseStop(r: Routine) | CloseAck(r: Routine)
    | StopServer | SetShutdown
    | Returned(stopped: bool)

  /** `leader` records who won the swap of `inShutdown`; `panicked` a send on, or a
      second close of, a closed channel. */
  datatype State = State(launched: bool, started: bool, inShutdown: bool, shutdown: bool, serverClosed: bool,
                         callers: seq<CallerAt>, refresh: LoopAt, republish: LoopAt,
                         stopClosed: set<Routine>, ackClosed: set<Routine>,
                         leader: int, panicked: bool)

  datatype Action =
    | Launch                        // Start: both loops begin
    | SetStarted                    // Start returns
    | Tick(r: Routine)              // the select takes the timer
    | Done(r: Routine)              // the work of a tick is over
    | Local(i: nat)                 // a step of a caller on its own
    | Stop(i: nat, r: Routine)      // a caller and a loop meet on the stop channel
    | Ack(i: nat, r: Routine)       // a loop and a caller meet on the acknowledgement
    | StopOfClosed(r: Routine)      // the loop receives from a closed stop channel
    | AckOfClosed(i: nat)           // the caller receives from a closed ack channel
    | SendOnClosed(r: Routine)      // the loop sends on a closed ack channel

  function LoopOf(s: State, r: Routine): LoopAt {
    if r.Refresh? then s.refresh else s.republish
  }

  function SetLoop(s: State, r: Routine, at: LoopAt): (t: State)
    ensures t.callers == s.callers
  {
    if r.Refresh? then s.(refresh := at) else s.(republish := at)
  }

  function SetCaller(s: State, i: nat, at: CallerAt): (t: State)
    requires i < |s.callers|
    ensures |t.callers| == |s.callers|
  {
    s.(callers := s.callers[i := at])
  }

  predicate Enabled(s: State, a: Action) {
    match a
    case Launch => !s.launched
    case SetStarted => s.launched && !s.started
    case Tick(r) => LoopOf(s, r).Selecting?
    case Done(r) => LoopOf(s, r).Busy?
    case Local(i) =>
      && i < |s.callers|
      && match s.callers[i] {
           case AwaitAck(_) => false
           case Returned(_) => false
           case Waiting => s.shutdown
           case SendStop(r) => r in s.stopClosed
           case _ => true
         }
    case Stop(i, r) => i < |s.callers| && s.callers[i] == SendStop(r) && r !in s.stopClosed && LoopOf(s, r).Selecting?
    case Ack(i, r) => i < |s.callers| && s.callers[i] == AwaitAck(r) && r !in s.ackClosed && LoopOf(s, r).Acking?
    case StopOfClosed(r) => r in s.stopClosed && LoopOf(s, r).Selecting?
    case AckOfClosed(i) => i < |s.callers| && s.callers[i].AwaitAck? && s.callers[i].r in s.ackClosed
    case SendOnClosed(r) => r in s.ackClosed && LoopOf(s, r).Acking?
  }

  /** The body of `Stop`, up to the waiting on channels. */
  function LocalStep(s: State, i: nat): (t: State)
    requires Enabled(s, Local(i))
    ensures |t.callers| == |s.callers|
  {
    match s.callers[i]
    case AtStarted => SetCaller(s, i, if s.started then AtShutdown else Returned(false))
    case AtShutdown => SetCaller(s, i, if s.shutdown then Returned(true) else AtSwap)
    case AtSwap =>
      if s.inShutdown then SetCaller(s, i, Waiting)
      else SetCaller(s, i, SendStop(Refresh)).(inShutdown := true, leader := i)
    case Waiting => SetCaller(s, i, Returned(true))
    case SendStop(r) => s.(panicked := true)
    case CloseStop(r) =>
      SetCaller(s, i, CloseAck(r)).(stopClosed := s.stopClosed + {r}, panicked := s.panicked || r in s.stopClosed)
    case CloseAck(r) =>
      SetCaller(s, i, if r.Refresh? then SendStop(Republish) else StopServer)
      .(ackClosed := s.ackClosed + {r}, panicked := s.panicked || r in s.ackClosed)
    case StopServer => SetCaller(s, i, SetShutdown).(serverClosed := true)
    case SetShutdown => SetCaller(s, i, Returned(true)).(shutdown := true)
  }

  function Apply(s: State, a: Action): (t: State)
    requires Enabled(s, a)
    ensures |t.callers| == |s.callers|
  {
    match a
    case Launch => s.(launched := true, refresh := Selecting, republish := Selecting)
    case SetStarted => s.(started := true)
    case Tick(r) => SetLoop(s, r, Busy)
    case Done(r) => SetLoop(s, r, Selecting)
    case Local(i) => LocalStep(s, i)
    case Stop(i, r) => SetLoop(SetCaller(s, i, AwaitAck(r)), r, Acking)
    case Ack(i, r) => SetLoop(SetCaller(s, i, CloseStop(r)), r, Gone)
    case StopOfClosed(r) => SetLoop(s, r, Acking)
    case AckOfClosed(i) => SetCaller(s, i, CloseStop(s.callers[i].r))
    case SendOnClosed(r) => s.(panicked := true)
  }

  predicate Run(s: State, acts: seq<Action>)
    decreases |acts|
  {
    acts == [] || (Enabled(s, acts[0]) && Run(Apply(s, acts[0]), acts[1..]))
  }

  function After(s: State, acts: seq<Action>): (t: State)
    requires Run(s, acts)
    ensures |t.callers| == |s.callers|
    decreases |acts|
  {
    if acts == [] then s else After(Apply(s, acts[0]), acts[1..])
  }

  /** A node not yet started and any number of callers. */
  function Fresh(n: nat): State {
    State(false, false, false, false, false, seq(n, _ => AtStarted), Unborn, Unborn, {}, {}, -1, false)
  }

  // ----- the invariant

  /** In the middle of the hand-shake. */
  predicate Shaking(c: CallerAt) {
    c.SendStop? || c.AwaitAck? || c.CloseStop? || c.CloseAck? || c.StopServer? || c.SetShutdown?
  }

  predicate Running(l: LoopAt) {
    l.Selecting? || l.Busy?
  }

  /** The loops and channels, as far as a caller in the hand-shake has come. */
  predicate Reached(s: State, c: CallerAt)
    requires Shaking(c)
  {
    match c
    case SendStop(r) => Part(s, r, Running(LoopOf(s, r)), false, false)
    case AwaitAck(r) => Part(s, r, LoopOf(s, r).Acking?, false, false)
    case CloseStop(r) => Part(s, r, LoopOf(s, r).Gone?, false, false)
    case CloseAck(r) => Part(s, r, LoopOf(s, r).Gone?, true, false)
    case StopServer => Over(s) && !s.serverClosed
    case SetShutdown => Over(s) && s.serverClosed
  }

  /** One loop is being stopped: the one before is gone, the next still runs. */
  predicate Part(s: State, r: Routine, loop: bool, stop: bool, ack: bool) {
    && loop && !s.serverClosed
    && s.stopClosed == (if r.Refresh? then {} else {Refresh}) + (if stop then {r} else {})
    && s.ackClosed == (if r.Refresh? then {} else {Refresh}) + (if ack then {r} else {})
    && (if r.Refresh? then Running(s.republish) else s.refresh.Gone?)
  }

  /** Both loops gone, all four channels closed. */
  predicate Over(s: State) {
    && s.refresh.Gone? && s.republish.Gone?
    && s.stopClosed == {Refresh, Republish} && s.ackClosed == {Refresh, Republish}
  }

  predicate Quiet(s: State) {
    && s.stopClosed == {} && s.ackClosed == {} && !s.shutdown && !s.serverClosed
    && (if s.launched then Running(s.refresh) && Running(s.republish) else s.refresh.Unborn? && s.republish.Unborn?)
  }

  /** What a caller may count on where it is. */
  predicate CallerOk(s: State, i: nat)
    requires i < |s.callers|
  {
    && (Shaking(s.callers[i]) ==> s.leader == i)
    && (s.callers[i].Waiting? ==> s.inShutdown)
    && (s.callers[i] != AtStarted && s.callers[i] != Returned(false) ==> s.started)
    && (s.callers[i] == Returned(true) ==> s.shutdown)
  }

  /** The node as a whole: before the swap of `inShutdown` nothing is stopped,
      then all is as the leader has come, or it is over. */
  predicate Core(s: State) {
    && !s.panicked && (s.started ==> s.launched)
    && if s.inShutdown then
         && s.started && 0 <= s.leader < |s.callers|
         && Led(s, s.callers[s.leader])
       else s.leader == -1 && Quiet(s)
  }

  predicate Led(s: State, c: CallerAt) {
    if Shaking(c) then Reached(s, c) && !s.shutdown
    else c == Returned(true) && Over(s) && s.shutdown && s.serverClosed
  }

  ghost predicate Inv(s: State) {
    Core(s) && forall i :: 0 <= i < |s.callers| ==> CallerOk(s, i)
  }

  lemma FreshInv(n: nat)
    ensures Inv(Fresh(n))
  {
  }

  /** The only steps of a caller that the leader alone takes are those of the
      hand-shake. */
  lemma LocalCore(s: State, i: nat)
    requires Core(s) && Enabled(s, Local(i)) && CallerOk(s, i)
    ensures Core(LocalStep(s, i))
  {
  }

  /** A loop goes on by itself, or the node begins; no loop meets a closed
      channel. */
  lemma LoopCore(s: State, a: Action)
    requires Core(s) && Enabled(s, a) && !a.Local? && !a.Stop? && !a.Ack? && !a.AckOfClosed?
    ensures Core(Apply(s, a))
    ensures !a.StopOfClosed? && !a.SendOnClosed?
  {
  }

  lemma MeetCore(s: State, a: Action)
    requires Core(s) && Enabled(s, a) && (a.Stop? || a.Ack? || a.AckOfClosed?) && CallerOk(s, a.i)
    ensures Core(Apply(s, a))
  {
  }

  lemma LocalCallers(s: State, i: nat, j: nat)
    requires Core(s) && Enabled(s, Local(i)) && CallerOk(s, i) && j < |s.callers| && CallerOk(s, j)
    ensures CallerOk(LocalStep(s, i), j)
  {
  }

  lemma MeetCallers(s: State, a: Action, j: nat)
    requires Core(s) && Enabled(s, a) && !a.Local? && j < |s.callers| && CallerOk(s, j)
    ensures CallerOk(Apply(s, a), j)
  {
  }

  lemma StepCallers(s: State, a: Action, j: nat)
    requires Inv(s) && Enabled(s, a) && j < |s.callers|
    ensures CallerOk(Apply(s, a), j)
  {
    hide Core, CallerOk, Enabled;
    assert CallerOk(s, j);
    if a.Local? {
      LocalIs(s, a.i);
      LocalCallers(s, a.i, j);
    } else {
      MeetCallers(s, a, j);
    }
  }

  lemma LocalIs(s: State, i: nat)
    requires Inv(s) && Enabled(s, Local(i))
    ensures i < |s.callers| && CallerOk(s, i)
  {
    hide Core, CallerOk;
  }

  lemma StepInv(s: State, a: Action)
    requires Inv(s) && Enabled(s, a)
    ensures Inv(Apply(s, a))
  {
    if a.Local? {
      LocalCore(s, a.i);
    } else if a.Stop? || a.Ack? || a.AckOfClosed? {
      MeetCore(s, a);
    } else {
      LoopCore(s, a);
    }
    forall j | 0 <= j < |Apply(s, a).callers|
      ensures CallerOk(Apply(s, a), j)
    {
      StepCallers(s, a, j);
    }
  }

  lemma {:induction false} RunInv(s: State, acts: seq<Action>)
    requires Inv(s) && Run(s, acts)
    ensures Inv(After(s, acts))
    decreases |acts|
  {
    hide Inv, Enabled, Apply;
    if acts != [] {
      StepInv(s, acts[0]);
      RunInv(Apply(s, acts[0]), acts[1..]);
    }
  }

  /** Any number of callers, any interleaving: no send on and no second close of a
      closed channel; at most one caller is ever in the hand-shake, and it won the
      swap; and no caller returns from stopping a started node before both loops
      are gone, every channel and the server closed and the shutdown recorded. */
  lemma ShutdownSafety(n: nat, acts: seq<Action>)
    requires Run(Fresh(n), acts)
    ensures var t := After(Fresh(n), acts);
            && !t.panicked
            && (forall i :: 0 <= i < |t.callers| && Shaking(t.callers[i]) ==> i == t.leader)
            && (Returned(true) in t.callers ==> Over(t) && t.serverClosed && t.shutdown)
            && (t.shutdown ==> forall i :: 0 <= i < |t.callers| ==> !Shaking(t.callers[i]))
  {
    FreshInv(n);
    RunInv(Fresh(n), acts);
    var t := After(Fresh(n), acts);
    hide After, Run, Fresh;
    forall i | 0 <= i < |t.callers|
      ensures Shaking(t.callers[i]) ==> i == t.leader && !t.shutdown
      ensures t.callers[i] == Returned(true) ==> Over(t) && t.serverClosed && t.shutdown
    {
      assert CallerOk(t, i);
    }
  }

  // ----- which calls stop the node

  /** Whether a caller has given up on a node that was not started. */
  predicate GaveUp(c: CallerAt) {
    c == Returned(false)
  }

  lemma StepGivesUp(s: State, a: Action, i: nat)
    requires Enabled(s, a) && i < |s.callers|
    ensures GaveUp(Apply(s, a).callers[i]) <==>
            GaveUp(s.callers[i]) || (a == Local(i) && s.callers[i] == AtStarted && !s.started)
    ensures Apply(s, a).callers[i] == AtStarted <==> s.callers[i] == AtStarted && a != Local(i)
    ensures Apply(s, a).started <==> s.started || a.SetStarted?
  {
    if a.Local? {
      LocalGivesUp(s, a.i, i);
    } else if a.Stop? || a.Ack? || a.AckOfClosed? {
      MeetGivesUp(s, a, i);
    } else {
      LoopGivesUp(s, a);
    }
  }

  lemma LocalGivesUp(s: State, j: nat, i: nat)
    requires Enabled(s, Local(j)) && i < |s.callers|
    ensures GaveUp(LocalStep(s, j).callers[i]) <==>
            GaveUp(s.callers[i]) || (j == i && s.callers[i] == AtStarted && !s.started)
    ensures LocalStep(s, j).callers[i] == AtStarted <==> s.callers[i] == AtStarted && j != i
    ensures LocalStep(s, j).started == s.started
  {
    LocalOther(s, j);
    LocalOwn(s, j);
    hide LocalStep, Enabled;
  }

  lemma LocalOther(s: State, j: nat)
    requires Enabled(s, Local(j))
    ensures forall i :: 0 <= i < |s.callers| && i != j ==> LocalStep(s, j).callers[i] == s.callers[i]
    ensures LocalStep(s, j).started == s.started
  {
    if s.callers[j] == AtStarted {
      AtStartedMoves(s, j);
      hide LocalStep, Enabled;
    } else if s.callers[j].CloseStop? || s.callers[j].CloseAck? {
      ClosingOther(s, j);
      hide LocalStep, Enabled;
    }
  }

  lemma ClosingOther(s: State, j: nat)
    requires Enabled(s, Local(j)) && (s.callers[j].CloseStop? || s.callers[j].CloseAck?)
    ensures forall i :: 0 <= i < |s.callers| && i != j ==> LocalStep(s, j).callers[i] == s.callers[i]
    ensures LocalStep(s, j).started == s.started
  {
  }

  lemma LocalOwn(s: State, j: nat)
    requires Enabled(s, Local(j))
    ensures LocalStep(s, j).callers[j] != AtStarted && !GaveUp(s.callers[j])
    ensures GaveUp(LocalStep(s, j).callers[j]) <==> s.callers[j] == AtStarted && !s.started
  {
    if s.callers[j] == AtStarted {
      AtStartedMoves(s, j);
    } else {
      LaterMoves(s, j);
    }
  }

  lemma AtStartedMoves(s: State, j: nat)
    requires j < |s.callers| && s.callers[j] == AtStarted
    ensures Enabled(s, Local(j))
    ensures LocalStep(s, j) == SetCaller(s, j, if s.started then AtShutdown else Returned(false))
  {
  }

  lemma LaterMoves(s: State, j: nat)
    requires Enabled(s, Local(j)) && s.callers[j] != AtStarted
    ensures LocalStep(s, j).callers[j] != AtStarted && !GaveUp(LocalStep(s, j).callers[j])
  {
  }

  lemma MeetGivesUp(s: State, a: Action, i: nat)
    requires Enabled(s, a) && i < |s.callers| && (a.Stop? || a.Ack? || a.AckOfClosed?)
    ensures GaveUp(Apply(s, a).callers[i]) <==> GaveUp(s.callers[i])
    ensures Apply(s, a).callers[i] == AtStarted <==> s.callers[i] == AtStarted
    ensures Apply(s, a).started == s.started
  {
    MeetMoves(s, a);
    hide Apply, Enabled;
  }

  lemma MeetMoves(s: State, a: Action)
    requires Enabled(s, a) && (a.Stop? || a.Ack? || a.AckOfClosed?)
    ensures a.i < |s.callers| && s.callers[a.i] != AtStarted && !GaveUp(s.callers[a.i])
    ensures Apply(s, a).callers[a.i] != AtStarted && !GaveUp(Apply(s, a).callers[a.i])
    ensures forall i :: 0 <= i < |s.callers| && i != a.i ==> Apply(s, a).callers[i] == s.callers[i]
    ensures Apply(s, a).started == s.started
  {
    match a {
      case Stop(i, r) => CallerAndLoop(s, i, AwaitAck(r), r, Acking);
      case Ack(i, r) => CallerAndLoop(s, i, CloseStop(r), r, Gone);
      case AckOfClosed(i) =>
    }
    hide SetLoop, LoopOf;
  }

  lemma CallerAndLoop(s: State, i: nat, c: CallerAt, r: Routine, at: LoopAt)
    requires i < |s.callers|
    ensures SetLoop(SetCaller(s, i, c), r, at).callers == s.callers[i := c]
    ensures SetLoop(SetCaller(s, i, c), r, at).started == s.started
  {
  }

  lemma LoopGivesUp(s: State, a: Action)
    requires Enabled(s, a) && !a.Local? && !a.Stop? && !a.Ack? && !a.AckOfClosed?
    ensures Apply(s, a).callers == s.callers
    ensures Apply(s, a).started <==> s.started || a.SetStarted?
  {
    match a {
      case Tick(r) => LoopMoves(s, r, Busy);
      case Done(r) => LoopMoves(s, r, Selecting);
      case StopOfClosed(r) => LoopMoves(s, r, Acking);
      case _ =>
    }
    hide SetLoop, LoopOf;
  }

  lemma LoopMoves(s: State, r: Routine, at: LoopAt)
    ensures SetLoop(s, r, at).callers == s.callers && SetLoop(s, r, at).started == s.started
    ensures SetLoop(s, r, at).launched == s.launched
  {
  }

  /** A call gives up exactly when its first step comes before Start has returned. */
  lemma {:induction false} GivesUpIff(s: State, acts: seq<Action>, i: nat)
    requires Run(s, acts) && i < |s.callers|
    ensures GaveUp(After(s, acts).callers[i]) <==>
            || GaveUp(s.callers[i])
            || (s.callers[i] == AtStarted && !s.started
                && exists m :: 0 <= m < |acts| && acts[m] == Local(i) && SetStarted !in acts[..m])
    decreases |acts|
  {
    hide Enabled, Apply, GaveUp;
    if acts != [] {
      var t, rest := Apply(s, acts[0]), acts[1..];
      StepGivesUp(s, acts[0], i);
      GivesUpIff(t, rest, i);
      FirstOrLater(acts, i);
    }
  }

  lemma FirstOrLater(acts: seq<Action>, i: nat)
    requires acts != []
    ensures (exists m :: 0 <= m < |acts| && acts[m] == Local(i) && SetStarted !in acts[..m]) <==>
            || acts[0] == Local(i)
            || (!acts[0].SetStarted?
                && exists m :: 0 <= m < |acts| - 1 && acts[1..][m] == Local(i) && SetStarted !in acts[1..][..m])
  {
    var rest := acts[1..];
    if m :| 0 <= m < |acts| && acts[m] == Local(i) && SetStarted !in acts[..m] && m > 0 {
      assert acts[..m] == [acts[0]] + rest[..m - 1] && rest[m - 1] == Local(i);
    }
    if m :| 0 <= m < |rest| && rest[m] == Local(i) && SetStarted !in rest[..m] && !acts[0].SetStarted? {
      assert acts[..m + 1] == [acts[0]] + rest[..m] && acts[m + 1] == Local(i);
    }
    if acts[0] == Local(i) {
      assert acts[..0] == [];
    }
  }

  /** All of the node is stopped. */
  predicate Stopped(s: State) {
    Over(s) && s.serverClosed && s.shutdown
  }

  /** A call whose first step comes after Start has returned does not return before
      the node is stopped; one whose first step comes before returns at once, and
      stops nothing. */
  lemma StopStops(n: nat, acts: seq<Action>, i: nat, m: nat)
    requires Run(Fresh(n), acts) && i < n && m < |acts|
    requires acts[m] == Local(i) && Local(i) !in acts[..m]
    ensures var t := After(Fresh(n), acts);
            if SetStarted in acts[..m] then t.callers[i].Returned? ==> t.callers[i] == Returned(true) && Stopped(t)
            else t.callers[i] == Returned(false)
  {
    var t := After(Fresh(n), acts);
    ShutdownSafety(n, acts);
    GivesUpIff(Fresh(n), acts, i);
    hide After, Run, Fresh;
    if j :| 0 <= j < |acts| && acts[j] == Local(i) && SetStarted !in acts[..j] && SetStarted in acts[..m] {
      LaterFront(acts, i, m, j);
    }
  }

  lemma LaterFront(acts: seq<Action>, i: nat, m: nat, j: nat)
    requires m < |acts| && j < |acts| && acts[j] == Local(i) && Local(i) !in acts[..m]
    ensures forall a :: a in acts[..m] ==> a in acts[..j]
  {
    assert forall x :: 0 <= x < m ==> acts[..m][x] == acts[x] && acts[..m][x] != Local(i);
    assert acts[..j][..m] == acts[..m];
  }

  // ----- what the loops do

  /** A loop is at work after a tick, until it is done with it. */
  predicate AtWork(acts: seq<Action>, r: Routine) {
    acts != [] && (acts[|acts| - 1] == Tick(r) || (acts[|acts| - 1] != Done(r) && AtWork(acts[..|acts| - 1], r)))
  }

  lemma StepWork(s: State, a: Action, r: Routine)
    requires Inv(s) && Enabled(s, a)
    ensures LoopOf(Apply(s, a), r).Busy? <==> a == Tick(r) || (a != Done(r) && LoopOf(s, r).Busy?)
  {
    if a.Local? {
      LocalLoops(s, a.i);
      hide LocalStep, Core, Enabled;
    } else if a.Launch? {
      hide CallerOk;
    } else {
      hide Core, CallerOk;
    }
  }

  lemma LocalLoops(s: State, i: nat)
    requires Enabled(s, Local(i))
    ensures LocalStep(s, i).refresh == s.refresh && LocalStep(s, i).republish == s.republish
  {
    if s.callers[i].CloseStop? || s.callers[i].CloseAck? {
      ClosingLoops(s, i);
      hide LocalStep;
    }
  }

  lemma ClosingLoops(s: State, i: nat)
    requires Enabled(s, Local(i)) && (s.callers[i].CloseStop? || s.callers[i].CloseAck?)
    ensures LocalStep(s, i).refresh == s.refresh && LocalStep(s, i).republish == s.republish
  {
  }

  lemma {:induction false} RunLast(s: State, acts: seq<Action>, a: Action)
    requires Run(s, acts + [a])
    ensures Run(s, acts) && Enabled(After(s, acts), a) && After(s, acts + [a]) == Apply(After(s, acts), a)
    decreases |acts|
  {
    hide Enabled, Apply;
    if acts == [] {
      assert [] + [a] == [a] && [a][1..] == [];
    } else {
      assert (acts + [a])[0] == acts[0] && (acts + [a])[1..] == acts[1..] + [a];
      RunLast(Apply(s, acts[0]), acts[1..], a);
    }
  }

  /** In every run a loop is busy exactly after a tick that it is not done with. */
  lemma {:induction false} BusyIff(n: nat, acts: seq<Action>, r: Routine)
    requires Run(Fresh(n), acts)
    ensures LoopOf(After(Fresh(n), acts), r).Busy? <==> AtWork(acts, r)
    decreases |acts|
  {
    hide Enabled, Apply;
    if acts != [] {
      var front, a := acts[..|acts| - 1], acts[|acts| - 1];
      assert acts == front + [a];
      RunLast(Fresh(n), front, a);
      BusyIff(n, front, r);
      FreshInv(n);
      RunInv(Fresh(n), front);
      hide Inv, LoopOf, Fresh;
      StepWork(After(Fresh(n), front), a, r);
    }
  }

  // ----- every caller can return

  /** What a caller has before it, and what Start has. */
  function Steps(c: CallerAt): nat {
    match c
    case AtStarted => 13
    case AtShutdown => 12
    case AtSwap => 11
    case SendStop(r) => if r.Refresh? then 10 else 6
    case AwaitAck(r) => if r.Refresh? then 9 else 5
    case CloseStop(r) => if r.Refresh? then 8 else 4
    case CloseAck(r) => if r.Refresh? then 7 else 3
    case StopServer => 2
    case SetShutdown => 1
    case Waiting => 1
    case Returned(_) => 0
  }

  function Rank(s: State): nat {
    SumSteps(s.callers) + (if s.launched then 0 else 1) + if s.started then 0 else 1
  }

  function SumSteps(cs: seq<CallerAt>): nat {
    if cs == [] then 0 else Steps(cs[0]) + SumSteps(cs[1..])
  }

  lemma {:induction false} SumUpdate(cs: seq<CallerAt>, i: nat, c: CallerAt)
    requires i < |cs|
    ensures SumSteps(cs[i := c]) == SumSteps(cs) - Steps(cs[i]) + Steps(c)
  {
    if i > 0 {
      assert cs[i := c][1..] == cs[1..][i - 1 := c];
      SumUpdate(cs[1..], i - 1, c);
    }
  }

  /** The ticks of the loops aside, every step brings the end nearer. */
  predicate Progresses(a: Action) {
    !a.Tick? && !a.Done?
  }

  lemma LocalRank(s: State, i: nat)
    requires Core(s) && Enabled(s, Local(i)) && CallerOk(s, i)
    ensures Rank(LocalStep(s, i)) < Rank(s)
  {
    hide SumSteps;
    SumUpdate(s.callers, i, LocalStep(s, i).callers[i]);
    assert LocalStep(s, i).callers == s.callers[i := LocalStep(s, i).callers[i]];
  }

  lemma StepRank(s: State, a: Action)
    requires Inv(s) && Enabled(s, a)
    ensures if Progresses(a) then Rank(Apply(s, a)) < Rank(s) else Rank(Apply(s, a)) == Rank(s)
  {
    if a.Local? {
      LocalIs(s, a.i);
      InvCore(s);
      hide *;
      LocalRank(s, a.i);
      LocalIsApply(s, a.i);
    } else if a.Stop? || a.Ack? || a.AckOfClosed? {
      hide Inv, Apply, Enabled, Rank;
      MeetRank(s, a);
    } else {
      LoopGivesUp(s, a);
      LoopLaunched(s, a);
      hide Apply, Enabled, SumSteps, Core, CallerOk;
    }
  }

  lemma MeetRank(s: State, a: Action)
    requires Enabled(s, a) && (a.Stop? || a.Ack? || a.AckOfClosed?)
    ensures Rank(Apply(s, a)) < Rank(s)
  {
    hide SumSteps;
    match a {
      case Stop(i, r) => SumUpdate(s.callers, i, AwaitAck(r));
      case Ack(i, r) => SumUpdate(s.callers, i, CloseStop(r));
      case AckOfClosed(i) => SumUpdate(s.callers, i, CloseStop(s.callers[i].r));
    }
  }

  lemma LoopLaunched(s: State, a: Action)
    requires Enabled(s, a) && !a.Local? && !a.Stop? && !a.Ack? && !a.AckOfClosed?
    ensures Apply(s, a).launched <==> s.launched || a.Launch?
    ensures (a.Launch? ==> !s.launched) && (a.SetStarted? ==> !s.started)
  {
    match a {
      case Tick(r) => LoopMoves(s, r, Busy);
      case Done(r) => LoopMoves(s, r, Selecting);
      case StopOfClosed(r) => LoopMoves(s, r, Acking);
      case _ =>
    }
    hide SetLoop, LoopOf;
  }

  lemma InvCore(s: State)
    requires Inv(s)
    ensures Core(s)
  {
  }

  lemma LocalIsApply(s: State, i: nat)
    requires Enabled(s, Local(i))
    ensures Apply(s, Local(i)) == LocalStep(s, i) && Progresses(Local(i))
  {
  }

  function Progress(acts: seq<Action>): nat {
    if acts == [] then 0 else Progress(acts[1..]) + if Progresses(acts[0]) then 1 else 0
  }

  lemma {:induction false} RunRank(s: State, acts: seq<Action>)
    requires Inv(s) && Run(s, acts)
    ensures Progress(acts) <= Rank(s) - Rank(After(s, acts))
    decreases |acts|
  {
    hide Inv, Enabled, Apply, Rank;
    if acts != [] {
      StepInv(s, acts[0]);
      StepRank(s, acts[0]);
      RunRank(Apply(s, acts[0]), acts[1..]);
    }
  }

  lemma {:induction false} FreshSteps(n: nat)
    ensures SumSteps(seq(n, _ => AtStarted)) == 13 * n
  {
    if n > 0 {
      FreshSteps(n - 1);
      assert seq(n, _ => AtStarted)[1..] == seq(n - 1, _ => AtStarted);
    }
  }

  /** However the callers and loops are interleaved, the steps other than the ticks
      of the loops come to an end. */
  lemma ShutdownBounded(n: nat, acts: seq<Action>)
    requires Run(Fresh(n), acts)
    ensures Progress(acts) <= 13 * n + 2
  {
    FreshInv(n);
    FreshSteps(n);
    RunRank(Fresh(n), acts);
  }

  predicate AllReturned(s: State) {
    forall i :: 0 <= i < |s.callers| ==> s.callers[i].Returned?
  }

  /** While a caller of Stop has not returned, a step that brings the end nearer is
      open, if need be after a loop is done with a tick. */
  lemma NoDeadlock(s: State) returns (acts: seq<Action>)
    requires Inv(s) && !AllReturned(s)
    ensures Run(s, acts) && Progress(acts) > 0
  {
    if !s.launched {
      acts := OneStep(s, Launch);
    } else if !s.started {
      acts := OneStep(s, SetStarted);
    } else {
      var i :| 0 <= i < |s.callers| && !s.callers[i].Returned?;
      assert CallerOk(s, i);
      if Shaking(s.callers[i]) {
        acts := LeaderMoves(s);
      } else if s.callers[i].Waiting? && !s.shutdown {
        acts := LeaderMoves(s);
      } else {
        acts := OneStep(s, Local(i));
      }
    }
  }

  lemma LeaderMoves(s: State) returns (acts: seq<Action>)
    requires Inv(s) && s.inShutdown && !s.shutdown
    ensures Run(s, acts) && Progress(acts) > 0
  {
    var i := s.leader;
    var c := s.callers[i];
    if c.SendStop? {
      if LoopOf(s, c.r).Busy? {
        var t := Apply(s, Done(c.r));
        assert Enabled(t, Stop(i, c.r));
        acts := OneStep(t, Stop(i, c.r));
        RunCons(s, Done(c.r), acts);
        acts := [Done(c.r)] + acts;
      } else {
        acts := OneStep(s, Stop(i, c.r));
      }
    } else if c.AwaitAck? {
      acts := OneStep(s, Ack(i, c.r));
    } else {
      acts := OneStep(s, Local(i));
    }
  }

  lemma OneStep(s: State, a: Action) returns (acts: seq<Action>)
    requires Enabled(s, a) && Progresses(a)
    ensures Run(s, acts) && Progress(acts) > 0
  {
    acts := [a];
    assert Run(Apply(s, a), []);
    RunCons(s, a, []);
  }

  lemma RunCons(s: State, a: Action, acts: seq<Action>)
    requires Enabled(s, a) && Run(Apply(s, a), acts)
    ensures Run(s, [a] + acts) && After(s, [a] + acts) == After(Apply(s, a), acts)
    ensures Progress([a] + acts) >= Progress(acts) && (Progresses(a) ==> Progress([a] + acts) > 0)
  {
    assert ([a] + acts)[1..] == acts;
  }

  lemma {:induction false} RunJoin(s: State, a: seq<Action>, b: seq<Action>)
    requires Run(s, a) && Run(After(s, a), b)
    ensures Run(s, a + b) && After(s, a + b) == After(After(s, a), b)
    decreases |a|
  {
    hide Enabled, Apply, Progress;
    if a == [] {
      assert a + b == b;
    } else {
      RunJoin(Apply(s, a[0]), a[1..], b);
      assert a + b == [a[0]] + (a[1..] + b);
      RunCons(s, a[0], a[1..] + b);
    }
  }

  /** From wherever a run has come, every caller can still return; and when all
      have, the node is stopped, unless all gave up on a node not started. */
  lemma EveryCallerCanReturn(s: State) returns (acts: seq<Action>)
    requires Inv(s)
    ensures Run(s, acts) && AllReturned(After(s, acts))
    ensures s.started && (exists i :: 0 <= i < |s.callers| && !GaveUp(s.callers[i])) ==> Stopped(After(s, acts))
  {
    acts := AllReturn(s);
    if s.started {
      forall i | 0 <= i < |s.callers| && !GaveUp(s.callers[i])
        ensures Stopped(After(s, acts))
      {
        hide Run, After, Enabled, Apply;
        GivesUpIff(s, acts, i);
        RunInv(s, acts);
        ReturnedStopped(After(s, acts), i);
      }
    }
  }

  lemma ReturnedStopped(t: State, i: nat)
    requires Inv(t) && i < |t.callers| && t.callers[i] == Returned(true)
    ensures Stopped(t)
  {
    assert CallerOk(t, i);
  }

  lemma {:induction false} AllReturn(s: State) returns (acts: seq<Action>)
    requires Inv(s)
    ensures Run(s, acts) && AllReturned(After(s, acts))
    decreases Rank(s)
  {
    hide Inv, Enabled, Apply, Rank;
    if AllReturned(s) {
      acts := [];
    } else {
      var first := NoDeadlock(s);
      RunInv(s, first);
      RunRank(s, first);
      var rest := AllReturn(After(s, first));
      RunJoin(s, first, rest);
      acts := first + rest;
    }
  }
}
