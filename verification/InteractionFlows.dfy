/** The two flows of the daemon that drive the registry: a presence request and a
    verification request, with calls of the agent at any point between their own. A
    flow is the sequence of calls it makes; the laws are about those sequences. */
module InteractionFlows {
  import opened Base
  import opened Users
  import opened InteractionRegistry
  import opened InteractionTracker
  import opened InteractionService
  import Service = VerifierEndpoints
  import VerifierConversation

  // ----- calls of the agent -----

  datatype AgentCall =
    | Answer(u: UserContext, id: u64, approved: bool)
    | Give(u: UserContext, id: u64, prompt: u64, bytes: seq<byte>)
    | Withdraw(u: UserContext, id: u64)
    | Leave(u: UserContext)

  function AsCall(a: AgentCall): (c: Call) {
    match a
    case Answer(u, id, approved) => DoRespond(u, id, approved)
    case Give(u, id, prompt, bytes) => DoSubmit(u, id, prompt, bytes)
    case Withdraw(u, id) => DoCancel(u, id)
    case Leave(u) => DoClearFor(u)
  }

  function AsCalls(acts: seq<AgentCall>): (cs: seq<Call>) {
    if acts == [] then [] else AsCalls(acts[..|acts| - 1]) + [AsCall(acts[|acts| - 1])]
  }

  predicate Leaves(acts: seq<AgentCall>, b: Binding) {
    exists i :: 0 <= i < |acts| && acts[i].Leave? && acts[i].u.Bound() == b
  }

  /** What a flow for request id of u sees of the registry: its own interaction. */
  function View(r: Registry, u: UserContext, id: u64): (v: Option<Pending>) {
    if IsCurrent(r, u, id) then r.current else None
  }

  /** The agent cannot bring an interaction back or change its state, and once it is
      closed to responses cannot change its response either. */
  ghost predicate Undisturbed(v: Option<Pending>, w: Option<Pending>) {
    w.Some? ==>
      && v.Some? && w.value.state == v.value.state
      && (v.value.responseClosed ==>
            && w.value.responseClosed && w.value.cancelRequested == v.value.cancelRequested
            && w.value.presenceResponse == v.value.presenceResponse)
  }

  lemma AgentStep(r: Registry, a: AgentCall, u: UserContext, id: u64)
    requires PendingOk(r)
    ensures var t := Apply(r, AsCall(a)).0;
      && Undisturbed(View(r, u, id), View(t, u, id))
      && (!(a.Leave? && a.u.Bound() == u.Bound()) ==>
            (View(r, u, id).Some? ==> View(t, u, id).Some?) && !SilentlyCloses(r, AsCall(a), u.Bound()))
  {
    hide SameUser;
    if r.current.Some? {
      SameUserIsBinding(r.current.value.user, a.u);
      SameUserIsBinding(r.current.value.user, u);
    }
  }

  lemma SilencedSnoc(calls: seq<Call>, c: Call, b: Binding)
    ensures Silenced(calls + [c], b) <==> Silenced(calls, b) || SilentlyCloses(Run(calls).reg, c, b)
  {
    assert (calls + [c])[..|calls|] == calls;
  }

  lemma LogSnoc(calls: seq<Call>, c: Call, e: Entry)
    ensures e in Run(calls + [c]).log <==> e in Run(calls).log || Apply(Run(calls).reg, c).1 == Some(e)
  {
    RunSnoc(calls, c);
  }

  lemma RunPending(calls: seq<Call>)
    ensures PendingOk(Run(calls).reg)
  {
    RunKeeps(calls);
  }

  lemma RunReg(calls: seq<Call>, c: Call)
    ensures Run(calls + [c]).reg == Apply(Run(calls).reg, c).0
  {
    RunSnoc(calls, c);
  }

  /** What the agent of b is shown over these calls. */
  function Shown(calls: seq<Call>, b: Binding): (es: seq<Event>) {
    EventsFor(Run(calls).log, b)
  }

  /** The log only grew. */
  ghost predicate LogGrows(before: seq<Call>, after: seq<Call>) {
    forall e :: e in Run(before).log ==> e in Run(after).log
  }

  lemma LogGrowsOn(a: seq<Call>, b: seq<Call>, c: seq<Call>)
    requires LogGrows(a, b) && LogGrows(b, c)
    ensures LogGrows(a, c)
  {
    hide Run;
  }

  /** A call that is no transition shows nothing. */
  lemma QuietCall(calls: seq<Call>, c: Call, b: Binding)
    requires !c.DoTransition?
    ensures Shown(calls + [c], b) == Shown(calls, b) && LogGrows(calls, calls + [c])
  {
    RunSnoc(calls, c);
    EventsStep(Run(calls), c, b);
    hide EventsFor;
  }

  lemma {:induction false} AgentsLaw(calls: seq<Call>, acts: seq<AgentCall>, u: UserContext, id: u64)
    ensures var after, b := calls + AsCalls(acts), u.Bound();
      && Undisturbed(View(Run(calls).reg, u, id), View(Run(after).reg, u, id))
      && LogGrows(calls, after) && Shown(after, b) == Shown(calls, b)
      && (!Leaves(acts, b) ==>
            && (View(Run(calls).reg, u, id).Some? ==> View(Run(after).reg, u, id).Some?)
            && (Silenced(after, b) <==> Silenced(calls, b)))
  {
    hide Apply, Run, Silenced, View, SilentlyCloses, Shown, AsCall;
    if acts == [] {
      assert calls + AsCalls(acts) == calls;
    } else {
      var front, a := acts[..|acts| - 1], acts[|acts| - 1];
      AgentsLaw(calls, front, u, id);
      var mid := calls + AsCalls(front);
      assert mid + [AsCall(a)] == calls + AsCalls(acts);
      RunPending(mid);
      AgentStep(Run(mid).reg, a, u, id);
      SilencedSnoc(mid, AsCall(a), u.Bound());
      AgentIsQuiet(a);
      QuietCall(mid, AsCall(a), u.Bound());
      RunReg(mid, AsCall(a));
      LogGrowsOn(calls, mid, mid + [AsCall(a)]);
      assert Leaves(front, u.Bound()) ==> Leaves(acts, u.Bound());
    }
  }

  lemma AgentIsQuiet(a: AgentCall)
    ensures !AsCall(a).DoTransition?
  {
  }

  // ----- the two flows -----

  /** The calls of publishing a state, and whether it throws. */
  function PublishCalls(calls: seq<Call>, u: UserContext, id: u64, s: InteractionState, registered: bool):
      (r: (seq<Call>, bool))
  {
    if !registered then (calls, false)
    else (calls + [DoTransition(u, id, s, 0)], Transition(Run(calls).reg, u, id, s, 0).None?)
  }

  /** Publishing shows the state exactly if the registry takes and does not suppress it. */
  lemma PublishLaw(calls: seq<Call>, u: UserContext, id: u64, s: InteractionState)
    ensures var after, b, t := calls + [DoTransition(u, id, s, 0)], u.Bound(), Transition(Run(calls).reg, u, id, s, 0);
      && Run(after).reg == (if t.Some? then t.value.0 else Run(calls).reg)
      && LogGrows(calls, after) && (Silenced(after, b) <==> Silenced(calls, b))
      && (forall i :: CancelTaken(i) in Run(after).log <==> CancelTaken(i) in Run(calls).log)
      && Shown(after, b) == Shown(calls, b)
           + (if t.Some? && t.value.1 then [Event(GenerationOf(b), id, t.value.2, s)] else [])
  {
    hide Transition, EventsFor, Silenced;
    var c := DoTransition(u, id, s, 0);
    RunSnoc(calls, c);
    SilencedSnoc(calls, c, u.Bound());
    EventsStep(Run(calls), c, u.Bound());
  }

  /** Leaving the scope closes silently exactly what is still there and was shown. */
  lemma LeaveLaw(calls: seq<Call>, u: UserContext, id: u64)
    requires id != 0
    ensures var after, b, v := calls + [DoEnd(u, id)], u.Bound(), View(Run(calls).reg, u, id);
      && LogGrows(calls, after) && Shown(after, b) == Shown(calls, b) && !IsCurrent(Run(after).reg, u, id)
      && (Silenced(after, b) <==> Silenced(calls, b) || (v.Some? && v.value.state.Some?))
      && (forall i :: CancelTaken(i) in Run(after).log <==> CancelTaken(i) in Run(calls).log)
  {
    hide Silenced, SameUser, EventsFor;
    var c := DoEnd(u, id);
    if Run(calls).reg.current.Some? {
      SameUserIsBinding(Run(calls).reg.current.value.user, u);
    }
    RunSnoc(calls, c);
    SilencedSnoc(calls, c, u.Bound());
    QuietCall(calls, c, u.Bound());
  }

  datatype FlowEnd =
    | FlowApproved | FlowDenied | FlowCancelled
    | Unavailable | OperationCancelled | ActionTimedOut | InfrastructureError
    | Refused   // the registry threw
    | Waiting   // no further turn was given

  datatype Turn = Turn(agent: seq<AgentCall>, stop: bool, expired: bool)

  /** What a presence request meets: whether its agent is registered when it begins,
      publishes its start and publishes its end; what the agent calls in between;
      whether the user context is unchanged at the end. */
  datatype PresenceEnv = PresenceEnv(
    atBegin: bool, early: seq<AgentCall>, atStart: bool, turns: seq<Turn>, late: seq<AgentCall>,
    contextCurrent: bool, atEnd: bool)

  predicate AgentLeaves(env: PresenceEnv, b: Binding) {
    Leaves(env.early, b) || Leaves(env.late, b) || TurnsLeave(env.turns, b)
  }

  /** The terminal state a presence request publishes; None when it publishes none. */
  function PresenceFinal(res: PresenceResult, contextCurrent: bool): (s: Option<InteractionState>) {
    match res
    case Approved => Some(if contextCurrent then PresenceApproved else PresenceDenied)
    case Denied => Some(PresenceDenied)
    case ClientCancelled => Some(Cancelled)
    case PlatformCancelled => Some(Cancelled)
    case WaitTimedOut => Some(TimedOut)
    case Invalidated => None
  }

  function PresenceEnd(res: PresenceResult, contextCurrent: bool): (end: FlowEnd) {
    match res
    case Approved => if contextCurrent then FlowApproved else FlowDenied
    case Denied => FlowDenied
    case ClientCancelled => FlowCancelled
    case PlatformCancelled => OperationCancelled
    case WaitTimedOut => ActionTimedOut
    case Invalidated => Unavailable
  }

  /** After a result, the terminal state that belongs to it will not be suppressed. */
  ghost predicate Settled(v: Option<Pending>, res: PresenceResult) {
    v.Some? ==>
      && (res.Approved? || res.Denied? || res.WaitTimedOut? ==> v.value.responseClosed && !v.value.cancelRequested)
      && !res.Invalidated?
  }

  lemma TurnSettles(r: Registry, u: UserContext, id: u64, stop: bool, expired: bool)
    requires PendingOk(r)
    ensures var (t, res) := CheckPresence(r, u, id, stop, expired);
      && (View(t, u, id).Some? <==> View(r, u, id).Some?)
      && (View(t, u, id).Some? ==> View(t, u, id).value.state == View(r, u, id).value.state)
      && (res.Some? ==> Settled(View(t, u, id), res.value))
      && !SilentlyCloses(r, DoCheckPresence(u, id, stop, expired), u.Bound())
  {
  }

  /** A settled interaction that showed its start shows its end. */
  lemma FinalIsShown(r: Registry, u: UserContext, id: u64, res: PresenceResult, contextCurrent: bool)
    requires PendingOk(r) && View(r, u, id).Some? && Settled(View(r, u, id), res)
    requires View(r, u, id).value.state in {None, Some(PresenceRequired)}
    ensures var s := PresenceFinal(res, contextCurrent).value;
      var t := Transition(r, u, id, s, 0);
      if View(r, u, id).value.state.None? then t.None?
      else t.Some? && t.value.1 && t.value.2 == 0 && t.value.0.current.None?
  {
  }

  /** The start is shown unless the interaction is gone. */
  lemma StartIsShown(r: Registry, u: UserContext, id: u64, s: InteractionState)
    requires PendingOk(r) && StartState(s) && id != 0
    requires View(r, u, id).Some? ==> View(r, u, id).value.state.None?
    ensures var t := Transition(r, u, id, s, 0);
      && (t.Some? <==> View(r, u, id).Some?)
      && (t.Some? ==>
            && View(t.value.0, u, id).Some? && View(t.value.0, u, id).value.state == Some(s)
            && t.value.1 && t.value.2 == 0)
  {
  }

  lemma GoneStaysGone(r: Registry, u: UserContext, id: u64, s: InteractionState)
    requires View(r, u, id).None?
    ensures Transition(r, u, id, s, 0).None?
  {
  }

  lemma SettledGone(v: Option<Pending>, res: PresenceResult)
    requires Settled(v, res) && res.Invalidated?
    ensures v.None?
  {
  }

  /** The calls of a wait: before every turn those of the agent. None waits on. */
  function WaitCalls(calls: seq<Call>, u: UserContext, id: u64, turns: seq<Turn>): (r: (seq<Call>, Option<PresenceResult>))
    decreases |turns|
  {
    if turns == [] then (calls, None)
    else
      var t, before := turns[0], calls + AsCalls(turns[0].agent);
      var after, res := before + [DoCheckPresence(u, id, t.stop, t.expired)],
        CheckPresence(Run(before).reg, u, id, t.stop, t.expired).1;
      if res.Some? then (after, res) else WaitCalls(after, u, id, turns[1..])
  }

  /** The interaction is gone or still shows what it showed. */
  ghost predicate SameShown(v: Option<Pending>, w: Option<Pending>) {
    w.Some? ==> v.Some? && w.value.state == v.value.state
  }

  /** A result of the wait has its cause in the log. */
  ghost predicate Caused(res: PresenceResult, log: seq<Entry>, id: u64) {
    match res
    case Approved => Answered(id, true) in log
    case Denied => Answered(id, false) in log
    case ClientCancelled => CancelTaken(id) in log
    case PlatformCancelled => WaitClosed(id) in log
    case WaitTimedOut => WaitClosed(id) in log
    case Invalidated => true
  }

  lemma TurnLaw(calls: seq<Call>, u: UserContext, id: u64, stop: bool, expired: bool)
    ensures var after, b := calls + [DoCheckPresence(u, id, stop, expired)], u.Bound();
      var res := CheckPresence(Run(calls).reg, u, id, stop, expired).1;
      && SameShown(View(Run(calls).reg, u, id), View(Run(after).reg, u, id))
      && (View(Run(calls).reg, u, id).Some? ==> View(Run(after).reg, u, id).Some?)
      && (Silenced(after, b) <==> Silenced(calls, b)) && Shown(after, b) == Shown(calls, b) && LogGrows(calls, after)
      && (res.Some? ==>
            && Settled(View(Run(after).reg, u, id), res.value) && Caused(res.value, Run(after).log, id)
            && (res.value.PlatformCancelled? ==> stop) && (res.value.WaitTimedOut? ==> expired))
  {
    hide Run, Silenced, SilentlyCloses, PendingOk, View, Settled, Shown;
    var c := DoCheckPresence(u, id, stop, expired);
    RunPending(calls);
    TurnSettles(Run(calls).reg, u, id, stop, expired);
    WaitsOtherwise(calls, u, id, 0, stop, expired);
    SilencedSnoc(calls, c, u.Bound());
    QuietCall(calls, c, u.Bound());
    LogSnoc(calls, c, WaitClosed(id));
    RunReg(calls, c);
  }

  predicate TurnsLeave(turns: seq<Turn>, b: Binding) {
    exists i :: 0 <= i < |turns| && Leaves(turns[i].agent, b)
  }

  /** After a wait: the interaction is gone or shows what it showed, nothing was shown
      meanwhile, and a result is settled and has its cause. */
  ghost predicate Waited(
      calls: seq<Call>, after: seq<Call>, u: UserContext, id: u64, leaves: bool, res: Option<PresenceResult>)
  {
    && SameShown(View(Run(calls).reg, u, id), View(Run(after).reg, u, id))
    && Shown(after, u.Bound()) == Shown(calls, u.Bound()) && LogGrows(calls, after)
    && (res.Some? ==> Settled(View(Run(after).reg, u, id), res.value) && Caused(res.value, Run(after).log, id))
    && (!leaves ==>
          && (View(Run(calls).reg, u, id).Some? ==> View(Run(after).reg, u, id).Some?)
          && (Silenced(after, u.Bound()) <==> Silenced(calls, u.Bound())))
  }

  lemma OneTurnWaited(calls: seq<Call>, u: UserContext, id: u64, t: Turn)
    ensures var before := calls + AsCalls(t.agent);
      Waited(calls, before + [DoCheckPresence(u, id, t.stop, t.expired)], u, id, Leaves(t.agent, u.Bound()),
        CheckPresence(Run(before).reg, u, id, t.stop, t.expired).1)
  {
    hide Run, Silenced, View, Settled, Shown, CheckPresence, Caused, Leaves, AsCalls;
    var before := calls + AsCalls(t.agent);
    AgentsLaw(calls, t.agent, u, id);
    TurnLaw(before, u, id, t.stop, t.expired);
    LogGrowsOn(calls, before, before + [DoCheckPresence(u, id, t.stop, t.expired)]);
  }

  lemma WaitedOn(
      a: seq<Call>, b: seq<Call>, c: seq<Call>, u: UserContext, id: u64, first: bool, later: bool, res: Option<PresenceResult>)
    requires Waited(a, b, u, id, first, None) && Waited(b, c, u, id, later, res)
    ensures Waited(a, c, u, id, first || later, res)
  {
    hide Run, Silenced, View, Settled, Shown, Caused;
    LogGrowsOn(a, b, c);
  }

  lemma {:induction false} WaitLaw(calls: seq<Call>, u: UserContext, id: u64, turns: seq<Turn>)
    ensures var (after, res) := WaitCalls(calls, u, id, turns);
      Waited(calls, after, u, id, TurnsLeave(turns, u.Bound()), res)
    decreases |turns|
  {
    hide Run, Waited, CheckPresence, Leaves, AsCalls;
    if turns == [] {
      WaitedNothing(calls, u, id, TurnsLeave(turns, u.Bound()));
    } else {
      var t, b := turns[0], u.Bound();
      var before := calls + AsCalls(t.agent);
      var after := before + [DoCheckPresence(u, id, t.stop, t.expired)];
      var res := CheckPresence(Run(before).reg, u, id, t.stop, t.expired).1;
      OneTurnWaited(calls, u, id, t);
      assert Leaves(t.agent, b) ==> TurnsLeave(turns, b);
      assert TurnsLeave(turns[1..], b) ==> TurnsLeave(turns, b);
      if res.Some? {
        WaitedMore(calls, after, u, id, Leaves(t.agent, b), TurnsLeave(turns, b), res);
      } else {
        WaitLaw(after, u, id, turns[1..]);
        var (end, last) := WaitCalls(after, u, id, turns[1..]);
        WaitedOn(calls, after, end, u, id, Leaves(t.agent, b), TurnsLeave(turns[1..], b), last);
        WaitedMore(calls, end, u, id, Leaves(t.agent, b) || TurnsLeave(turns[1..], b), TurnsLeave(turns, b), last);
      }
    }
  }

  lemma WaitedNothing(calls: seq<Call>, u: UserContext, id: u64, leaves: bool)
    ensures Waited(calls, calls, u, id, leaves, None)
  {
  }

  lemma WaitedMore(
      a: seq<Call>, b: seq<Call>, u: UserContext, id: u64, some: bool, any: bool, res: Option<PresenceResult>)
    requires Waited(a, b, u, id, some, res) && (some ==> any)
    ensures Waited(a, b, u, id, any, res)
  {
  }

  /** All calls of a presence request, its own and the agent's, and how it ends. */
  function PresenceCalls(calls: seq<Call>, u: UserContext, env: PresenceEnv): (r: (seq<Call>, FlowEnd)) {
    if u.session.None? || !env.atBegin then (calls, Unavailable)
    else if Begin(Run(calls).reg, u).None? then (calls + [DoBegin(u)], Refused)
    else
      var id := Run(calls).reg.nextRequestId;
      var (shown, threw) := PublishCalls(calls + [DoBegin(u)] + AsCalls(env.early), u, id, PresenceRequired, env.atStart);
      if threw then (shown + [DoEnd(u, id)], Refused)
      else
        var (waited, res) := WaitCalls(shown, u, id, env.turns);
        if res.None? then (waited, Waiting)
        else PresenceEndCalls(waited + AsCalls(env.late), u, id, res.value, env.contextCurrent, env.atEnd)
  }

  function PresenceEndCalls(
      calls: seq<Call>, u: UserContext, id: u64, res: PresenceResult, contextCurrent: bool, atEnd: bool):
      (r: (seq<Call>, FlowEnd))
  {
    var s, end := PresenceFinal(res, contextCurrent), PresenceEnd(res, contextCurrent);
    if s.None? then (calls + [DoEnd(u, id)], end)
    else
      var (shown, threw) := PublishCalls(calls, u, id, s.value, atEnd);
      (shown + [DoEnd(u, id)], if threw then Refused else end)
  }

  /** A flow that has begun: its interaction is there unless the agent left, and shows
      its start if the agent was registered. */
  ghost predicate Underway(calls: seq<Call>, after: seq<Call>, u: UserContext, id: u64, s: InteractionState, atStart: bool,
      leaves: bool)
  {
    var v, b := View(Run(after).reg, u, id), u.Bound();
    && id != 0 && (v.Some? ==> v.value.state == if atStart then Some(s) else None)
    && (!leaves ==>
          && v.Some? && (Silenced(after, b) <==> Silenced(calls, b))
          && Shown(after, b) == Shown(calls, b) + (if atStart then [Event(GenerationOf(b), id, 0, s)] else []))
  }

  /** Beginning, the agent's early calls, and the start. */
  lemma StartLaw(calls: seq<Call>, u: UserContext, early: seq<AgentCall>, s: InteractionState, atStart: bool)
    requires Begin(Run(calls).reg, u).Some? && StartState(s)
    ensures var id := Run(calls).reg.nextRequestId;
      var (shown, threw) := PublishCalls(calls + [DoBegin(u)] + AsCalls(early), u, id, s, atStart);
      && (threw ==> Leaves(early, u.Bound()) && View(Run(shown).reg, u, id).None?)
      && (!threw ==> Underway(calls, shown, u, id, s, atStart, Leaves(early, u.Bound())))
  {
    hide Run, Silenced, Apply, Transition, Begin, AsCalls, Leaves, Shown, StartState;
    var id, b := Run(calls).reg.nextRequestId, u.Bound();
    var begun := calls + [DoBegin(u)];
    var mid := begun + AsCalls(early);
    BeginLaw(calls, u);
    AgentsLaw(begun, early, u, id);
    RunPending(mid);
    StartIsShown(Run(mid).reg, u, id, s);
    PublishLaw(mid, u, id, s);
  }

  lemma BeginLaw(calls: seq<Call>, u: UserContext)
    requires Begin(Run(calls).reg, u).Some?
    ensures var after, id, b := calls + [DoBegin(u)], Run(calls).reg.nextRequestId, u.Bound();
      && id != 0 && View(Run(after).reg, u, id).Some? && View(Run(after).reg, u, id).value.state.None?
      && (Silenced(after, b) <==> Silenced(calls, b)) && Shown(after, b) == Shown(calls, b)
  {
    hide Silenced, Shown, EventsFor;
    RunPending(calls);
    RunSnoc(calls, DoBegin(u));
    SameUserIsBinding(u.Bound(), u);
    SilencedSnoc(calls, DoBegin(u), u.Bound());
    QuietCall(calls, DoBegin(u), u.Bound());
  }

  /** What the agent is shown at the end, by what the request returns. */
  function PresenceShown(end: FlowEnd): (s: Option<InteractionState>) {
    match end
    case FlowApproved => Some(PresenceApproved)
    case FlowDenied => Some(PresenceDenied)
    case FlowCancelled => Some(Cancelled)
    case OperationCancelled => Some(Cancelled)
    case ActionTimedOut => Some(TimedOut)
    case _ => None
  }

  /** Why a presence request returned what it did. */
  ghost predicate PresenceReason(end: FlowEnd, log: seq<Entry>, id: u64, contextCurrent: bool) {
    match end
    case FlowApproved => Answered(id, true) in log && contextCurrent
    case FlowDenied => Answered(id, false) in log || (Answered(id, true) in log && !contextCurrent)
    case FlowCancelled => CancelTaken(id) in log
    case OperationCancelled => WaitClosed(id) in log
    case ActionTimedOut => WaitClosed(id) in log
    case InfrastructureError => false
    case _ => true
  }

  /** Publishing the end of a presence request and leaving its scope. */
  lemma PresenceEndLaw(
      calls: seq<Call>, u: UserContext, id: u64, res: PresenceResult, contextCurrent: bool, atEnd: bool)
    requires id != 0 && Settled(View(Run(calls).reg, u, id), res) && Caused(res, Run(calls).log, id)
    requires View(Run(calls).reg, u, id).Some? ==>
      View(Run(calls).reg, u, id).value.state in {None, Some(PresenceRequired)}
    ensures var (after, end) := PresenceEndCalls(calls, u, id, res, contextCurrent, atEnd);
      var v, b := View(Run(calls).reg, u, id), u.Bound();
      && LogGrows(calls, after) && !IsCurrent(Run(after).reg, u, id) && !end.Waiting?
      && PresenceReason(end, Run(after).log, id, contextCurrent)
      && (v.Some? ==> !end.Unavailable? && (end.Refused? <==> atEnd && v.value.state.None?))
      && (end.Refused? ==> atEnd)
      && (Silenced(after, b) <==> Silenced(calls, b) || (!atEnd && v.Some? && v.value.state.Some?))
      && (v.Some? && !end.Refused? ==> PresenceShown(end).Some?)
      && Shown(after, b) == Shown(calls, b)
           + (if v.Some? && v.value.state.Some? && atEnd
              then [Event(GenerationOf(b), id, 0, PresenceShown(end).value)] else [])
  {
    hide Run, Silenced, Transition, Apply, PendingOk, IsCurrent, Shown, Caused, PresenceReason, Settled;
    RunPending(calls);
    var s, v, b := PresenceFinal(res, contextCurrent), View(Run(calls).reg, u, id), u.Bound();
    if s.None? {
      SettledGone(v, res);
      LeaveLaw(calls, u, id);
    } else {
      if v.Some? {
        FinalIsShown(Run(calls).reg, u, id, res, contextCurrent);
      } else {
        GoneStaysGone(Run(calls).reg, u, id, s.value);
      }
      PublishLaw(calls, u, id, s.value);
      var (shown, threw) := PublishCalls(calls, u, id, s.value, atEnd);
      LeaveLaw(shown, u, id);
      LogGrowsOn(calls, shown, shown + [DoEnd(u, id)]);
    }
    var (after, end) := PresenceEndCalls(calls, u, id, res, contextCurrent, atEnd);
    ReasonFor(res, Run(calls).log, Run(after).log, id, contextCurrent, end);
  }

  lemma ReasonFor(
      res: PresenceResult, before: seq<Entry>, log: seq<Entry>, id: u64, contextCurrent: bool, end: FlowEnd)
    requires Caused(res, before, id) && (forall e :: e in before ==> e in log)
    requires end.Refused? || end == PresenceEnd(res, contextCurrent)
    ensures PresenceReason(end, log, id, contextCurrent)
  {
  }

  lemma SettledStays(v: Option<Pending>, w: Option<Pending>, res: PresenceResult)
    requires Settled(v, res) && Undisturbed(v, w)
    ensures Settled(w, res)
  {
  }

  lemma CausedStays(res: PresenceResult, id: u64, before: seq<Call>, after: seq<Call>)
    requires Caused(res, Run(before).log, id) && LogGrows(before, after)
    ensures Caused(res, Run(after).log, id)
  {
    hide Run;
  }

  /** From the start of a presence request to its result and the agent's last calls. */
  lemma UntilResult(calls: seq<Call>, shown: seq<Call>, u: UserContext, id: u64, env: PresenceEnv, early: bool)
    requires Underway(calls, shown, u, id, PresenceRequired, env.atStart, early)
    ensures var (waited, res) := WaitCalls(shown, u, id, env.turns);
      var last := waited + AsCalls(env.late);
      && (!early && !TurnsLeave(env.turns, u.Bound()) ==>
            Underway(calls, waited, u, id, PresenceRequired, env.atStart, false))
      && Underway(calls, last, u, id, PresenceRequired, env.atStart,
           early || TurnsLeave(env.turns, u.Bound()) || Leaves(env.late, u.Bound()))
      && (res.Some? ==> Settled(View(Run(last).reg, u, id), res.value) && Caused(res.value, Run(last).log, id))
  {
    hide Run, Silenced, Shown, View, Settled, Caused, WaitCalls, AsCalls, Leaves, TurnsLeave;
    var (waited, res) := WaitCalls(shown, u, id, env.turns);
    WaitLaw(shown, u, id, env.turns);
    AgentsLaw(waited, env.late, u, id);
    var last := waited + AsCalls(env.late);
    if res.Some? {
      SettledStays(View(Run(waited).reg, u, id), View(Run(last).reg, u, id), res.value);
      CausedStays(res.value, id, waited, last);
    }
  }

  /** A presence request is approved only if that very request was answered so in an
      unchanged context, and every other end has its reason. Once begun, with an agent
      that does not leave: it closes silently exactly if the agent was registered at the
      start and is not at the end; and while it is registered the agent is shown that
      presence is required and then, once, the end that belongs to what is returned. */
  lemma PresenceLaw(calls: seq<Call>, u: UserContext, env: PresenceEnv)
    ensures var (after, end) := PresenceCalls(calls, u, env);
      var id, b := Run(calls).reg.nextRequestId, u.Bound();
      && PresenceReason(end, Run(after).log, id, env.contextCurrent)
      && (!end.Waiting? && !end.Refused? && !end.Unavailable? ==> !IsCurrent(Run(after).reg, u, id))
      && (!AgentLeaves(env, b) && !end.Waiting? ==>
            (Silenced(after, b) <==>
              || Silenced(calls, b)
              || (!end.Unavailable? && !end.Refused? && env.atStart && !env.atEnd)))
      && (!AgentLeaves(env, b) && env.atBegin && u.session.Some? && Begin(Run(calls).reg, u).Some? && env.atStart ==>
            && !end.Unavailable? && !end.Refused?
            && (end.Waiting? || PresenceShown(end).Some?)
            && Shown(after, b) == Shown(calls, b) + [Event(GenerationOf(b), id, 0, PresenceRequired)]
                 + (if end.Waiting? || !env.atEnd then [] else [Event(GenerationOf(b), id, 0, PresenceShown(end).value)]))
  {
    hide Run, Silenced, Shown, View, Settled, Caused, WaitCalls, AsCalls, Leaves, TurnsLeave, Begin, PresenceEndCalls,
      PublishCalls, IsCurrent;
    var id, b := Run(calls).reg.nextRequestId, u.Bound();
    if u.session.None? || !env.atBegin {
    } else if Begin(Run(calls).reg, u).None? {
      BeginRefused(calls, u);
    } else {
      StartLaw(calls, u, env.early, PresenceRequired, env.atStart);
      var (shown, threw) := PublishCalls(calls + [DoBegin(u)] + AsCalls(env.early), u, id, PresenceRequired, env.atStart);
      if !threw {
        UntilResult(calls, shown, u, id, env, Leaves(env.early, b));
        var (waited, res) := WaitCalls(shown, u, id, env.turns);
        if res.Some? {
          PresenceEndLaw(waited + AsCalls(env.late), u, id, res.value, env.contextCurrent, env.atEnd);
        }
      }
    }
  }

  lemma BeginRefused(calls: seq<Call>, u: UserContext)
    requires Begin(Run(calls).reg, u).None?
    ensures Silenced(calls + [DoBegin(u)], u.Bound()) <==> Silenced(calls, u.Bound())
  {
    hide Silenced;
    SilencedSnoc(calls, DoBegin(u), u.Bound());
  }

  // ----- verification -----

  /** What happens between the start and the end of a verification request: calls of
      the agent, and the flow's own reports, prompts and turns of waiting for a secret. */
  datatype VerificationStep =
    | FromAgent(a: AgentCall)
    | Report(error: bool, textSize: nat)
    | Prompt(textSize: nat)
    | SecretWait(prompt: u64, stop: bool, expired: bool)

  function StepCall(step: VerificationStep, u: UserContext, id: u64): (c: Call) {
    match step
    case FromAgent(a) => AsCall(a)
    case Report(error, n) => DoTransition(u, id, if error then VerificationError else VerificationInformation, n)
    case Prompt(n) => DoTransition(u, id, SecretRequired, n)
    case SecretWait(prompt, stop, expired) => DoCheckSecret(u, id, prompt, stop, expired)
  }

  predicate StepLeaves(step: VerificationStep, b: Binding) {
    step.FromAgent? && step.a.Leave? && step.a.u.Bound() == b
  }

  datatype VerificationEnv = VerificationEnv(
    atBegin: bool, early: seq<AgentCall>, atStart: bool, steps: seq<VerificationStep>, outcome: Service.End,
    contextCurrent: bool, atEnd: bool)

  predicate VerificationLeaves(env: VerificationEnv, b: Binding) {
    Leaves(env.early, b) || StepsLeave(env.steps, b)
  }

  /** The terminal state published for an outcome of the verifier service. */
  function VerificationFinal(outcome: Service.End, contextCurrent: bool): (s: InteractionState) {
    match outcome
    case Returned(result) =>
      if result == VerifierConversation.SUCCESS && contextCurrent then VerificationSucceeded else VerificationFailed
    case UserCancelled => Cancelled
    case Stopped => Cancelled
    case TimedOut => TimedOut
    case _ => VerificationFailed
  }

  function VerificationEnd(outcome: Service.End, contextCurrent: bool): (end: FlowEnd) {
    match outcome
    case Returned(result) =>
      if result == VerifierConversation.SUCCESS && contextCurrent then FlowApproved
      else if result == VerifierConversation.DENIED then FlowDenied
      else InfrastructureError
    case UserCancelled => FlowCancelled
    case Stopped => OperationCancelled
    case TimedOut => ActionTimedOut
    case _ => InfrastructureError
  }

  /** The interaction is there, and shows progress if its start was shown. */
  ghost predicate InProgress(v: Option<Pending>, started: bool) {
    v.Some? && if started then v.value.state.Some? && Progress(v.value.state.value) else v.value.state.None?
  }

  lemma StepStaysInProgress(r: Registry, step: VerificationStep, u: UserContext, id: u64, started: bool)
    requires PendingOk(r) && InProgress(View(r, u, id), started) && !StepLeaves(step, u.Bound())
    ensures InProgress(View(Apply(r, StepCall(step, u, id)).0, u, id), started)
    ensures !SilentlyCloses(r, StepCall(step, u, id), u.Bound())
  {
    hide SameUser;
    if step.FromAgent? {
      AgentStep(r, step.a, u, id);
    }
  }

  function StepCalls(steps: seq<VerificationStep>, u: UserContext, id: u64): (cs: seq<Call>) {
    if steps == [] then [] else StepCalls(steps[..|steps| - 1], u, id) + [StepCall(steps[|steps| - 1], u, id)]
  }

  /** The end of a verification is shown unless a cancellation was accepted that it
      does not report. */
  lemma FinalShownIff(calls: seq<Call>, u: UserContext, id: u64, s: InteractionState)
    requires InProgress(View(Run(calls).reg, u, id), true) && Terminal(s) && !s.PresenceApproved? && !s.PresenceDenied?
    ensures var r := Run(calls).reg;
      var t := Transition(r, u, id, s, 0);
      && t.Some? && t.value.2 == 0
      && (if CancelTaken(id) in Run(calls).log && !s.Cancelled? then t.value.0 == r && !t.value.1
          else t.value.0.current.None? && t.value.1)
  {
    RunKeeps(calls);
    hide ResponsesOk, IdsOk, SecretsOk;
  }

  /** Without its start nothing else of a verification can be shown. */
  lemma NothingShownUnstarted(r: Registry, u: UserContext, id: u64, s: InteractionState)
    requires InProgress(View(r, u, id), false) && Terminal(s)
    ensures Transition(r, u, id, s, 0).None?
  {
  }

  /** All calls of a verification request, and how it ends. */
  function VerificationCalls(calls: seq<Call>, u: UserContext, env: VerificationEnv): (r: (seq<Call>, FlowEnd)) {
    if u.session.None? || !env.atBegin then (calls, Unavailable)
    else if Begin(Run(calls).reg, u).None? then (calls + [DoBegin(u)], Refused)
    else
      var id := Run(calls).reg.nextRequestId;
      var (shown, threw) := PublishCalls(calls + [DoBegin(u)] + AsCalls(env.early), u, id, VerificationStarted, env.atStart);
      if threw then (shown + [DoEnd(u, id)], Refused)
      else if env.outcome.Waiting? then (shown + StepCalls(env.steps, u, id), Waiting)
      else VerificationEndCalls(shown + StepCalls(env.steps, u, id), u, id, env.outcome, env.contextCurrent, env.atEnd)
  }

  function VerificationEndCalls(
      calls: seq<Call>, u: UserContext, id: u64, outcome: Service.End, contextCurrent: bool, atEnd: bool):
      (r: (seq<Call>, FlowEnd))
  {
    var (shown, threw) := PublishCalls(calls, u, id, VerificationFinal(outcome, contextCurrent), atEnd);
    if !threw then (shown + [DoEnd(u, id)], VerificationEnd(outcome, contextCurrent))
    else if outcome.Returned? then (PublishCalls(shown, u, id, VerificationFailed, atEnd).0 + [DoEnd(u, id)], Refused)
    else (shown + [DoEnd(u, id)], Refused)
  }

  /** Only progress of this request was shown in between, and nothing without its start. */
  ghost predicate ProgressOnly(before: seq<Event>, after: seq<Event>, id: u64, started: bool) {
    && before <= after && (!started ==> after == before)
    && forall i :: |before| <= i < |after| ==>
         after[i].requestId == id && after[i].state in {VerificationInformation, VerificationError, SecretRequired}
  }

  lemma StepShows(calls: seq<Call>, step: VerificationStep, u: UserContext, id: u64, started: bool)
    requires InProgress(View(Run(calls).reg, u, id), started) && !StepLeaves(step, u.Bound())
    ensures var after, b := calls + [StepCall(step, u, id)], u.Bound();
      && InProgress(View(Run(after).reg, u, id), started) && (Silenced(after, b) <==> Silenced(calls, b))
      && LogGrows(calls, after) && ProgressOnly(Shown(calls, b), Shown(after, b), id, started)
  {
    hide Silenced, SilentlyCloses, EventsFor, SameUser;
    var c := StepCall(step, u, id);
    RunPending(calls);
    StepStaysInProgress(Run(calls).reg, step, u, id, started);
    SilencedSnoc(calls, c, u.Bound());
    RunSnoc(calls, c);
    EventsStep(Run(calls), c, u.Bound());
    if step.FromAgent? {
      AgentIsQuiet(step.a);
    }
  }

  predicate StepsLeave(steps: seq<VerificationStep>, b: Binding) {
    exists i :: 0 <= i < |steps| && StepLeaves(steps[i], b)
  }

  lemma {:induction false} StepsLaw(calls: seq<Call>, steps: seq<VerificationStep>, u: UserContext, id: u64, started: bool)
    requires InProgress(View(Run(calls).reg, u, id), started) && !StepsLeave(steps, u.Bound())
    ensures var after, b := calls + StepCalls(steps, u, id), u.Bound();
      && InProgress(View(Run(after).reg, u, id), started) && (Silenced(after, b) <==> Silenced(calls, b))
      && LogGrows(calls, after) && ProgressOnly(Shown(calls, b), Shown(after, b), id, started)
  {
    hide Run, Silenced, Shown, View, InProgress, StepCall, StepLeaves;
    if steps == [] {
      assert calls + StepCalls(steps, u, id) == calls;
    } else {
      var front, step := steps[..|steps| - 1], steps[|steps| - 1];
      assert !StepsLeave(front, u.Bound()) && !StepLeaves(step, u.Bound());
      StepsLaw(calls, front, u, id, started);
      var mid := calls + StepCalls(front, u, id);
      assert mid + [StepCall(step, u, id)] == calls + StepCalls(steps, u, id);
      StepShows(mid, step, u, id, started);
      LogGrowsOn(calls, mid, mid + [StepCall(step, u, id)]);
    }
  }

  /** What a verification request returns for each outcome of the verifier service. */
  lemma VerificationReturns(outcome: Service.End, contextCurrent: bool)
    ensures var end := VerificationEnd(outcome, contextCurrent);
      && (end.FlowApproved? <==> Service.ApprovesVerification(outcome, contextCurrent))
      && (end.FlowDenied? <==> outcome == Service.Returned(2))
      && (end.FlowCancelled? <==> outcome.UserCancelled?)
      && (end.OperationCancelled? <==> outcome.Stopped?)
      && (end.ActionTimedOut? <==> outcome.TimedOut?)
      && (end.InfrastructureError? || end.FlowApproved? || end.FlowDenied? || end.FlowCancelled?
          || end.OperationCancelled? || end.ActionTimedOut?)
  {
  }

  /** What the agent is shown at the end, by what the request returns. */
  function VerificationShown(end: FlowEnd): (s: InteractionState) {
    match end
    case FlowApproved => VerificationSucceeded
    case FlowCancelled => Cancelled
    case OperationCancelled => Cancelled
    case ActionTimedOut => TimedOut
    case _ => VerificationFailed
  }

  /** Publishing the end of a verification request and leaving its scope. */
  lemma VerificationEndLaw(
      calls: seq<Call>, u: UserContext, id: u64, outcome: Service.End, contextCurrent: bool, atEnd: bool, started: bool)
    requires id != 0 && InProgress(View(Run(calls).reg, u, id), started)
    ensures var (after, end) := VerificationEndCalls(calls, u, id, outcome, contextCurrent, atEnd);
      var s, b := VerificationShown(VerificationEnd(outcome, contextCurrent)), u.Bound();
      var suppressed := CancelTaken(id) in Run(after).log && s != Cancelled;
      && (end.Refused? <==> atEnd && !started) && !IsCurrent(Run(after).reg, u, id)
      && (!end.Refused? ==> end == VerificationEnd(outcome, contextCurrent))
      && (Silenced(after, b) <==> Silenced(calls, b) || (started && (!atEnd || suppressed)))
      && Shown(after, b) == Shown(calls, b)
           + (if started && atEnd && !suppressed then [Event(GenerationOf(b), id, 0, s)] else [])
  {
    hide Run, Silenced, Transition, Shown, View, IsCurrent;
    var s := VerificationFinal(outcome, contextCurrent);
    assert s == VerificationShown(VerificationEnd(outcome, contextCurrent));
    if started {
      FinalShownIff(calls, u, id, s);
    } else {
      NothingShownUnstarted(Run(calls).reg, u, id, s);
    }
    PublishLaw(calls, u, id, s);
    var (shown, threw) := PublishCalls(calls, u, id, s, atEnd);
    if threw && outcome.Returned? {
      NothingShownUnstarted(Run(shown).reg, u, id, VerificationFailed);
      PublishLaw(shown, u, id, VerificationFailed);
      LeaveLaw(PublishCalls(shown, u, id, VerificationFailed, atEnd).0, u, id);
    } else {
      LeaveLaw(shown, u, id);
    }
    GoneIsNoView(Run(shown).reg, u, id);
  }

  lemma GoneIsNoView(r: Registry, u: UserContext, id: u64)
    ensures r.current.None? ==> View(r, u, id).None?
  {
  }

  /** A verification request, with an agent that does not leave: it returns what belongs
      to the verifier's outcome; it closes silently, once its start was shown, exactly if
      a cancellation was accepted and the end is another, or the agent is no longer
      registered; and a registered agent is shown the start, progress, and then the end
      that belongs to what is returned, unless it was suppressed. */
  lemma VerificationLaw(calls: seq<Call>, u: UserContext, env: VerificationEnv)
    requires u.session.Some? && env.atBegin && Begin(Run(calls).reg, u).Some? && !VerificationLeaves(env, u.Bound())
    ensures var (after, end) := VerificationCalls(calls, u, env);
      var id, b, g := Run(calls).reg.nextRequestId, u.Bound(), GenerationOf(u.Bound());
      var s := VerificationShown(VerificationEnd(env.outcome, env.contextCurrent));
      var suppressed := CancelTaken(id) in Run(after).log && s != Cancelled;
      && (end.Waiting? <==> env.outcome.Waiting?) && !end.Unavailable?
      && (end.Refused? <==> !end.Waiting? && env.atEnd && !env.atStart)
      && (!end.Waiting? && !end.Refused? ==> end == VerificationEnd(env.outcome, env.contextCurrent))
      && (!end.Waiting? ==>
            && !IsCurrent(Run(after).reg, u, id)
            && (Silenced(after, b) <==> Silenced(calls, b) || (env.atStart && (!env.atEnd || suppressed)))
            && var start := if env.atStart then [Event(g, id, 0, VerificationStarted)] else [];
               var last := if env.atStart && env.atEnd && !suppressed then [Event(g, id, 0, s)] else [];
               var es := Shown(after, b);
               && |last| <= |es| && es[|es| - |last|..] == last
               && ProgressOnly(Shown(calls, b) + start, es[..|es| - |last|], id, env.atStart))
  {
    hide Run, Silenced, Shown, View, AsCalls, Leaves, StepsLeave, Begin, PublishCalls, IsCurrent, VerificationEndCalls,
      ProgressOnly, StepCalls;
    var id, b := Run(calls).reg.nextRequestId, u.Bound();
    StartLaw(calls, u, env.early, VerificationStarted, env.atStart);
    var (shown, threw) := PublishCalls(calls + [DoBegin(u)] + AsCalls(env.early), u, id, VerificationStarted, env.atStart);
    StepsLaw(shown, env.steps, u, id, env.atStart);
    var last := shown + StepCalls(env.steps, u, id);
    if !env.outcome.Waiting? {
      VerificationEndLaw(last, u, id, env.outcome, env.contextCurrent, env.atEnd, env.atStart);
      var es, mid := Shown(VerificationCalls(calls, u, env).0, b), Shown(last, b);
      assert es[..|mid|] == mid;
    }
  }

  // ----- the flows, performed on the registry object -----

  method PerformAgent(ix: Interactions, a: AgentCall)
    requires ix.Valid()
    modifies ix
    ensures ix.Valid() && ix.calls == old(ix.calls) + [AsCall(a)]
  {
    match a
    case Answer(u, id, approved) => var _ := ix.RespondToPresence(u, id, approved);
    case Give(u, id, prompt, bytes) => var _ := ix.SubmitSecret(u, id, prompt, bytes);
    case Withdraw(u, id) => var _ := ix.Cancel(u, id);
    case Leave(u) => ix.Drop(u);
  }

  method PerformAgents(ix: Interactions, acts: seq<AgentCall>)
    requires ix.Valid()
    modifies ix
    ensures ix.Valid() && ix.calls == old(ix.calls) + AsCalls(acts)
  {
    for i := 0 to |acts|
      invariant ix.Valid() && ix.calls == old(ix.calls) + AsCalls(acts[..i])
    {
      assert acts[..i + 1][..i] == acts[..i];
      PerformAgent(ix, acts[i]);
    }
    assert acts[..|acts|] == acts;
  }

  /** Publishing does nothing for an agent that is no longer registered. */
  method Publish(ix: Interactions, u: UserContext, id: u64, s: InteractionState, registered: bool) returns (threw: bool)
    requires ix.Valid()
    modifies ix
    ensures ix.Valid() && (ix.calls, threw) == PublishCalls(old(ix.calls), u, id, s, registered)
  {
    hide Run, Transition;
    if !registered {
      return false;
    }
    var p := ix.MakeTransition(u, id, s, 0);
    return p.None?;
  }

  method WaitForPresence(ix: Interactions, u: UserContext, id: u64, turns: seq<Turn>)
      returns (res: Option<PresenceResult>)
    requires ix.Valid()
    modifies ix
    ensures ix.Valid() && (ix.calls, res) == WaitCalls(old(ix.calls), u, id, turns)
    ensures res == Some(Approved) ==> Answered(id, true) in Run(ix.calls).log
    ensures res.Some? ==> Settled(View(ix.Reg(), u, id), res.value)
  {
    hide Run, CheckPresence, AsCalls, View, Settled, Shown, Silenced;
    WaitLaw(ix.calls, u, id, turns);
    res := None;
    var i := 0;
    while i < |turns| && res.None?
      invariant 0 <= i <= |turns| && ix.Valid()
      invariant WaitCalls(old(ix.calls), u, id, turns)
        == if res.None? then WaitCalls(ix.calls, u, id, turns[i..]) else (ix.calls, res)
    {
      assert turns[i..][1..] == turns[i + 1..];
      PerformAgents(ix, turns[i].agent);
      res := ix.PresenceTurn(u, id, turns[i].stop, turns[i].expired);
      i := i + 1;
    }
  }

  /** request_presence. */
  method RequestPresence(ix: Interactions, u: UserContext, env: PresenceEnv) returns (end: FlowEnd)
    requires ix.Valid()
    modifies ix
    ensures ix.Valid() && (ix.calls, end) == PresenceCalls(old(ix.calls), u, env)
    ensures end.FlowApproved? ==>
      env.contextCurrent && Answered(old(ix.nextRequestId), true) in Run(ix.calls).log
    ensures !AgentLeaves(env, u.Bound()) && !end.Waiting? ==>
      (Silenced(ix.calls, u.Bound()) <==>
        || Silenced(old(ix.calls), u.Bound())
        || (!end.Unavailable? && !end.Refused? && env.atStart && !env.atEnd))
    ensures !end.Waiting? && !end.Refused? && !end.Unavailable? ==> !IsCurrent(ix.Reg(), u, old(ix.nextRequestId))
  {
    hide Run, Silenced, Transition, Begin, WaitCalls, AsCalls, AgentLeaves, IsCurrent, Shown, Settled, View;
    PresenceLaw(ix.calls, u, env);
    if u.session.None? || !env.atBegin {
      return Unavailable;
    }
    var begun := ix.Begin(u);
    if begun.None? {
      return Refused;
    }
    var id := begun.value;
    PerformAgents(ix, env.early);
    var threw := Publish(ix, u, id, PresenceRequired, env.atStart);
    if threw {
      ix.Finish(u, id);
      return Refused;
    }
    var res := WaitForPresence(ix, u, id, env.turns);
    if res.None? {
      return Waiting;
    }
    PerformAgents(ix, env.late);
    end := PresenceEnd(res.value, env.contextCurrent);
    var s := PresenceFinal(res.value, env.contextCurrent);
    if s.Some? {
      threw := Publish(ix, u, id, s.value, env.atEnd);
      if threw {
        end := Refused;
      }
    }
    ix.Finish(u, id);
  }

  method PerformStep(ix: Interactions, step: VerificationStep, u: UserContext, id: u64)
    requires ix.Valid()
    modifies ix
    ensures ix.Valid() && ix.calls == old(ix.calls) + [StepCall(step, u, id)]
  {
    match step
    case FromAgent(a) => PerformAgent(ix, a);
    case Report(error, n) =>
      var _ := ix.MakeTransition(u, id, if error then VerificationError else VerificationInformation, n);
    case Prompt(n) => var _ := ix.MakeTransition(u, id, SecretRequired, n);
    case SecretWait(prompt, stop, expired) => var _ := ix.SecretTurn(u, id, prompt, stop, expired);
  }

  method PerformSteps(ix: Interactions, steps: seq<VerificationStep>, u: UserContext, id: u64)
    requires ix.Valid()
    modifies ix
    ensures ix.Valid() && ix.calls == old(ix.calls) + StepCalls(steps, u, id)
  {
    hide StepCall;
    for i := 0 to |steps|
      invariant ix.Valid() && ix.calls == old(ix.calls) + StepCalls(steps[..i], u, id)
    {
      assert steps[..i + 1][..i] == steps[..i];
      PerformStep(ix, steps[i], u, id);
    }
    assert steps[..|steps|] == steps;
  }

  /** request_verification. */
  method RequestVerification(ix: Interactions, u: UserContext, env: VerificationEnv) returns (end: FlowEnd)
    requires ix.Valid()
    modifies ix
    ensures ix.Valid() && (ix.calls, end) == VerificationCalls(old(ix.calls), u, env)
    ensures end.FlowApproved? ==> Service.ApprovesVerification(env.outcome, env.contextCurrent)
    ensures !VerificationLeaves(env, u.Bound()) && !end.Refused? && !end.Unavailable? && !end.Waiting? ==>
      (Silenced(ix.calls, u.Bound()) <==>
        || Silenced(old(ix.calls), u.Bound())
        || (env.atStart &&
            (!env.atEnd || (CancelTaken(old(ix.nextRequestId)) in Run(ix.calls).log
                            && !VerificationFinal(env.outcome, env.contextCurrent).Cancelled?))))
    ensures !VerificationLeaves(env, u.Bound()) && !end.Refused? && !end.Unavailable? && !end.Waiting? ==>
      end == VerificationEnd(env.outcome, env.contextCurrent)
  {
    hide Run, Silenced, Transition, Begin, AsCalls, VerificationLeaves, IsCurrent, Shown, ProgressOnly, StepCalls;
    if u.session.Some? && env.atBegin && Begin(Run(ix.calls).reg, u).Some? && !VerificationLeaves(env, u.Bound()) {
      VerificationLaw(ix.calls, u, env);
    }
    VerificationReturns(env.outcome, env.contextCurrent);
    if u.session.None? || !env.atBegin {
      return Unavailable;
    }
    var begun := ix.Begin(u);
    if begun.None? {
      return Refused;
    }
    var id := begun.value;
    PerformAgents(ix, env.early);
    var threw := Publish(ix, u, id, VerificationStarted, env.atStart);
    if threw {
      ix.Finish(u, id);
      return Refused;
    }
    PerformSteps(ix, env.steps, u, id);
    if env.outcome.Waiting? {
      return Waiting;
    }
    end := VerificationEnd(env.outcome, env.contextCurrent);
    threw := Publish(ix, u, id, VerificationFinal(env.outcome, env.contextCurrent), env.atEnd);
    if threw && env.outcome.Returned? {
      // Caught as an unexpected failure, which is published in turn.
      var _ := Publish(ix, u, id, VerificationFailed, env.atEnd);
    }
    if threw {
      end := Refused;
    }
    ix.Finish(u, id);
  }

  // ----- what it means for the client -----

  lemma {:induction false} NeverSilenced(calls: seq<Call>, b: Binding)
    requires !Silenced(calls, b)
    ensures NothingAfter(calls, b)
  {
    if calls == [] {
    } else {
      NeverSilenced(calls[..|calls| - 1], b);
    }
  }

  /** As long as no interaction of the agent was closed silently, its client accepts
      everything it is sent. */
  lemma ClientKeepsUp(calls: seq<Call>, b: Binding)
    requires !Silenced(calls, b)
    ensures AllAccepted(EventsFor(Run(calls).log, b), GenerationOf(b))
  {
    NeverSilenced(calls, b);
    AllAcceptedIff(calls, b);
  }

  function CancelledTooLate(u: UserContext): (calls: seq<Call>) {
    [DoBegin(u)] + [DoTransition(u, 1, VerificationStarted, 0)] + [DoCancel(u, 1)]
    + [DoTransition(u, 1, VerificationSucceeded, 0)]
  }

  lemma CancelledTooLateRuns(u: UserContext)
    ensures Run(CancelledTooLate(u)).reg ==
      Registry(Some(Pending(1, u.Bound(), Some(VerificationStarted), 0, None, false, true, true)), None, 2, 1)
  {
    SameUserIsBinding(u.Bound(), u);
    hide Run, SameUser;
    var c1 := [DoBegin(u)];
    var c2 := c1 + [DoTransition(u, 1, VerificationStarted, 0)];
    var c3 := c2 + [DoCancel(u, 1)];
    RunNone();
    assert [] + c1 == c1;
    RunSnoc([], DoBegin(u));
    RunSnoc(c1, DoTransition(u, 1, VerificationStarted, 0));
    RunSnoc(c2, DoCancel(u, 1));
    RunSnoc(c3, DoTransition(u, 1, VerificationSucceeded, 0));
  }

  lemma RunNone()
    ensures Run([]) == World(Initial(), [])
  {
  }

  /** A verification that succeeds just after the agent cancelled it is closed silently,
      and the client rejects the start of the next interaction. */
  lemma NextStartRejected(u: UserContext)
    ensures Silenced(CancelledTooLate(u) + [DoEnd(u, 1)], u.Bound())
    ensures var calls := CancelledTooLate(u) + [DoEnd(u, 1)] + [DoBegin(u)] + [DoTransition(u, 2, PresenceRequired, 0)];
      && EventsFor(Run(calls).log, u.Bound()) != []
      && !AllAccepted(EventsFor(Run(calls).log, u.Bound()), GenerationOf(u.Bound()))
  {
    var b := u.Bound();
    SameUserIsBinding(b, u);
    CancelledTooLateRuns(u);
    hide Run, SameUser, Silenced, AllAccepted, EventsFor, CancelledTooLate, NothingAfter;
    var c4 := CancelledTooLate(u);
    var c5 := c4 + [DoEnd(u, 1)];
    var c6 := c5 + [DoBegin(u)];
    SilencedSnoc(c4, DoEnd(u, 1), b);
    RunSnoc(c4, DoEnd(u, 1));
    RunSnoc(c5, DoBegin(u));
    SilencedSnoc(c5, DoBegin(u), b);
    NotNothingAfter(c6, DoTransition(u, 2, PresenceRequired, 0), b);
    AllAcceptedIff(c6 + [DoTransition(u, 2, PresenceRequired, 0)], b);
  }

  lemma NotNothingAfter(calls: seq<Call>, c: Call, b: Binding)
    requires Silenced(calls, b)
    requires var e := Apply(Run(calls).reg, c).1; e.Some? && e.value.Published? && e.value.user == b
    ensures !NothingAfter(calls + [c], b) && EventsFor(Run(calls + [c]).log, b) != []
  {
    assert (calls + [c])[..|calls|] == calls;
    RunSnoc(calls, c);
    EventsStep(Run(calls), c, b);
  }
}
