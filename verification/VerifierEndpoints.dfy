/** The programs at the ends of the verifier protocol: the daemon's client loop, and
    the broker that stands between the daemon and the PAM worker process. What the
    sockets, the clock and the child process do is given as a script. */
module VerifierEndpoints {
  import opened Base
  import opened VerifierConversation

  type Transcript = seq<(Sender, Message)>

  /** The transcript obeys the conversation and has led to `s`. */
  predicate LeadsTo(t: Transcript, s: State) {
    Replay(t) == Some(s)
  }

  /** A conversation, and the messages exchanged in it so far. */
  datatype Talk = Talk(state: State, said: Transcript) {
    ghost predicate Ok() {
      LeadsTo(said, state)
    }
  }

  /** A permitted message is exchanged. */
  function Said(t: Talk, who: Sender, m: Message): (r: Talk)
    requires Advance(t.state, who, m).Some?
    ensures t.Ok() ==> r.Ok()
  {
    assert (t.said + [(who, m)])[..|t.said|] == t.said;
    Talk(Advance(t.state, who, m).value, t.said + [(who, m)])
  }

  /** send_cancel, which swallows a failing send. */
  function Cancelled(t: Talk, sent: bool): (r: Talk)
    ensures t.Ok() ==> r.Ok()
  {
    if Terminal(t.state) || !sent || Advance(t.state, Daemon, CancelVerification).None? then t
    else Said(t, Daemon, CancelVerification)
  }

  // ----- the daemon's client, run_verifier_service -----

  /** The exceptions a callback of the daemon may leave with. */
  datatype Exception = StopException | CancelException | TimeoutException | OtherException

  /** What the status or secret callback does; for a secret also what the client sees
      right after it, and whether sending worked. */
  datatype Callback = Raises(why: Exception) | Provided(secret: seq<byte>, stopped: bool, cancelled: bool, sent: bool)

  /** One turn of the client loop. `cancelSent` says whether sending the cancel
      message worked. */
  datatype Tick =
    | StopRequested(cancelSent: bool)
    | UserCancels(cancelSent: bool)
    | DeadlinePassed(cancelSent: bool)
    | Quiet
    | Breaks
    | Arrives(m: Message, callback: Callback)

  datatype End = Waiting | Returned(result: byte) | Stopped | UserCancelled | TimedOut | Broken

  function Escapes(why: Exception): (end: End) {
    match why
    case StopException => Stopped
    case CancelException => UserCancelled
    case TimeoutException => TimedOut
    case OtherException => Broken
  }

  /** One turn; None goes on. */
  function ClientTurn(t: Talk, tick: Tick): (r: (Talk, Option<End>)) {
    match tick
    case StopRequested(sent) => (Cancelled(t, sent), Some(Stopped))
    case UserCancels(sent) => (Cancelled(t, sent), Some(UserCancelled))
    case DeadlinePassed(sent) => (Cancelled(t, sent), Some(TimedOut))
    case Quiet => (t, None)
    case Breaks => (t, Some(Broken))
    case Arrives(m, callback) =>
      if Advance(t.state, Verifier, m).None? then (t, Some(Broken))
      else if m.VerificationComplete? then (Said(t, Verifier, m), Some(Returned(m.result)))
      else if callback.Raises? then (Said(t, Verifier, m), Some(Escapes(callback.why)))
      else if m.SecretRequired? then AfterSecret(Said(t, Verifier, m), callback)
      else (Said(t, Verifier, m), None)
  }

  function AfterSecret(t: Talk, c: Callback): (r: (Talk, Option<End>))
    requires c.Provided?
  {
    if c.stopped then (Cancelled(t, c.sent), Some(Stopped))
    else if c.cancelled then (Cancelled(t, c.sent), Some(UserCancelled))
    else if !c.sent || Advance(t.state, Daemon, SecretResponse(c.secret)).None? then (t, Some(Broken))
    else (Said(t, Daemon, SecretResponse(c.secret)), None)
  }

  function ClientLoop(t: Talk, ticks: seq<Tick>): (r: (Talk, End))
    decreases |ticks|
  {
    if ticks == [] then (t, Waiting)
    else
      var (u, end) := ClientTurn(t, ticks[0]);
      if end.Some? then (u, end.value) else ClientLoop(u, ticks[1..])
  }

  function Started(start: Message): (t: Talk)
    requires start.StartVerification?
    ensures t.Ok() && t.state.Verifying? && t.said == [(Daemon, start)]
  {
    Said(Talk(AwaitingStart, []), Daemon, start)
  }

  method RunVerifierService(start: Message, ticks: seq<Tick>) returns (end: End, said: Transcript)
    requires start.StartVerification?
    ensures (said, end) == (ClientLoop(Started(start), ticks).0.said, ClientLoop(Started(start), ticks).1)
  {
    var t := Started(start);
    for i := 0 to |ticks|
      invariant ClientLoop(t, ticks[i..]) == ClientLoop(Started(start), ticks)
    {
      assert ticks[i..][1..] == ticks[i + 1..];
      match ticks[i] {
        case StopRequested(sent) =>
          t := Cancelled(t, sent);
          return Stopped, t.said;
        case UserCancels(sent) =>
          t := Cancelled(t, sent);
          return UserCancelled, t.said;
        case DeadlinePassed(sent) =>
          t := Cancelled(t, sent);
          return TimedOut, t.said;
        case Quiet =>
        case Breaks => return Broken, t.said;
        case Arrives(m, callback) =>
          if Advance(t.state, Verifier, m).None? {
            return Broken, t.said;
          }
          t := Said(t, Verifier, m);
          if m.VerificationComplete? {
            return Returned(m.result), t.said;
          }
          if callback.Raises? {
            return Escapes(callback.why), t.said;
          }
          if m.SecretRequired? {
            if callback.stopped {
              t := Cancelled(t, callback.sent);
              return Stopped, t.said;
            }
            if callback.cancelled {
              t := Cancelled(t, callback.sent);
              return UserCancelled, t.said;
            }
            if !callback.sent || Advance(t.state, Daemon, SecretResponse(callback.secret)).None? {
              return Broken, t.said;
            }
            t := Said(t, Daemon, SecretResponse(callback.secret));
          }
      }
    }
    return Waiting, t.said;
  }

  /** A result is returned exactly when the conversation was completed with it, and a
      conversation the client cancelled ends in stop, cancellation or timeout. */
  ghost predicate ClientEnds(u: Talk, end: End) {
    && u.Ok()
    && (forall result :: end == Returned(result) <==> u.state == Completed(result))
    && (u.state.CancelledState? ==> end.Stopped? || end.UserCancelled? || end.TimedOut?)
    && (end.Waiting? ==> u.state.Verifying?)
  }

  lemma TurnObeys(t: Talk, tick: Tick)
    requires t.Ok() && t.state.Verifying?
    ensures var (u, end) := ClientTurn(t, tick);
      && t.said <= u.said
      && if end.None? then u.Ok() && u.state.Verifying? else !end.value.Waiting? && ClientEnds(u, end.value)
  {
    hide Replay;
  }

  /** The client only exchanges what the conversation permits, and ends as it says. */
  lemma {:induction false} ClientObeys(t: Talk, ticks: seq<Tick>)
    requires t.Ok() && t.state.Verifying?
    ensures var (u, end) := ClientLoop(t, ticks);
      t.said <= u.said && ClientEnds(u, end)
    decreases |ticks|
  {
    if ticks == [] {
    } else {
      TurnObeys(t, ticks[0]);
      hide ClientTurn, Replay;
      var (u, end) := ClientTurn(t, ticks[0]);
      if end.None? {
        ClientObeys(u, ticks[1..]);
      }
    }
  }

  // ----- what the client says, read off the script alone -----

  /** A message the verifier may send while verifying. */
  predicate FromVerifier(m: Message) {
    ValidEnums(m) && (m.VerificationStatus? || m.SecretRequired? || m.VerificationComplete?)
  }

  /** After such a turn the client goes on. */
  predicate GoesOn(tick: Tick) {
    match tick
    case Quiet => true
    case Arrives(m, c) =>
      && FromVerifier(m) && c.Provided?
      && (m.VerificationStatus? || (m.SecretRequired? && !c.stopped && !c.cancelled && c.sent))
    case _ => false
  }

  /** What a turn exchanges: the message that arrived, and after a prompt the secret the
      callback provided, or a cancel; a stop, a cancellation and a deadline send a
      cancel if sending works. */
  function Exchange(tick: Tick): (t: Transcript) {
    match tick
    case StopRequested(sent) => CancelIf(sent)
    case UserCancels(sent) => CancelIf(sent)
    case DeadlinePassed(sent) => CancelIf(sent)
    case Quiet => []
    case Breaks => []
    case Arrives(m, c) =>
      if !FromVerifier(m) then []
      else if !m.SecretRequired? || c.Raises? then [(Verifier, m)]
      else if c.stopped || c.cancelled then [(Verifier, m)] + CancelIf(c.sent)
      else if c.sent then [(Verifier, m), (Daemon, SecretResponse(c.secret))]
      else [(Verifier, m)]
  }

  function CancelIf(sent: bool): (t: Transcript) {
    if sent then [(Daemon, CancelVerification)] else []
  }

  /** How a turn that does not go on ends the loop. */
  function EndOf(tick: Tick): (end: End) {
    match tick
    case StopRequested(_) => Stopped
    case UserCancels(_) => UserCancelled
    case DeadlinePassed(_) => TimedOut
    case Arrives(m, c) =>
      if !FromVerifier(m) then Broken
      else if m.VerificationComplete? then Returned(m.result)
      else if c.Raises? then
        match c.why
        case StopException => Stopped
        case CancelException => UserCancelled
        case TimeoutException => TimedOut
        case OtherException => Broken
      else if m.SecretRequired? && c.stopped then Stopped
      else if m.SecretRequired? && c.cancelled then UserCancelled
      else Broken
    case _ => Broken
  }

  function Exchanges(ticks: seq<Tick>): (t: Transcript) {
    if ticks == [] then [] else Exchange(ticks[0]) + Exchanges(ticks[1..])
  }

  lemma TurnExactly(t: Talk, tick: Tick)
    requires t.state.Verifying?
    ensures var (u, end) := ClientTurn(t, tick);
      && u.said == t.said + Exchange(tick)
      && (if GoesOn(tick) then end.None? && u.state.Verifying? else end == Some(EndOf(tick)))
  {
  }

  /** Over every script, the client says exactly what its turns call for up to the first
      one that does not go on, and ends as that one says. */
  lemma {:induction false} ClientExactly(t: Talk, ticks: seq<Tick>, n: nat)
    requires t.state.Verifying? && n <= |ticks|
    requires (forall i :: 0 <= i < n ==> GoesOn(ticks[i])) && (n < |ticks| ==> !GoesOn(ticks[n]))
    ensures var (u, end) := ClientLoop(t, ticks);
      && u.said == t.said + Exchanges(if n < |ticks| then ticks[..n + 1] else ticks)
      && end == if n < |ticks| then EndOf(ticks[n]) else Waiting
    decreases |ticks|
  {
    hide ClientTurn, Exchange, GoesOn, EndOf;
    if ticks == [] {
    } else {
      TurnExactly(t, ticks[0]);
      var (u, end) := ClientTurn(t, ticks[0]);
      if n == 0 {
        assert ticks[..1][1..] == [];
      } else {
        ClientExactly(u, ticks[1..], n - 1);
        if n < |ticks| {
          assert ticks[1..][..n] == ticks[..n + 1][1..];
        }
      }
    }
  }

  function SecretOf(m: Message): (r: seq<seq<byte>>) {
    if m.SecretResponse? then [m.secret] else []
  }

  /** The secrets in a transcript, in order. */
  function SecretsIn(t: Transcript): (r: seq<seq<byte>>) {
    if t == [] then [] else SecretOf(t[0].1) + SecretsIn(t[1..])
  }

  /** The secrets the callback provided for prompts and that could be sent, in order. */
  function SecretsGiven(ticks: seq<Tick>): (r: seq<seq<byte>>) {
    if ticks == [] then []
    else
      (if ticks[0].Arrives? && ticks[0].m.SecretRequired? && GoesOn(ticks[0]) then [ticks[0].callback.secret] else [])
      + SecretsGiven(ticks[1..])
  }

  lemma SecretsCons(x: (Sender, Message), t: Transcript)
    ensures SecretsIn([]) == [] && SecretsIn([x] + t) == SecretOf(x.1) + SecretsIn(t)
  {
    hide SecretOf;
    assert ([x] + t)[1..] == t;
  }

  lemma {:induction false} SecretsJoin(a: Transcript, b: Transcript)
    ensures SecretsIn(a + b) == SecretsIn(a) + SecretsIn(b)
  {
    hide SecretOf, SecretsIn;
    if a == [] {
      assert a + b == b;
      SecretsCons((Daemon, CancelVerification), []);
    } else {
      SecretsJoin(a[1..], b);
      SecretsCons(a[0], a[1..]);
      SecretsCons(a[0], a[1..] + b);
      assert [a[0]] + a[1..] == a;
      assert [a[0]] + (a[1..] + b) == a + b;
    }
  }

  /** The secrets a client sends are exactly those its callback provided. */
  lemma {:induction false} SecretsAreTheCallbacks(ticks: seq<Tick>)
    ensures SecretsIn(Exchanges(ticks)) == SecretsGiven(ticks)
  {
    if ticks == [] {
    } else {
      SecretsAreTheCallbacks(ticks[1..]);
      SecretsJoin(Exchange(ticks[0]), Exchanges(ticks[1..]));
      SecretsOfTurn(ticks[0]);
    }
  }

  lemma SecretsOfTurn(tick: Tick)
    ensures SecretsIn(Exchange(tick)) ==
      if tick.Arrives? && tick.m.SecretRequired? && GoesOn(tick) then [tick.callback.secret] else []
  {
    var e := Exchange(tick);
    if |e| == 1 {
      assert e == [e[0]];
      SecretsOfOne(e[0]);
    } else if |e| == 2 {
      assert e == [e[0]] + [e[1]];
      SecretsJoin([e[0]], [e[1]]);
      SecretsOfOne(e[0]);
      SecretsOfOne(e[1]);
    }
  }

  lemma SecretsOfOne(x: (Sender, Message))
    ensures SecretsIn([x]) == SecretOf(x.1)
  {
    assert [x][1..] == [];
  }

  // ----- session authorisation -----

  datatype LoginSession = LoginSession(uid: u32, active: bool, remote: bool)

  /** authorize_verification_session on the answer of a session query; None is a
      query that failed. */
  predicate Authorized(start: Message, session: Option<LoginSession>)
    requires start.StartVerification?
  {
    && start.sessionId != []
    && session.Some?
    && session.value.uid == start.targetUid
    && session.value.active
    && !session.value.remote
  }

  // ----- the broker, run_pam_verifier_connection -----

  /** A worker message, and what comes of it: whether passing it to the daemon works,
      what the daemon answers if the broker has to ask, and whether passing that answer
      to the worker works. */
  datatype Incoming = Incoming(m: Message, told: bool, reply: Option<Message>, passed: bool)

  datatype Child = Running | Exited(status: int) | Killed

  /** What a look at the daemon's socket finds: a failing poll, or a waiting message. */
  datatype Look = Look(fails: bool, waiting: Option<Message>)

  /** One turn of the broker's loop: the worker messages waiting, the daemon's socket,
      whether a cancel to the worker gets through, the child's state and the clock. */
  datatype Turn = Turn(inbox: seq<Incoming>, look: Look, cancelSent: bool, child: Child, deadline: bool)

  datatype Loop = Going | Raised | CancelledByDaemon | Result(result: byte, status: int)

  /** Where the broker stands: its conversations with the daemon and with the worker. */
  datatype Broker = Broker(status: Loop, d: Talk, w: Talk)

  /** receive_message, with the callbacks of the broker. */
  function Received(d: Talk, w: Talk, i: Incoming): (r: Broker) {
    if Advance(w.state, Verifier, i.m).None? then Broker(Raised, d, w)
    else if i.m.VerificationComplete? then Broker(Going, d, Said(w, Verifier, i.m))
    else if !i.told || Advance(d.state, Verifier, i.m).None? then Broker(Raised, d, Said(w, Verifier, i.m))
    else if i.m.SecretRequired? then SecretAsked(Said(d, Verifier, i.m), Said(w, Verifier, i.m), i.reply, i.passed)
    else Broker(Going, Said(d, Verifier, i.m), Said(w, Verifier, i.m))
  }

  /** request_secret, and passing the answer on. */
  function SecretAsked(d: Talk, w: Talk, reply: Option<Message>, passed: bool): (r: Broker) {
    if reply.None? || Advance(d.state, Daemon, reply.value).None? then Broker(Raised, d, w)
    else if reply.value.CancelVerification? then Broker(CancelledByDaemon, Said(d, Daemon, reply.value), w)
    else if !reply.value.SecretResponse? || !passed || Advance(w.state, Daemon, reply.value).None? then
      Broker(Raised, Said(d, Daemon, reply.value), w)
    else Broker(Going, Said(d, Daemon, reply.value), Said(w, Daemon, reply.value))
  }

  function Drained(d: Talk, w: Talk, inbox: seq<Incoming>): (r: Broker)
    decreases |inbox|
  {
    if inbox == [] || w.state.Completed? then Broker(Going, d, w)
    else
      var r := Received(d, w, inbox[0]);
      if r.status.Going? then Drained(r.d, r.w, inbox[1..]) else r
  }

  /** cancellation_requested. */
  function Looked(d: Talk, look: Look): (r: (Loop, Talk)) {
    if Terminal(d.state) then (if d.state.CancelledState? then CancelledByDaemon else Going, d)
    else if look.fails then (Raised, d)
    else if look.waiting.None? then (Going, d)
    else if Advance(d.state, Daemon, look.waiting.value).None? then (Raised, d)
    else (if look.waiting.value.CancelVerification? then CancelledByDaemon else Raised,
          Said(d, Daemon, look.waiting.value))
  }

  /** The exit of the worker against its completion. */
  function Judged(w: State, status: int): (r: Loop) {
    if !w.Completed? || ((status == 0) != (w.result == SUCCESS)) then Raised else Result(w.result, status)
  }

  function Turned(d: Talk, w: Talk, t: Turn): (r: Broker) {
    var r := Drained(d, w, t.inbox);
    if !r.status.Going? then r else
    var (status, e) := Looked(r.d, t.look);
    if status.Raised? then Broker(Raised, e, r.w)
    else if status.CancelledByDaemon? then Broker(CancelledByDaemon, e, Cancelled(r.w, t.cancelSent))
    else match t.child
      case Killed => Broker(Raised, e, r.w)
      case Exited(exitStatus) => Broker(Judged(r.w.state, exitStatus), e, r.w)
      case Running => if t.deadline then Broker(Raised, e, Cancelled(r.w, t.cancelSent)) else Broker(Going, e, r.w)
  }

  function Worked(d: Talk, w: Talk, turns: seq<Turn>): (r: Broker)
    decreases |turns|
  {
    if turns == [] then Broker(Going, d, w)
    else
      var r := Turned(d, w, turns[0]);
      if r.status.Going? then Worked(r.d, r.w, turns[1..]) else r
  }

  /** What a broker run meets: the session before, the account, a first look at the
      daemon's socket, whether the worker is spawned and given its start message, the
      turns of the loop, the session afterwards, and whether sending the completion to
      the daemon works. */
  datatype Scene = Scene(
    before: Option<LoginSession>, accountExists: bool, early: Look, spawned: bool, turns: seq<Turn>,
    afterwards: Option<LoginSession>, completed: bool)

  /** What a broker run did: both conversations, and the exit status it saw. */
  datatype Brokered = Brokered(daemon: Transcript, worker: Transcript, exit: Option<int>)

  /** DaemonConversation::complete, whose send may throw. */
  function CompletedWith(d: Talk, result: byte, sent: bool): (r: Transcript) {
    if sent then d.said + [(Verifier, VerificationComplete(result))] else d.said
  }

  function Connection(start: Message, s: Scene): (b: Brokered)
    requires start.StartVerification?
  {
    var d := Started(start);
    if !Authorized(start, s.before) || !s.accountExists then
      Brokered(CompletedWith(d, ERROR, s.completed), [], None)
    else
      var (early, e) := Looked(d, s.early);
      if !early.Going? || !s.spawned then Brokered(e.said, [], None) else
      var r := Worked(e, Started(start), s.turns);
      if !r.status.Result? then Brokered(r.d.said, r.w.said, None) else
      var result := if r.status.result == SUCCESS && !Authorized(start, s.afterwards) then ERROR else r.status.result;
      Brokered(CompletedWith(r.d, result, s.completed), r.w.said, Some(r.status.status))
  }

  // ----- the broker's loops -----

  /** The inner loop: take the worker's messages until one completes the conversation. */
  method Drain(d0: Talk, w0: Talk, inbox: seq<Incoming>) returns (status: Loop, d: Talk, w: Talk)
    ensures Broker(status, d, w) == Drained(d0, w0, inbox)
  {
    d, w := d0, w0;
    var i := 0;
    while i < |inbox| && !w.state.Completed?
      invariant 0 <= i <= |inbox|
      invariant Drained(d, w, inbox[i..]) == Drained(d0, w0, inbox)
    {
      assert inbox[i..][1..] == inbox[i + 1..];
      var m, reply := inbox[i].m, inbox[i].reply;
      if Advance(w.state, Verifier, m).None? {
        return Raised, d, w;
      }
      w := Said(w, Verifier, m);
      if !m.VerificationComplete? {
        if !inbox[i].told || Advance(d.state, Verifier, m).None? {
          return Raised, d, w;
        }
        d := Said(d, Verifier, m);
        if m.SecretRequired? {
          if reply.None? || Advance(d.state, Daemon, reply.value).None? {
            return Raised, d, w;
          }
          d := Said(d, Daemon, reply.value);
          if reply.value.CancelVerification? {
            return CancelledByDaemon, d, w;
          }
          if !reply.value.SecretResponse? || !inbox[i].passed || Advance(w.state, Daemon, reply.value).None? {
            return Raised, d, w;
          }
          w := Said(w, Daemon, reply.value);
        }
      }
      i := i + 1;
    }
    return Going, d, w;
  }

  /** run_cancellable_verifier_program, from the spawned worker on. */
  method RunWorker(d0: Talk, w0: Talk, turns: seq<Turn>) returns (status: Loop, d: Talk, w: Talk)
    ensures Broker(status, d, w) == Worked(d0, w0, turns)
  {
    hide Drained, Looked;
    d, w := d0, w0;
    for i := 0 to |turns|
      invariant Worked(d, w, turns[i..]) == Worked(d0, w0, turns)
    {
      assert turns[i..][1..] == turns[i + 1..];
      status, d, w := Drain(d, w, turns[i].inbox);
      if !status.Going? {
        return status, d, w;
      }
      var (looked, e) := Looked(d, turns[i].look);
      d := e;
      if looked.Raised? {
        return Raised, d, w;
      }
      if looked.CancelledByDaemon? {
        w := Cancelled(w, turns[i].cancelSent);
        return CancelledByDaemon, d, w;
      }
      if turns[i].child.Killed? {
        return Raised, d, w;
      }
      if turns[i].child.Exited? {
        if !w.state.Completed? {
          return Raised, d, w;
        }
        var exitStatus := turns[i].child.status;
        if (exitStatus == 0) != (w.state.result == SUCCESS) {
          return Raised, d, w;
        }
        return Result(w.state.result, exitStatus), d, w;
      }
      if turns[i].deadline {
        w := Cancelled(w, turns[i].cancelSent);
        return Raised, d, w;
      }
    }
    return Going, d, w;
  }

  /** run_pam_verifier_connection. */
  method RunConnection(start: Message, s: Scene) returns (b: Brokered)
    requires start.StartVerification?
    ensures b == Connection(start, s)
  {
    hide Worked, Looked, Authorized;
    var d := Started(start);
    if !Authorized(start, s.before) || !s.accountExists {
      if s.completed {
        d := Said(d, Verifier, VerificationComplete(ERROR));
      }
      return Brokered(d.said, [], None);
    }
    var (early, e) := Looked(d, s.early);
    if !early.Going? || !s.spawned {
      return Brokered(e.said, [], None);
    }
    var status, w;
    status, d, w := RunWorker(e, Started(start), s.turns);
    if !status.Result? {
      return Brokered(d.said, w.said, None);
    }
    var result := status.result;
    if result == SUCCESS && !Authorized(start, s.afterwards) {
      result := ERROR;
    }
    var said := d.said;
    if s.completed {
      said := said + [(Verifier, VerificationComplete(result))];
    }
    return Brokered(said, w.said, Some(status.status));
  }

  // ----- what the broker keeps -----

  /** What both sides of the broker have in common: all but completion and cancellation. */
  function Shared(t: Transcript): (r: Transcript) {
    if t == [] then []
    else
      var (who, m) := t[|t| - 1];
      Shared(t[..|t| - 1]) + (if m.VerificationComplete? || m.CancelVerification? then [] else [(who, m)])
  }

  lemma SharedSnoc(t: Transcript, who: Sender, m: Message)
    ensures Shared(t + [(who, m)]) ==
      Shared(t) + (if m.VerificationComplete? || m.CancelVerification? then [] else [(who, m)])
  {
    assert (t + [(who, m)])[..|t|] == t;
  }

  /** Both conversations are legal and the daemon's is not completed; while the loop
      goes on, the daemon has been told what the worker said and the worker given what
      the daemon answered. */
  ghost predicate BrokerOk(r: Broker) {
    && r.d.Ok() && r.w.Ok() && !r.d.state.Completed? && r.d.said != [] && r.w.said != []
    && (r.status.Going? || r.status.Result? ==>
          r.d.state.Verifying? && (r.w.state.Verifying? || r.w.state.Completed?) && Shared(r.d.said) == Shared(r.w.said))
    && (r.status.Result? ==> r.w.state == Completed(r.status.result) && (r.status.result == SUCCESS <==> r.status.status == 0))
  }

  lemma ReceivedOk(d: Talk, w: Talk, i: Incoming)
    requires BrokerOk(Broker(Going, d, w)) && w.state.Verifying?
    ensures BrokerOk(Received(d, w, i)) && !Received(d, w, i).status.Result?
  {
    hide Shared, Replay;
    SharedSnoc(w.said, Verifier, i.m);
    SharedSnoc(d.said, Verifier, i.m);
    if i.reply.Some? {
      SharedSnoc(w.said + [(Verifier, i.m)], Daemon, i.reply.value);
      SharedSnoc(d.said + [(Verifier, i.m)], Daemon, i.reply.value);
    }
  }

  lemma CancelledOk(w: Talk, sent: bool)
    requires w.Ok() && w.said != []
    ensures Cancelled(w, sent).Ok() && Cancelled(w, sent).said != []
  {
  }

  lemma InboxOpen(d: Talk, w: Talk)
    requires BrokerOk(Broker(Going, d, w)) && !w.state.Completed?
    ensures w.state.Verifying?
  {
  }

  lemma {:induction false} DrainedOk(d: Talk, w: Talk, inbox: seq<Incoming>)
    requires BrokerOk(Broker(Going, d, w))
    ensures BrokerOk(Drained(d, w, inbox)) && !Drained(d, w, inbox).status.Result?
    decreases |inbox|
  {
    hide BrokerOk, Received;
    if inbox == [] || w.state.Completed? {
    } else {
      InboxOpen(d, w);
      ReceivedOk(d, w, inbox[0]);
      var r := Received(d, w, inbox[0]);
      if r.status.Going? {
        DrainedOk(r.d, r.w, inbox[1..]);
      }
    }
  }

  lemma LookedOk(d: Talk, look: Look)
    requires d.Ok() && d.state.Verifying? && d.said != []
    ensures var (status, e) := Looked(d, look);
      && e.Ok() && !e.state.Completed? && e.said != [] && !status.Result?
      && (status.Going? ==> e == d)
  {
  }

  lemma TurnedOk(d: Talk, w: Talk, t: Turn)
    requires BrokerOk(Broker(Going, d, w))
    ensures BrokerOk(Turned(d, w, t))
  {
    hide Shared, Replay, Drained, Looked, Cancelled;
    DrainedOk(d, w, t.inbox);
    var r := Drained(d, w, t.inbox);
    if r.status.Going? {
      LookedOk(r.d, t.look);
      CancelledOk(r.w, t.cancelSent);
      var (status, e) := Looked(r.d, t.look);
      assert status.Raised? || status.CancelledByDaemon? || e == r.d;
    }
  }

  lemma {:induction false} WorkedOk(d: Talk, w: Talk, turns: seq<Turn>)
    requires BrokerOk(Broker(Going, d, w))
    ensures BrokerOk(Worked(d, w, turns))
    decreases |turns|
  {
    hide BrokerOk, Turned;
    if turns == [] {
    } else {
      TurnedOk(d, w, turns[0]);
      var r := Turned(d, w, turns[0]);
      if r.status.Going? {
        WorkedOk(r.d, r.w, turns[1..]);
      }
    }
  }

  // ----- what a turn of the broker does -----

  /** What comes of a worker message: a status is passed on; a prompt is passed on and
      the daemon's answer passed back, unless the daemon cancels; a completion is kept
      for later; anything else, and any failing send, raises. */
  lemma ReceivedExactly(d: Talk, w: Talk, i: Incoming)
    requires d.state.Verifying? && w.state.Verifying?
    ensures var r := Received(d, w, i);
      var m := (Verifier, i.m);
      if !FromVerifier(i.m) then r == Broker(Raised, d, w)
      else if i.m.VerificationComplete? then
        r.status.Going? && r.d == d && r.w.said == w.said + [m] && r.w.state == Completed(i.m.result)
      else if !i.told then r.status.Raised? && r.d == d && r.w.said == w.said + [m]
      else if i.m.VerificationStatus? then
        r.status.Going? && r.d.said == d.said + [m] && r.w.said == w.said + [m] && r.d.state.Verifying? && r.w.state.Verifying?
      else if i.reply.Some? && i.reply.value.SecretResponse? && i.passed then
        && r.status.Going? && r.d.state.Verifying? && r.w.state.Verifying?
        && r.d.said == d.said + [m, (Daemon, i.reply.value)] && r.w.said == w.said + [m, (Daemon, i.reply.value)]
      else if i.reply.Some? && i.reply.value.CancelVerification? then
        r.status.CancelledByDaemon? && r.d.said == d.said + [m, (Daemon, i.reply.value)] && r.w.said == w.said + [m]
      else r.status.Raised?
  {
  }

  /** After the worker's messages: a cancel from the daemon ends the loop and is passed
      to a worker that is still at work; a failing look or any other message raises;
      then an exit that agrees with the worker's completion is the result, any other end
      of the worker raises; and a passed deadline cancels the worker and raises. */
  lemma TurnedExactly(d: Talk, w: Talk, t: Turn)
    requires Drained(d, w, t.inbox).status.Going? && Drained(d, w, t.inbox).d.state.Verifying?
    ensures var b, r := Drained(d, w, t.inbox), Turned(d, w, t);
      var told := b.w.said + (if t.cancelSent && b.w.state.Verifying? then [(Daemon, CancelVerification)] else []);
      if t.look.fails then r == Broker(Raised, b.d, b.w)
      else if t.look.waiting == Some(CancelVerification) then
        && r.status.CancelledByDaemon? && r.d.said == b.d.said + [(Daemon, CancelVerification)]
        && (b.w.state.Verifying? || b.w.state.Completed? ==> r.w.said == told)
      else if t.look.waiting.Some? then r.status.Raised?
      else match t.child
        case Killed => r == Broker(Raised, b.d, b.w)
        case Exited(status) =>
          r == Broker(
            if b.w.state.Completed? && (status == 0 <==> b.w.state.result == SUCCESS) then Result(b.w.state.result, status)
            else Raised, b.d, b.w)
        case Running =>
          if t.deadline then
            r.status.Raised? && r.d == b.d && (b.w.state.Verifying? || b.w.state.Completed? ==> r.w.said == told)
          else r == b
  {
    hide Drained;
  }

  /** The worker completed with success while no secret was outstanding, and exited
      with status 0. */
  ghost predicate WorkerSucceeded(b: Brokered) {
    && LeadsTo(b.worker, Completed(SUCCESS))
    && Outstanding(b.worker) == 0
    && b.exit == Some(0)
  }

  lemma StartedOk(start: Message)
    requires start.StartVerification?
    ensures BrokerOk(Broker(Going, Started(start), Started(start)))
  {
  }

  /** The completion that ends the daemon's conversation after a worker's result. */
  lemma Completes(d: Talk, result: byte)
    requires d.Ok() && d.state.Verifying? && ValidResult(result)
    ensures LeadsTo(d.said + [(Verifier, VerificationComplete(result))], Completed(result))
  {
    assert Said(d, Verifier, VerificationComplete(result)).Ok();
  }

  lemma CompletedIsValid(t: Transcript)
    requires Replay(t).Some? && Replay(t).value.Completed?
    ensures ValidResult(Replay(t).value.result)
  {
  }

  /** The session asked for was found, belongs to the user, is active and is local. */
  ghost predicate LocalSession(start: Message, found: Option<LoginSession>) {
    && start.StartVerification? && |start.sessionId| > 0
    && exists s :: found == Some(s) && s.uid == start.targetUid && s.active && !s.remote
  }

  lemma AuthorizedIff(start: Message, found: Option<LoginSession>)
    requires start.StartVerification?
    ensures Authorized(start, found) <==> LocalSession(start, found)
  {
  }

  /** The broker says to the daemon only what the conversation permits. It reports a
      result exactly when the worker came to one and sending it works, and then that one,
      unless the session lost its authorisation: success only if it was authorised before and again
      afterwards and the worker succeeded; an error also if it was refused at the start. */
  lemma ResultIsEarned(start: Message, s: Scene)
    requires start.StartVerification?
    ensures var b := Connection(start, s);
      && Replay(b.daemon).Some? && (b.worker != [] ==> Replay(b.worker).Some?)
      && (LeadsTo(b.daemon, Completed(SUCCESS)) <==>
            && LocalSession(start, s.before) && s.accountExists && LocalSession(start, s.afterwards)
            && WorkerSucceeded(b) && s.completed)
      && (LeadsTo(b.daemon, Completed(DENIED)) <==>
            LeadsTo(b.worker, Completed(DENIED)) && b.exit.Some? && s.completed)
      && (b.worker != [] ==> LocalSession(start, s.before) && s.accountExists)
      && (!LocalSession(start, s.before) || !s.accountExists ==>
            b.worker == [] && (s.completed ==> b.daemon == [(Daemon, start), (Verifier, VerificationComplete(ERROR))]))
      && (b.exit.Some? ==> Shared(b.daemon) == Shared(b.worker))
  {
    var d := Started(start);
    var b := Connection(start, s);
    StartedOk(start);
    AuthorizedIff(start, s.before);
    AuthorizedIff(start, s.afterwards);
    hide Worked, Shared, Outstanding, Replay, Authorized, LocalSession;
    if Authorized(start, s.before) && s.accountExists {
      var (early, e) := Looked(d, s.early);
      if early.Going? && s.spawned {
        var r := Worked(e, Started(start), s.turns);
        WorkedOk(e, Started(start), s.turns);
        LegalTranscript(r.w.said);
        if r.status.Result? {
          CompletedIsValid(r.w.said);
          var result := if r.status.result == SUCCESS && !Authorized(start, s.afterwards) then ERROR else r.status.result;
          Completes(r.d, result);
          SharedSnoc(r.d.said, Verifier, VerificationComplete(result));
        }
      }
    } else {
      Completes(d, ERROR);
    }
  }

  // ----- the daemon's verdict -----

  /** request_verification: approved only on a success result with the user context
      still the one it started with. */
  predicate ApprovesVerification(end: End, contextUnchanged: bool) {
    end == Returned(SUCCESS) && contextUnchanged
  }

  /** The messages one side sent, in order. */
  function From(t: Transcript, who: Sender): (r: seq<Message>) {
    if t == [] then []
    else From(t[..|t| - 1], who) + (if t[|t| - 1].0 == who then [t[|t| - 1].1] else [])
  }

  lemma {:induction false} FromMember(t: Transcript, who: Sender, m: Message)
    ensures m in From(t, who) <==> (who, m) in t
  {
    if t == [] {
    } else {
      FromMember(t[..|t| - 1], who, m);
      assert t == t[..|t| - 1] + [t[|t| - 1]];
    }
  }

  /** A completion that one side heard is one the other side ended with. */
  lemma {:induction false} CompletionWasSent(heard: Transcript, sent: Transcript, result: byte)
    requires LeadsTo(heard, Completed(result)) && Replay(sent).Some?
    requires From(heard, Verifier) <= From(sent, Verifier)
    ensures LeadsTo(sent, Completed(result))
  {
    var m := VerificationComplete(result);
    LegalTranscript(heard);
    LegalTranscript(sent);
    assert (Verifier, m) in heard;
    FromMember(heard, Verifier, m);
    FromMember(sent, Verifier, m);
    var i :| 0 <= i < |sent| && sent[i] == (Verifier, m);
    assert i == |sent| - 1;
  }

  /** End to end: if the daemon approves over a connection that delivers the broker's
      messages in order, then the session was authorised before and after, and the
      worker completed with success, with no secret outstanding, and exited 0. */
  lemma ApprovalIsEarned(start: Message, ticks: seq<Tick>, s: Scene, contextUnchanged: bool)
    requires start.StartVerification?
    requires From(ClientLoop(Started(start), ticks).0.said, Verifier) <= From(Connection(start, s).daemon, Verifier)
    requires ApprovesVerification(ClientLoop(Started(start), ticks).1, contextUnchanged)
    ensures contextUnchanged && LocalSession(start, s.before) && LocalSession(start, s.afterwards)
    ensures WorkerSucceeded(Connection(start, s))
  {
    hide ClientLoop, Connection, WorkerSucceeded, LocalSession, Replay, From;
    ClientObeys(Started(start), ticks);
    ResultIsEarned(start, s);
    CompletionWasSent(ClientLoop(Started(start), ticks).0.said, Connection(start, s).daemon, SUCCESS);
  }
}
