/** The verifier conversation: which message may follow which, and what happens
    when the daemon and the verifier each follow it over two FIFO queues. */
module VerifierConversation {
  import opened Base

  /** Kind and result are raw bytes: the source's enums can hold any. */
  datatype Message =
    | StartVerification(targetUid: u32, sessionId: Text)
    | SecretResponse(secret: seq<byte>)
    | CancelVerification
    | VerificationStatus(kind: byte, message: Text)
    | SecretRequired(prompt: Text)
    | VerificationComplete(result: byte)

  const SUCCESS: byte := 1
  const DENIED: byte := 2
  const ERROR: byte := 3

  datatype Sender = Daemon | Verifier

  datatype State = AwaitingStart | Verifying | AwaitingSecret | Completed(result: byte) | CancelledState

  predicate ValidKind(k: byte) {
    1 <= k <= 2
  }

  predicate ValidResult(r: byte) {
    1 <= r <= 3
  }

  predicate ValidEnums(m: Message) {
    && (m.VerificationStatus? ==> ValidKind(m.kind))
    && (m.VerificationComplete? ==> ValidResult(m.result))
  }

  /** advance_verifier_conversation; None is its exception. */
  function Advance(current: State, sender: Sender, m: Message): (r: Option<State>) {
    if !ValidEnums(m) then None else
    match current
    case AwaitingStart =>
      if sender.Daemon? && m.StartVerification? then Some(Verifying) else None
    case Verifying =>
      if sender.Daemon? then (if m.CancelVerification? then Some(CancelledState) else None)
      else if m.VerificationStatus? then Some(Verifying)
      else if m.SecretRequired? then Some(AwaitingSecret)
      else if m.VerificationComplete? then Some(Completed(m.result))
      else None
    case AwaitingSecret =>
      if sender.Daemon? then
        (if m.SecretResponse? then Some(Verifying)
         else if m.CancelVerification? then Some(CancelledState)
         else None)
      else if m.VerificationComplete? && m.result == ERROR then Some(Completed(m.result))
      else None
    case Completed(_) => None
    case CancelledState => None
  }

  predicate Terminal(s: State) {
    s.Completed? || s.CancelledState?
  }

  /** The state after a whole transcript, from the start; None once it breaks a rule. */
  function Replay(t: seq<(Sender, Message)>): (r: Option<State>) {
    if t == [] then Some(AwaitingStart) else
    var s :- Replay(t[..|t| - 1]);
    Advance(s, t[|t| - 1].0, t[|t| - 1].1)
  }

  /** Messages the verifier has asked for and not yet been given. */
  function Outstanding(t: seq<(Sender, Message)>): (n: int) {
    if t == [] then 0 else
    Outstanding(t[..|t| - 1]) +
      (if t[|t| - 1].1.SecretRequired? then 1 else if t[|t| - 1].1.SecretResponse? then -1 else 0)
  }

  /** In a legal transcript at most one secret is outstanding, exactly while the
      state awaits one; a terminal message is the last; success and denial come only
      with no secret outstanding. */
  lemma {:induction false} LegalTranscript(t: seq<(Sender, Message)>)
    requires Replay(t).Some?
    ensures 0 <= Outstanding(t) <= 1
    ensures Replay(t) == Some(AwaitingSecret) ==> Outstanding(t) == 1
    ensures Replay(t) == Some(AwaitingStart) <==> t == []
    ensures Replay(t).value.Verifying? || Replay(t).value.AwaitingStart? ==> Outstanding(t) == 0
    ensures Replay(t).value.Completed? ==>
      t != [] && t[|t| - 1] == (Verifier, VerificationComplete(Replay(t).value.result))
      && (Replay(t).value.result != ERROR ==> Outstanding(t) == 0)
    ensures Replay(t) == Some(CancelledState) ==> t != [] && t[|t| - 1] == (Daemon, CancelVerification)
    ensures forall i :: 0 <= i < |t| - 1 ==> !t[i].1.CancelVerification? && !t[i].1.VerificationComplete?
    ensures forall i :: 0 <= i < |t| ==> (t[i].1.StartVerification? <==> i == 0)
  {
    if t == [] {
    } else {
      var front := t[..|t| - 1];
      LegalTranscript(front);
      if front != [] {
        assert front[|front| - 1] == t[|t| - 2];
      }
      forall i | 0 <= i < |t| ensures t[i].1.StartVerification? <==> i == 0 {
        if i < |front| {
          assert front[i] == t[i];
        } else {
          assert t[i] == t[|t| - 1];
        }
      }
      forall i | 0 <= i < |t| - 1 ensures !t[i].1.CancelVerification? && !t[i].1.VerificationComplete? {
        assert front[i] == t[i];
      }
    }
  }

  /** Who may say what right after which message. */
  predicate MayFollow(prev: Option<Message>, who: Sender, m: Message) {
    var talking := prev.Some? && !prev.value.CancelVerification? && !prev.value.VerificationComplete?;
    var asked := prev.Some? && prev.value.SecretRequired?;
    match m
    case StartVerification(_, _) => who.Daemon? && prev.None?
    case SecretResponse(_) => who.Daemon? && asked
    case CancelVerification => who.Daemon? && talking
    case VerificationStatus(kind, _) => who.Verifier? && talking && !asked && (kind == 1 || kind == 2)
    case SecretRequired(_) => who.Verifier? && talking && !asked
    case VerificationComplete(result) =>
      who.Verifier? && talking && (if asked then result == 3 else result == 1 || result == 2 || result == 3)
  }

  /** Each message may follow the one before it. */
  predicate Chained(t: seq<(Sender, Message)>) {
    t != [] ==>
      var front, (who, m) := t[..|t| - 1], t[|t| - 1];
      Chained(front) && MayFollow(if front == [] then None else Some(front[|front| - 1].1), who, m)
  }

  /** The states are no more than that: a conversation is accepted exactly if each
      message may follow the one before it. */
  lemma {:induction false} LegalIff(t: seq<(Sender, Message)>)
    ensures Replay(t).Some? <==> Chained(t)
  {
    hide MayFollow, Advance;
    if t == [] {
    } else {
      var front := t[..|t| - 1];
      LegalIff(front);
      if Replay(front).Some? {
        LegalStep(front, t[|t| - 1].0, t[|t| - 1].1);
      }
    }
  }

  lemma LegalStep(front: seq<(Sender, Message)>, who: Sender, m: Message)
    requires Replay(front).Some?
    ensures Advance(Replay(front).value, who, m).Some? <==>
      MayFollow(if front == [] then None else Some(front[|front| - 1].1), who, m)
  {
    LegalTranscript(front);
    if front != [] {
      LegalTranscript(front[..|front| - 1]);
    }
  }

  // ----- two endpoints and two queues -----

  datatype System = System(daemon: State, verifier: State, toVerifier: seq<Message>, toDaemon: seq<Message>)

  datatype Move =
    | DaemonSends(m: Message)
    | VerifierSends(m: Message)
    | DaemonReceives
    | VerifierReceives

  function Initial(): (s: System) {
    System(AwaitingStart, AwaitingStart, [], [])
  }

  /** A move an endpoint makes: it sends only what its own state permits, and reads
      only while its state is not terminal. */
  predicate Enabled(s: System, m: Move) {
    match m
    case DaemonSends(msg) => Advance(s.daemon, Daemon, msg).Some?
    case VerifierSends(msg) => Advance(s.verifier, Verifier, msg).Some?
    case DaemonReceives => s.toDaemon != [] && !Terminal(s.daemon)
    case VerifierReceives => s.toVerifier != [] && !Terminal(s.verifier)
  }

  /** The receiver's state does not accept the message at the head of its queue. */
  predicate Rejected(s: System, m: Move) {
    match m
    case DaemonReceives => s.toDaemon != [] && Advance(s.daemon, Verifier, s.toDaemon[0]).None?
    case VerifierReceives => s.toVerifier != [] && Advance(s.verifier, Daemon, s.toVerifier[0]).None?
    case _ => false
  }

  function After(s: System, m: Move): (t: System)
    requires Enabled(s, m) && !Rejected(s, m)
  {
    match m
    case DaemonSends(msg) =>
      s.(daemon := Advance(s.daemon, Daemon, msg).value, toVerifier := s.toVerifier + [msg])
    case VerifierSends(msg) =>
      s.(verifier := Advance(s.verifier, Verifier, msg).value, toDaemon := s.toDaemon + [msg])
    case DaemonReceives =>
      s.(daemon := Advance(s.daemon, Verifier, s.toDaemon[0]).value, toDaemon := s.toDaemon[1..])
    case VerifierReceives =>
      s.(verifier := Advance(s.verifier, Daemon, s.toVerifier[0]).value, toVerifier := s.toVerifier[1..])
  }

  /** How the messages on their way to the daemon end, after any number of statuses. */
  datatype Ending = Open | Asked | Done(result: byte) | AskedThenError

  predicate EndsAs(q: seq<Message>, e: Ending) {
    if q == [] then e.Open?
    else if q[0].VerificationStatus? then ValidKind(q[0].kind) && EndsAs(q[1..], e)
    else match e
      case Open => false
      case Asked => |q| == 1 && q[0].SecretRequired?
      case Done(r) => q == [VerificationComplete(r)]
      case AskedThenError => |q| == 2 && q[0].SecretRequired? && q[1] == VerificationComplete(ERROR)
  }

  /** What one more message of the verifier does to the ending. */
  function Extended(e: Ending, m: Message): (r: Option<Ending>) {
    if e.Open? && m.VerificationStatus? && ValidKind(m.kind) then Some(Open)
    else if e.Open? && m.SecretRequired? then Some(Asked)
    else if e.Open? && m.VerificationComplete? then Some(Done(m.result))
    else if e.Asked? && m == VerificationComplete(ERROR) then Some(AskedThenError)
    else None
  }

  lemma {:induction false} AppendEnds(q: seq<Message>, e: Ending, m: Message)
    requires EndsAs(q, e) && Extended(e, m).Some?
    ensures EndsAs(q + [m], Extended(e, m).value)
  {
    if q == [] || !q[0].VerificationStatus? {
    } else {
      AppendEnds(q[1..], e, m);
      assert (q + [m])[1..] == q[1..] + [m];
    }
  }

  /** Messages under way while the daemon is verifying, by the verifier's state. */
  predicate InFlightToVerifying(s: System) {
    match s.verifier
    case AwaitingStart => s.toDaemon == [] && |s.toVerifier| == 1 && s.toVerifier[0].StartVerification?
    case Verifying => s.toVerifier == [] && EndsAs(s.toDaemon, Open)
    case AwaitingSecret =>
      || (s.toVerifier == [] && EndsAs(s.toDaemon, Asked))
      || (|s.toVerifier| == 1 && s.toVerifier[0].SecretResponse? && s.toDaemon == [])
    case Completed(r) =>
      && ValidResult(r)
      && (EndsAs(s.toDaemon, Done(r)) || (r == ERROR && EndsAs(s.toDaemon, AskedThenError)))
    case CancelledState => false
  }

  /** What may be under way, by the daemon's state. */
  predicate Consistent(s: System) {
    match s.daemon
    case AwaitingStart => s == Initial()
    case Verifying => InFlightToVerifying(s)
    case AwaitingSecret =>
      || (s.verifier.AwaitingSecret? && s.toVerifier == [] && s.toDaemon == [])
      || (s.verifier == Completed(ERROR) && s.toDaemon == [VerificationComplete(ERROR)])
    case Completed(r) => s.verifier == Completed(r) && s.toDaemon == []
    case CancelledState =>
      match s.verifier
      case AwaitingStart =>
        |s.toVerifier| == 2 && s.toVerifier[0].StartVerification? && s.toVerifier[1].CancelVerification?
      case Verifying => s.toVerifier == [CancelVerification]
      case AwaitingSecret =>
        || s.toVerifier == [CancelVerification]
        || (|s.toVerifier| == 2 && s.toVerifier[0].SecretResponse? && s.toVerifier[1].CancelVerification?)
      case Completed(_) => true
      case CancelledState => true
  }

  /** No enabled receive meets a message its state rejects. */
  lemma NeverRejected(s: System, m: Move)
    requires Consistent(s) && Enabled(s, m)
    ensures !Rejected(s, m)
  {
  }

  lemma DaemonSendsConsistent(s: System, msg: Message)
    requires Consistent(s) && Enabled(s, DaemonSends(msg))
    ensures Consistent(After(s, DaemonSends(msg)))
  {
  }

  lemma VerifierSendsConsistent(s: System, msg: Message)
    requires Consistent(s) && Enabled(s, VerifierSends(msg))
    ensures Consistent(After(s, VerifierSends(msg)))
  {
    if s.daemon.Verifying? {
      var e: Ending := if s.verifier.AwaitingSecret? && s.toVerifier == [] then Asked else Open;
      if EndsAs(s.toDaemon, e) {
        AppendEnds(s.toDaemon, e, msg);
      }
    }
  }

  lemma DaemonReceivesConsistent(s: System)
    requires Consistent(s) && Enabled(s, DaemonReceives) && !Rejected(s, DaemonReceives)
    ensures Consistent(After(s, DaemonReceives))
  {
  }

  lemma VerifierReceivesConsistent(s: System)
    requires Consistent(s) && Enabled(s, VerifierReceives) && !Rejected(s, VerifierReceives)
    ensures Consistent(After(s, VerifierReceives))
  {
  }

  lemma StepConsistent(s: System, m: Move)
    requires Consistent(s) && Enabled(s, m)
    ensures !Rejected(s, m) && Consistent(After(s, m))
  {
    NeverRejected(s, m);
    match m
    case DaemonSends(msg) => DaemonSendsConsistent(s, msg);
    case VerifierSends(msg) => VerifierSendsConsistent(s, msg);
    case DaemonReceives => DaemonReceivesConsistent(s);
    case VerifierReceives => VerifierReceivesConsistent(s);
  }

  /** The system after a run of moves; None at the first move that is not enabled
      or meets a rejected message. */
  function Run(moves: seq<Move>): (r: Option<System>) {
    if moves == [] then Some(Initial()) else
    var s :- Run(moves[..|moves| - 1]);
    var m := moves[|moves| - 1];
    if Enabled(s, m) && !Rejected(s, m) then Some(After(s, m)) else None
  }

  lemma {:induction false} RunConsistent(moves: seq<Move>)
    requires Run(moves).Some?
    ensures Consistent(Run(moves).value)
  {
    if moves == [] {
    } else {
      var front := moves[..|moves| - 1];
      RunConsistent(front);
      StepConsistent(Run(front).value, moves[|moves| - 1]);
    }
  }

  /** After any run, whatever an endpoint in a non-terminal state reads next, its
      state accepts: no interleaving of cancel, secret response and completion in
      flight breaks the conversation. */
  lemma CrossingMessagesAccepted(moves: seq<Move>, m: Move)
    requires Run(moves).Some? && Enabled(Run(moves).value, m)
    ensures !Rejected(Run(moves).value, m) && Run(moves + [m]).Some?
  {
    RunConsistent(moves);
    NeverRejected(Run(moves).value, m);
    assert (moves + [m])[..|moves|] == moves;
  }

  /** Such crossings do happen: here the daemon's cancel and the verifier's completion
      pass each other, and each side has ended by itself. */
  lemma CrossingHappens(uid: u32, session: Text, prompt: Text)
    ensures var asked := [DaemonSends(StartVerification(uid, session))] + [VerifierReceives]
        + [VerifierSends(SecretRequired(prompt))] + [DaemonReceives];
      var crossed := asked + [DaemonSends(CancelVerification)] + [VerifierSends(VerificationComplete(ERROR))];
      && Run(asked) == Some(System(AwaitingSecret, AwaitingSecret, [], []))
      && Run(crossed) == Some(System(CancelledState, Completed(ERROR), [CancelVerification], [VerificationComplete(ERROR)]))
  {
    hide Run;
    RunNothing();
    var a := [DaemonSends(StartVerification(uid, session))];
    var b := a + [VerifierReceives];
    var c := b + [VerifierSends(SecretRequired(prompt))];
    var d := c + [DaemonReceives];
    var e := d + [DaemonSends(CancelVerification)];
    assert [] + a == a;
    RunSnoc([], DaemonSends(StartVerification(uid, session)));
    assert Run(a).value.toVerifier == [StartVerification(uid, session)] && Run(a).value.toDaemon == [];
    assert Run(a) == Some(System(Verifying, AwaitingStart, [StartVerification(uid, session)], []));
    RunSnoc(a, VerifierReceives);
    assert Run(b).value.toVerifier == [] && Run(b).value.toDaemon == [];
    assert Run(b) == Some(System(Verifying, Verifying, [], []));
    RunSnoc(b, VerifierSends(SecretRequired(prompt)));
    assert Run(c).value.toVerifier == [] && Run(c).value.toDaemon == [SecretRequired(prompt)];
    assert Run(c) == Some(System(Verifying, AwaitingSecret, [], [SecretRequired(prompt)]));
    RunSnoc(c, DaemonReceives);
    assert Run(d).value.toVerifier == [] && Run(d).value.toDaemon == [];
    assert Run(d) == Some(System(AwaitingSecret, AwaitingSecret, [], []));
    RunSnoc(d, DaemonSends(CancelVerification));
    assert Run(e).value.toVerifier == [CancelVerification] && Run(e).value.toDaemon == [];
    assert Run(e) == Some(System(CancelledState, AwaitingSecret, [CancelVerification], []));
    RunSnoc(e, VerifierSends(VerificationComplete(ERROR)));
    assert [] + [VerificationComplete(ERROR)] == [VerificationComplete(ERROR)];
  }

  lemma RunNothing()
    ensures Run([]) == Some(Initial())
  {
  }

  lemma RunSnoc(moves: seq<Move>, m: Move)
    requires Run(moves).Some? && Enabled(Run(moves).value, m) && !Rejected(Run(moves).value, m)
    ensures Run(moves + [m]) == Some(After(Run(moves).value, m))
  {
    assert (moves + [m])[..|moves|] == moves;
  }

  /** A daemon that reaches a result reaches the verifier's result, and a verifier
      that ends cancelled was cancelled by the daemon. */
  lemma ResultsAgree(moves: seq<Move>)
    requires Run(moves).Some?
    ensures var s := Run(moves).value;
      && (s.daemon.Completed? ==> s.verifier == s.daemon)
      && (s.verifier.CancelledState? ==> s.daemon.CancelledState?)
  {
    RunConsistent(moves);
  }
}
