/** The daemon's registry of the one pending user interaction. Every method holds the
    registry's mutex, so a run is a sequence of whole calls; a waiting call is a
    sequence of checks, with other calls in between. */
module InteractionRegistry {
  import opened Base
  import opened Users
  import DisplayText

  datatype InteractionState =
    | PresenceRequired | PresenceApproved | PresenceDenied
    | VerificationStarted | VerificationInformation | VerificationError | SecretRequired
    | VerificationSucceeded | VerificationFailed | Cancelled | TimedOut

  predicate Terminal(s: InteractionState) {
    s.PresenceApproved? || s.PresenceDenied? || s.VerificationSucceeded? || s.VerificationFailed?
    || s.Cancelled? || s.TimedOut?
  }

  predicate Progress(s: InteractionState) {
    s.VerificationStarted? || s.VerificationInformation? || s.VerificationError? || s.SecretRequired?
  }

  predicate StartState(s: InteractionState) {
    s.PresenceRequired? || s.VerificationStarted?
  }

  /** valid_transition */
  predicate ValidTransition(previous: Option<InteractionState>, next: InteractionState) {
    match previous
    case None => StartState(next)
    case Some(PresenceRequired) =>
      next.PresenceApproved? || next.PresenceDenied? || next.Cancelled? || next.TimedOut?
    case Some(p) =>
      Progress(p) && (Progress(next) || next.VerificationSucceeded? || next.VerificationFailed?
                      || next.Cancelled? || next.TimedOut?)
  }

  predicate SameUser(b: Binding, u: UserContext) {
    if b.uid != u.uid || b.session.Some? != u.session.Some? then false
    else if b.session.None? then true
    else b.session.value == u.session.value
  }

  lemma SameUserIsBinding(b: Binding, u: UserContext)
    ensures SameUser(b, u) <==> b == u.Bound()
  {
  }

  datatype Pending = Pending(
    requestId: u64, user: Binding, state: Option<InteractionState>, promptId: u64,
    presenceResponse: Option<bool>, secretSubmitted: bool, cancelRequested: bool, responseClosed: bool)

  /** A stored secret, with what it was submitted for. */
  datatype Secret = Secret(bytes: seq<byte>, requestId: u64, promptId: u64, sender: Binding)

  datatype Registry = Registry(current: Option<Pending>, secret: Option<Secret>, nextRequestId: u64, nextPromptId: u64)

  datatype PresenceResult = Approved | Denied | ClientCancelled | PlatformCancelled | WaitTimedOut | Invalidated

  datatype SecretResult =
    | Provided(s: Secret) | SecretClientCancelled | SecretPlatformCancelled | SecretTimedOut | SecretInvalidated

  function Initial(): (r: Registry) {
    Registry(None, None, 1, 1)
  }

  predicate IsCurrent(r: Registry, u: UserContext, id: u64) {
    r.current.Some? && r.current.value.requestId == id && SameUser(r.current.value.user, u)
  }

  // ----- one function per call; None is an exception, which changes nothing -----

  function Begin(r: Registry, u: UserContext): (t: Option<(Registry, u64)>) {
    if r.current.Some? || r.nextRequestId == 0 || r.nextRequestId == MAX_U64 then None
    else
      var p := Pending(r.nextRequestId, u.Bound(), None, 0, None, false, false, false);
      Some((Registry(Some(p), None, r.nextRequestId + 1, r.nextPromptId), r.nextRequestId))
  }

  predicate AcceptsText(s: InteractionState) {
    s.VerificationInformation? || s.VerificationError? || s.SecretRequired?
  }

  /** The registry, whether to publish, and the prompt ID. */
  function Transition(r: Registry, u: UserContext, id: u64, s: InteractionState, textSize: nat):
      (t: Option<(Registry, bool, u64)>)
  {
    if id == 0 || !IsCurrent(r, u, id) || !ValidTransition(r.current.value.state, s) then None
    else if (!AcceptsText(s) && textSize > 0) || textSize > DisplayText.MAX_TEXT then None
    else if s.SecretRequired? && (r.nextPromptId == 0 || r.nextPromptId == MAX_U64) then None
    else if r.current.value.cancelRequested && !s.Cancelled? then Some((r, false, 0))
    else if Terminal(s) then Some((r.(current := None, secret := None), true, 0))
    else if s.SecretRequired? then
      var c := r.current.value.(state := Some(s), promptId := r.nextPromptId, secretSubmitted := false);
      Some((Registry(Some(c), None, r.nextRequestId, r.nextPromptId + 1), true, r.nextPromptId))
    else
      Some((r.(current := Some(r.current.value.(state := Some(s), promptId := 0))), true, 0))
  }

  function Respond(r: Registry, u: UserContext, id: u64, approved: bool): (t: Option<Registry>) {
    if id == 0 || !IsCurrent(r, u, id) then None
    else if r.current.value.state != Some(PresenceRequired) || r.current.value.responseClosed then None
    else Some(r.(current := Some(r.current.value.(presenceResponse := Some(approved), responseClosed := true))))
  }

  function Submit(r: Registry, u: UserContext, id: u64, prompt: u64, bytes: seq<byte>): (t: Option<Registry>) {
    if id == 0 || prompt == 0 || !IsCurrent(r, u, id) then None else
    var c := r.current.value;
    if c.promptId != prompt || c.state != Some(SecretRequired) || c.secretSubmitted || c.cancelRequested then None
    else Some(r.(current := Some(c.(secretSubmitted := true)), secret := Some(Secret(bytes, id, prompt, u.Bound()))))
  }

  function RequestCancel(r: Registry, u: UserContext, id: u64): (t: Option<Registry>) {
    if id == 0 || !IsCurrent(r, u, id) then None
    else if r.current.value.state.None? || r.current.value.responseClosed then None
    else Some(r.(current := Some(r.current.value.(cancelRequested := true, responseClosed := true))))
  }

  function Closed(r: Registry): (t: Registry)
    requires r.current.Some?
  {
    r.(current := Some(r.current.value.(responseClosed := true)))
  }

  /** One turn of wait_for_presence; None keeps waiting. */
  function CheckPresence(r: Registry, u: UserContext, id: u64, stop: bool, expired: bool):
      (t: (Registry, Option<PresenceResult>))
  {
    if !IsCurrent(r, u, id) then (r, Some(Invalidated))
    else if stop then (Closed(r), Some(PlatformCancelled))
    else if r.current.value.cancelRequested then (r, Some(ClientCancelled))
    else if r.current.value.presenceResponse.Some? then
      (r, Some(if r.current.value.presenceResponse.value then Approved else Denied))
    else if expired then (Closed(r), Some(WaitTimedOut))
    else (r, None)
  }

  /** One turn of wait_for_secret; None keeps waiting. */
  function CheckSecret(r: Registry, u: UserContext, id: u64, prompt: u64, stop: bool, expired: bool):
      (t: (Registry, Option<SecretResult>))
  {
    if prompt == 0 || !IsCurrent(r, u, id) || r.current.value.promptId != prompt then (r, Some(SecretInvalidated))
    else if stop then (Closed(r), Some(SecretPlatformCancelled))
    else if r.current.value.cancelRequested then (r, Some(SecretClientCancelled))
    else if r.secret.Some? then (r.(secret := None), Some(Provided(r.secret.value)))
    else if expired then (Closed(r), Some(SecretTimedOut))
    else (r, None)
  }

  function End(r: Registry, u: UserContext, id: u64): (t: Registry) {
    if id == 0 || !IsCurrent(r, u, id) then r else r.(current := None, secret := None)
  }

  function ClearFor(r: Registry, u: UserContext): (t: Registry) {
    if r.current.Some? && SameUser(r.current.value.user, u) then r.(current := None, secret := None) else r
  }

  // ----- runs -----

  datatype Call =
    | DoBegin(u: UserContext)
    | DoTransition(u: UserContext, id: u64, s: InteractionState, textSize: nat)
    | DoRespond(u: UserContext, id: u64, approved: bool)
    | DoSubmit(u: UserContext, id: u64, prompt: u64, bytes: seq<byte>)
    | DoCancel(u: UserContext, id: u64)
    | DoCheckPresence(u: UserContext, id: u64, stop: bool, expired: bool)
    | DoCheckSecret(u: UserContext, id: u64, prompt: u64, stop: bool, expired: bool)
    | DoEnd(u: UserContext, id: u64)
    | DoClearFor(u: UserContext)

  /** What others can see of a call. */
  datatype Entry =
    | Began(id: u64)
    | Published(id: u64, user: Binding, s: InteractionState, prompt: u64)
    | Answered(id: u64, approved: bool)
    | CancelTaken(id: u64)
    | WaitClosed(id: u64)
    | SecretTaken(secret: Secret)
    | SecretGiven(secret: Secret, user: Binding, id: u64, prompt: u64)

  function Apply(r: Registry, c: Call): (t: (Registry, Option<Entry>)) {
    match c
    case DoBegin(u) =>
      var b := Begin(r, u);
      if b.None? then (r, None) else (b.value.0, Some(Began(b.value.1)))
    case DoTransition(u, id, s, n) =>
      var b := Transition(r, u, id, s, n);
      if b.None? then (r, None)
      else (b.value.0, if b.value.1 then Some(Published(id, u.Bound(), s, b.value.2)) else None)
    case DoRespond(u, id, approved) =>
      var b := Respond(r, u, id, approved);
      if b.None? then (r, None) else (b.value, Some(Answered(id, approved)))
    case DoSubmit(u, id, prompt, bytes) =>
      var b := Submit(r, u, id, prompt, bytes);
      if b.None? then (r, None) else (b.value, Some(SecretTaken(Secret(bytes, id, prompt, u.Bound()))))
    case DoCancel(u, id) =>
      var b := RequestCancel(r, u, id);
      if b.None? then (r, None) else (b.value, Some(CancelTaken(id)))
    case DoCheckPresence(u, id, stop, expired) =>
      var (t, res) := CheckPresence(r, u, id, stop, expired);
      (t, if res == Some(WaitTimedOut) || res == Some(PlatformCancelled) then Some(WaitClosed(id)) else None)
    case DoCheckSecret(u, id, prompt, stop, expired) =>
      var (t, res) := CheckSecret(r, u, id, prompt, stop, expired);
      (t, if res.Some? && res.value.Provided? then Some(SecretGiven(res.value.s, u.Bound(), id, prompt))
          else if res == Some(SecretTimedOut) || res == Some(SecretPlatformCancelled) then Some(WaitClosed(id))
          else None)
    case DoEnd(u, id) => (End(r, u, id), None)
    case DoClearFor(u) => (ClearFor(r, u), None)
  }

  datatype World = World(reg: Registry, log: seq<Entry>)

  function Step(w: World, c: Call): (t: World) {
    var (r, e) := Apply(w.reg, c);
    World(r, if e.Some? then w.log + [e.value] else w.log)
  }

  function Run(calls: seq<Call>): (w: World) {
    if calls == [] then World(Initial(), []) else Step(Run(calls[..|calls| - 1]), calls[|calls| - 1])
  }

  lemma RunSnoc(calls: seq<Call>, c: Call)
    ensures Run(calls + [c]) == Step(Run(calls), c)
  {
    assert (calls + [c])[..|calls|] == calls;
  }

  // ----- the invariant -----

  /** The pending interaction: at most one of answer and cancellation, and each of
      them closes the interaction to further responses. */
  ghost predicate PendingOk(r: Registry) {
    && r.nextRequestId >= 1 && r.nextPromptId >= 1
    && (r.current.Some? ==>
          var c := r.current.value;
          && 1 <= c.requestId < r.nextRequestId && c.promptId < r.nextPromptId
          && (c.presenceResponse.Some? || c.cancelRequested ==> c.responseClosed)
          && !(c.presenceResponse.Some? && c.cancelRequested)
          && (c.presenceResponse.Some? ==> c.state == Some(PresenceRequired))
          && (c.state.None? ==> !c.cancelRequested)
          && (c.state.Some? ==> !Terminal(c.state.value))
          && (c.promptId != 0 <==> c.state == Some(SecretRequired)))
    && (r.secret.Some? ==>
          r.current.Some?
          && r.secret.value.requestId == r.current.value.requestId
          && r.secret.value.sender == r.current.value.user
          && (r.current.value.promptId != 0 ==>
                r.secret.value.promptId == r.current.value.promptId && r.current.value.secretSubmitted))
  }

  predicate TakesResponse(e: Entry) {
    e.Answered? || e.CancelTaken?
  }

  /** After such an entry its request takes no response. */
  predicate Closes(e: Entry) {
    TakesResponse(e) || e.WaitClosed?
  }

  predicate NotClosed(log: seq<Entry>, id: u64) {
    forall i :: 0 <= i < |log| && Closes(log[i]) ==> log[i].id != id
  }

  /** A response is the first one of its request, and no wait of the request had been
      closed before it. */
  ghost predicate OneResponse(log: seq<Entry>) {
    forall i, j :: 0 <= i < j < |log| && TakesResponse(log[j]) && Closes(log[i]) ==> log[i].id != log[j].id
  }

  ghost predicate ResponsesOk(w: World) {
    && OneResponse(w.log)
    && (forall i :: 0 <= i < |w.log| && Closes(w.log[i]) ==> w.log[i].id < w.reg.nextRequestId)
    && (w.reg.current.Some? && !w.reg.current.value.responseClosed ==>
          NotClosed(w.log, w.reg.current.value.requestId))
  }

  /** The pending interaction holds exactly the response the log says was taken. */
  ghost predicate HeldOk(w: World) {
    w.reg.current.Some? ==>
      var c := w.reg.current.value;
      && (forall b :: Answered(c.requestId, b) in w.log <==> c.presenceResponse == Some(b))
      && (CancelTaken(c.requestId) in w.log <==> c.cancelRequested)
      && (c.responseClosed ==> SomeClosed(w.log, c.requestId))
  }

  /** Some response was taken for the request, or a wait of it was closed. */
  ghost predicate SomeClosed(log: seq<Entry>, id: u64) {
    exists e :: e in log && Closes(e) && e.id == id
  }

  /** Request and prompt IDs are handed out once, in increasing order. */
  ghost predicate IdsOk(w: World) {
    && (forall i :: 0 <= i < |w.log| ==> IdBelow(w.log[i], w.reg))
    && (forall i, j :: 0 <= i < j < |w.log| ==> IdsGrow(w.log[i], w.log[j]))
  }

  predicate IdBelow(e: Entry, r: Registry) {
    && (e.Began? ==> e.id < r.nextRequestId)
    && (e.Published? ==> e.prompt < r.nextPromptId)
  }

  predicate IdsGrow(e: Entry, f: Entry) {
    && (e.Began? && f.Began? ==> e.id < f.id)
    && (e.Published? && f.Published? && f.prompt != 0 ==> e.prompt < f.prompt)
  }

  predicate TakenFor(e: Entry, prompt: u64) {
    e.SecretTaken? && e.secret.promptId == prompt
  }

  predicate GivenFor(e: Entry, prompt: u64) {
    e.SecretGiven? && e.prompt == prompt
  }

  /** A secret handed out is one that was submitted for that very prompt, of that
      request, by that user. */
  ghost predicate Rightful(log: seq<Entry>, e: Entry) {
    e.SecretGiven? ==>
      && e.secret.requestId == e.id && e.secret.promptId == e.prompt && e.secret.sender == e.user
      && SecretTaken(e.secret) in log
  }

  ghost predicate SecretLogOk(log: seq<Entry>, nextPromptId: u64) {
    && (forall i :: 0 <= i < |log| ==> Rightful(log[..i], log[i]))
    && (forall i :: 0 <= i < |log| ==> PromptBelow(log[i], nextPromptId))
    && (forall i, j :: 0 <= i < j < |log| ==> OncePerPrompt(log[i], log[j]))
  }

  predicate PromptBelow(e: Entry, n: u64) {
    && (e.SecretTaken? ==> 1 <= e.secret.promptId < n)
    && (e.SecretGiven? ==> 1 <= e.prompt < n)
  }

  /** The secret of the open prompt: not submitted yet, waiting, or handed out. */
  ghost predicate OpenPromptOk(r: Registry, log: seq<Entry>) {
    r.current.Some? && r.current.value.promptId != 0 ==>
      var p := r.current.value.promptId;
      && (!r.current.value.secretSubmitted ==> NoneTaken(log, p) && NoneGiven(log, p))
      && (r.secret.Some? ==> SecretTaken(r.secret.value) in log && NoneGiven(log, p))
      && (r.current.value.secretSubmitted ==> SomeTaken(log, p) && (r.secret.None? ==> SomeGiven(log, p)))
  }

  ghost predicate SomeTaken(log: seq<Entry>, p: u64) {
    exists e :: e in log && TakenFor(e, p)
  }

  ghost predicate SomeGiven(log: seq<Entry>, p: u64) {
    exists e :: e in log && GivenFor(e, p)
  }

  ghost predicate NoneTaken(log: seq<Entry>, p: u64) {
    forall i :: 0 <= i < |log| ==> !TakenFor(log[i], p)
  }

  ghost predicate NoneGiven(log: seq<Entry>, p: u64) {
    forall i :: 0 <= i < |log| ==> !GivenFor(log[i], p)
  }

  ghost predicate SecretsOk(w: World) {
    SecretLogOk(w.log, w.reg.nextPromptId) && OpenPromptOk(w.reg, w.log)
  }

  predicate OncePerPrompt(e: Entry, f: Entry) {
    && (e.SecretTaken? && f.SecretTaken? ==> e.secret.promptId != f.secret.promptId)
    && (e.SecretGiven? && f.SecretGiven? ==> e.prompt != f.prompt)
  }

  ghost predicate Inv(w: World) {
    PendingOk(w.reg) && ResponsesOk(w) && HeldOk(w) && IdsOk(w) && SecretsOk(w)
  }

  lemma PendingKeeps(r: Registry, c: Call)
    requires PendingOk(r)
    ensures PendingOk(Apply(r, c).0)
  {
    if r.current.Some? {
      SameUserIsBinding(r.current.value.user, c.u);
    }
  }

  /** A response or a closed wait is of the pending request; a response finds it open,
      and leaves it closed. */
  lemma CloseStep(r: Registry, c: Call)
    requires PendingOk(r)
    ensures var (t, e) := Apply(r, c);
      && r.nextRequestId <= t.nextRequestId
      && (e.Some? && Closes(e.value) ==>
            && r.current.Some? && e.value.id == r.current.value.requestId < r.nextRequestId
            && (TakesResponse(e.value) ==> !r.current.value.responseClosed))
      && (t.current.Some? && !t.current.value.responseClosed ==>
            && !(e.Some? && Closes(e.value))
            && if r.current.Some? then
                 t.current.value.requestId == r.current.value.requestId && !r.current.value.responseClosed
               else t.current.value.requestId == r.nextRequestId)
  {
    hide SameUser, ValidTransition, AcceptsText, Terminal;
  }

  lemma ResponsesKeep(w: World, c: Call)
    requires PendingOk(w.reg) && ResponsesOk(w)
    ensures ResponsesOk(Step(w, c))
  {
    hide Apply, PendingOk;
    CloseStep(w.reg, c);
  }

  /** A new request has no response yet. */
  lemma HeldBegins(w: World, u: UserContext)
    requires ResponsesOk(w) && HeldOk(w)
    ensures HeldOk(Step(w, DoBegin(u)))
  {
    hide OneResponse, NotClosed;
    var n := w.reg.nextRequestId;
    forall e | e in w.log ensures Closes(e) ==> e.id != n {
      var i :| 0 <= i < |w.log| && w.log[i] == e;
    }
  }

  /** The response held by the pending interaction changes only with the entry that
      says so. */
  lemma ResponseStep(r: Registry, c: Call)
    requires PendingOk(r) && !c.DoBegin?
    ensures var (t, e) := Apply(r, c);
      t.current.Some? ==>
        && r.current.Some? && t.current.value.requestId == r.current.value.requestId
        && (if e.Some? && e.value.Answered? then
              && e.value.id == t.current.value.requestId && r.current.value.presenceResponse.None?
              && t.current.value.presenceResponse == Some(e.value.approved)
            else t.current.value.presenceResponse == r.current.value.presenceResponse)
        && (if e.Some? && e.value.CancelTaken? then e.value.id == t.current.value.requestId && t.current.value.cancelRequested
            else t.current.value.cancelRequested == r.current.value.cancelRequested)
        && (t.current.value.responseClosed ==>
              r.current.value.responseClosed || (e.Some? && Closes(e.value) && e.value.id == t.current.value.requestId))
  {
    hide SameUser, ValidTransition, AcceptsText, Terminal;
  }

  lemma HeldKeeps(w: World, c: Call)
    requires PendingOk(w.reg) && ResponsesOk(w) && HeldOk(w)
    ensures HeldOk(Step(w, c))
  {
    if c.DoBegin? {
      HeldBegins(w, c.u);
    } else {
      hide Apply, ResponsesOk, PendingOk;
      ResponseStep(w.reg, c);
    }
  }

  /** IDs are handed out from the two counters. */
  lemma IdStep(r: Registry, c: Call)
    requires PendingOk(r)
    ensures var (t, e) := Apply(r, c);
      && r.nextRequestId <= t.nextRequestId && r.nextPromptId <= t.nextPromptId
      && (e.Some? && e.value.Began? ==> e.value.id == r.nextRequestId < t.nextRequestId)
      && (e.Some? && e.value.Published? ==>
            e.value.prompt < t.nextPromptId && (e.value.prompt != 0 ==> e.value.prompt == r.nextPromptId))
  {
    hide SameUser, ValidTransition, AcceptsText, Terminal;
  }

  lemma IdsKeep(w: World, c: Call)
    requires PendingOk(w.reg) && IdsOk(w)
    ensures IdsOk(Step(w, c))
  {
    hide Apply, PendingOk;
    IdStep(w.reg, c);
  }

  lemma SecretLogAppend(log: seq<Entry>, e: Entry, n: u64, m: u64)
    requires SecretLogOk(log, n) && n <= m && PromptBelow(e, m) && Rightful(log, e)
    requires e.SecretTaken? ==> NoneTaken(log, e.secret.promptId)
    requires e.SecretGiven? ==> NoneGiven(log, e.prompt)
    ensures SecretLogOk(log + [e], m)
  {
    var t := log + [e];
    forall i | 0 <= i < |t| ensures Rightful(t[..i], t[i]) {
      if i < |log| {
        assert t[..i] == log[..i];
        assert Rightful(log[..i], log[i]);
      } else {
        assert t[..i] == log;
      }
    }
  }

  /** Nothing in the log speaks of a prompt not handed out yet. */
  lemma FreshPrompt(log: seq<Entry>, n: u64)
    requires SecretLogOk(log, n)
    ensures NoneTaken(log, n) && NoneGiven(log, n)
  {
    forall i | 0 <= i < |log| ensures !TakenFor(log[i], n) && !GivenFor(log[i], n) {
      assert PromptBelow(log[i], n);
    }
  }

  lemma SomeStays(log: seq<Entry>, e: Entry)
    ensures forall p :: SomeTaken(log, p) ==> SomeTaken(log + [e], p)
    ensures forall p :: SomeGiven(log, p) ==> SomeGiven(log + [e], p)
    ensures forall p :: TakenFor(e, p) ==> SomeTaken(log + [e], p)
    ensures forall p :: GivenFor(e, p) ==> SomeGiven(log + [e], p)
  {
    assert e in log + [e];
    forall p | SomeTaken(log, p) ensures SomeTaken(log + [e], p) {
      var x :| x in log && TakenFor(x, p);
      assert x in log + [e];
    }
    forall p | SomeGiven(log, p) ensures SomeGiven(log + [e], p) {
      var x :| x in log && GivenFor(x, p);
      assert x in log + [e];
    }
  }

  /** A call that neither takes nor gives a secret keeps the open prompt or opens a
      new one. */
  lemma PromptStep(r: Registry, c: Call)
    requires PendingOk(r) && !c.DoSubmit? && !c.DoCheckSecret?
    ensures var (t, e) := Apply(r, c);
      && r.nextPromptId <= t.nextPromptId && (e.Some? ==> !e.value.SecretTaken? && !e.value.SecretGiven?)
      && (t.current.Some? && t.current.value.promptId != 0 ==>
            || (t.current.value.promptId == r.nextPromptId && t.secret.None? && !t.current.value.secretSubmitted)
            || (r.current.Some? && t.current.value.promptId == r.current.value.promptId && t.secret == r.secret
                && t.current.value.secretSubmitted == r.current.value.secretSubmitted))
      && (e.None? ==> t.nextPromptId == r.nextPromptId)
  {
    hide ValidTransition, SameUser, Terminal, AcceptsText;
  }

  lemma OtherCallsKeep(w: World, c: Call)
    requires PendingOk(w.reg) && SecretsOk(w) && !c.DoSubmit? && !c.DoCheckSecret?
    ensures SecretsOk(Step(w, c))
  {
    hide SecretLogOk, Apply, PendingOk;
    FreshPrompt(w.log, w.reg.nextPromptId);
    PromptStep(w.reg, c);
    var (r, e) := Apply(w.reg, c);
    if e.Some? {
      SecretLogAppend(w.log, e.value, w.reg.nextPromptId, r.nextPromptId);
      SomeStays(w.log, e.value);
    }
  }

  lemma SubmitKeeps(w: World, u: UserContext, id: u64, prompt: u64, bytes: seq<byte>)
    requires PendingOk(w.reg) && SecretsOk(w)
    ensures SecretsOk(Step(w, DoSubmit(u, id, prompt, bytes)))
  {
    hide SecretLogOk, SameUser;
    var t := Submit(w.reg, u, id, prompt, bytes);
    if t.Some? {
      SecretLogAppend(w.log, SecretTaken(Secret(bytes, id, prompt, u.Bound())), w.reg.nextPromptId, w.reg.nextPromptId);
    }
  }

  lemma CheckSecretKeeps(w: World, u: UserContext, id: u64, prompt: u64, stop: bool, expired: bool)
    requires PendingOk(w.reg) && SecretsOk(w)
    ensures SecretsOk(Step(w, DoCheckSecret(u, id, prompt, stop, expired)))
  {
    hide SecretLogOk, SameUser;
    var c := DoCheckSecret(u, id, prompt, stop, expired);
    var (r, e) := Apply(w.reg, c);
    if w.reg.current.Some? {
      SameUserIsBinding(w.reg.current.value.user, u);
    }
    if e.Some? {
      SecretLogAppend(w.log, e.value, w.reg.nextPromptId, r.nextPromptId);
      SomeStays(w.log, e.value);
    }
  }

  lemma SecretsKeep(w: World, c: Call)
    requires PendingOk(w.reg) && SecretsOk(w)
    ensures SecretsOk(Step(w, c))
  {
    hide SecretsOk, PendingOk, Step;
    match c
    case DoSubmit(u, id, prompt, bytes) => SubmitKeeps(w, u, id, prompt, bytes);
    case DoCheckSecret(u, id, prompt, stop, expired) => CheckSecretKeeps(w, u, id, prompt, stop, expired);
    case _ => OtherCallsKeep(w, c);
  }

  lemma {:induction false} RunKeeps(calls: seq<Call>)
    ensures Inv(Run(calls))
  {
    if calls == [] {
    } else {
      var w, c := Run(calls[..|calls| - 1]), calls[|calls| - 1];
      RunKeeps(calls[..|calls| - 1]);
      hide ResponsesOk, HeldOk, IdsOk, SecretsOk, PendingOk, Apply;
      PendingKeeps(w.reg, c);
      ResponsesKeep(w, c);
      HeldKeeps(w, c);
      IdsKeep(w, c);
      SecretsKeep(w, c);
    }
  }

  // ----- theorems over every run -----

  /** Over all interleavings, each request takes at most one response: never two
      answers, never an answer and a cancellation, and none after a wait of it timed
      out or was stopped. */
  lemma OneResponsePerRequest(calls: seq<Call>)
    ensures OneResponse(Run(calls).log)
  {
    RunKeeps(calls);
  }

  /** Request IDs and prompt IDs never repeat. */
  lemma IdsNeverRepeat(calls: seq<Call>)
    ensures forall i, j :: 0 <= i < j < |Run(calls).log| ==> IdsGrow(Run(calls).log[i], Run(calls).log[j])
  {
    RunKeeps(calls);
  }

  /** A secret handed out for a prompt was submitted earlier for exactly that prompt,
      in that request and by that binding; each prompt takes one secret and hands one
      out, so none survives into a later prompt or interaction. */
  lemma SecretsAreRightful(calls: seq<Call>)
    ensures var log := Run(calls).log;
      && (forall i :: 0 <= i < |log| ==> Rightful(log[..i], log[i]))
      && (forall i, j :: 0 <= i < j < |log| ==> OncePerPrompt(log[i], log[j]))
  {
    RunKeeps(calls);
  }

  /** A presence answer is accepted exactly for the current request of that user while
      it shows that presence is required and, going by the log, no response of it was
      taken and no wait of it was closed. */
  lemma ResponseAcceptedIff(calls: seq<Call>, u: UserContext, id: u64, approved: bool)
    ensures var w := Run(calls);
      Respond(w.reg, u, id, approved).Some? <==>
        && IsCurrent(w.reg, u, id) && w.reg.current.value.state == Some(PresenceRequired)
        && !SomeClosed(w.log, id)
  {
    RunKeeps(calls);
    hide OneResponse, IdsOk, SecretsOk, SameUser;
    if Run(calls).reg.current.Some? {
      ClosedEither(Run(calls));
    }
  }

  /** A cancellation is accepted exactly for the current request of that user once it
      showed a state, under the same condition. */
  lemma CancelAcceptedIff(calls: seq<Call>, u: UserContext, id: u64)
    ensures var w := Run(calls);
      RequestCancel(w.reg, u, id).Some? <==>
        IsCurrent(w.reg, u, id) && w.reg.current.value.state.Some? && !SomeClosed(w.log, id)
  {
    RunKeeps(calls);
    hide OneResponse, IdsOk, SecretsOk, SameUser;
    if Run(calls).reg.current.Some? {
      ClosedEither(Run(calls));
    }
  }

  lemma ClosedEither(w: World)
    requires ResponsesOk(w) && HeldOk(w) && w.reg.current.Some?
    ensures w.reg.current.value.responseClosed <==> SomeClosed(w.log, w.reg.current.value.requestId)
  {
    if !w.reg.current.value.responseClosed {
      forall e | e in w.log && Closes(e) ensures e.id != w.reg.current.value.requestId {
        var i :| 0 <= i < |w.log| && w.log[i] == e;
      }
    }
  }

  /** A secret is accepted exactly for the open prompt of the current request of that
      user, if none was taken for the prompt and the request was not cancelled. */
  lemma SecretAcceptedIff(calls: seq<Call>, u: UserContext, id: u64, prompt: u64, bytes: seq<byte>)
    ensures var w := Run(calls);
      Submit(w.reg, u, id, prompt, bytes).Some? <==>
        && IsCurrent(w.reg, u, id) && prompt != 0 && w.reg.current.value.promptId == prompt
        && !SomeTaken(w.log, prompt) && CancelTaken(id) !in w.log
  {
    RunKeeps(calls);
    hide OneResponse, ResponsesOk, IdsOk, SecretLogOk, SameUser;
  }

  /** A wait on the open prompt hands out a secret exactly if that secret was taken for
      the prompt and not handed out yet, stop was not requested and the request was not
      cancelled; whether or not the deadline has passed. */
  lemma SecretHandedOutIff(
      calls: seq<Call>, u: UserContext, id: u64, prompt: u64, stop: bool, expired: bool, secret: Secret)
    requires IsCurrent(Run(calls).reg, u, id) && prompt != 0 && Run(calls).reg.current.value.promptId == prompt
    ensures var w := Run(calls);
      CheckSecret(w.reg, u, id, prompt, stop, expired).1 == Some(Provided(secret)) <==>
        && SecretTaken(secret) in w.log && secret.promptId == prompt && !SomeGiven(w.log, prompt)
        && !stop && CancelTaken(id) !in w.log
  {
    RunKeeps(calls);
    hide OneResponse, ResponsesOk, IdsOk, SameUser;
    var w := Run(calls);
    if w.reg.secret.Some? && SecretTaken(secret) in w.log && secret.promptId == prompt {
      OneTaken(w.log, w.reg.nextPromptId, w.reg.secret.value, secret);
    }
  }

  lemma OneTaken(log: seq<Entry>, n: u64, a: Secret, b: Secret)
    requires SecretLogOk(log, n) && SecretTaken(a) in log && SecretTaken(b) in log && a.promptId == b.promptId
    ensures a == b
  {
    var i :| 0 <= i < |log| && log[i] == SecretTaken(a);
    var j :| 0 <= j < |log| && log[j] == SecretTaken(b);
    assert i < j ==> OncePerPrompt(log[i], log[j]);
    assert j < i ==> OncePerPrompt(log[j], log[i]);
  }

  /** The states of a presence interaction and of a verification; a cancellation and a
      timeout belong to both. */
  predicate OfPresence(s: InteractionState) {
    s in {PresenceRequired, PresenceApproved, PresenceDenied, Cancelled, TimedOut}
  }

  predicate OfVerification(s: InteractionState) {
    s in {VerificationStarted, VerificationInformation, VerificationError, SecretRequired, VerificationSucceeded,
          VerificationFailed, Cancelled, TimedOut}
  }

  /** An interaction starts as one of the two kinds, stays in its kind, does not require
      presence twice, and is over exactly when no state can follow. */
  lemma TransitionsIff(p: InteractionState, s: InteractionState)
    ensures ValidTransition(None, s) <==> s == PresenceRequired || s == VerificationStarted
    ensures ValidTransition(Some(p), s) <==>
      && p !in {PresenceApproved, PresenceDenied, VerificationSucceeded, VerificationFailed, Cancelled, TimedOut}
      && s != PresenceRequired
      && ((OfPresence(p) && OfPresence(s)) || (OfVerification(p) && OfVerification(s)))
    ensures Terminal(p) <==> !ValidTransition(Some(p), Cancelled)
  {
  }

  /** A state is taken exactly if it may follow, its text is allowed and short enough
      and prompt IDs are left. It is shown unless a cancellation was accepted and it
      reports something else; then nothing changes. A shown state is the new one, with
      a fresh prompt if it asks for a secret; a terminal one ends the interaction. */
  lemma TransitionExactly(calls: seq<Call>, u: UserContext, id: u64, s: InteractionState, textSize: nat)
    ensures var w := Run(calls);
      var t := Transition(w.reg, u, id, s, textSize);
      && (t.Some? <==>
            && IsCurrent(w.reg, u, id) && ValidTransition(w.reg.current.value.state, s)
            && (textSize == 0 || s in {VerificationInformation, VerificationError, SecretRequired}) && textSize <= 512
            && (s == SecretRequired ==> w.reg.nextPromptId < MAX_U64))
      && (t.Some? ==>
            var (r, shown, prompt) := t.value;
            && (shown <==> s == Cancelled || CancelTaken(id) !in w.log)
            && (!shown ==> r == w.reg)
            && (shown && Terminal(s) ==> r.current.None? && r.secret.None?)
            && (shown && !Terminal(s) ==>
                  && IsCurrent(r, u, id) && r.current.value.state == Some(s) && r.current.value.promptId == prompt)
            && prompt == (if shown && s == SecretRequired then w.reg.nextPromptId else 0))
  {
    RunKeeps(calls);
    hide OneResponse, ResponsesOk, IdsOk, SecretsOk, SameUser, ValidTransition;
  }

  /** What else a turn of a wait returns, in order of precedence: invalidated for a
      request or prompt that is not current, the platform's cancellation, the client's
      as the log has it, and a timeout if the deadline has passed with no answer or
      secret; otherwise it waits on. */
  lemma WaitsOtherwise(calls: seq<Call>, u: UserContext, id: u64, prompt: u64, stop: bool, expired: bool)
    ensures var w := Run(calls);
      var p := CheckPresence(w.reg, u, id, stop, expired).1;
      var s := CheckSecret(w.reg, u, id, prompt, stop, expired).1;
      if !IsCurrent(w.reg, u, id) then p == Some(Invalidated) && s == Some(SecretInvalidated)
      else
        && p == (if stop then Some(PlatformCancelled)
                 else if CancelTaken(id) in w.log then Some(ClientCancelled)
                 else if Answered(id, true) in w.log then Some(Approved)
                 else if Answered(id, false) in w.log then Some(Denied)
                 else if expired then Some(WaitTimedOut) else None)
        && (prompt == 0 || w.reg.current.value.promptId != prompt ==> s == Some(SecretInvalidated))
        && (prompt != 0 && w.reg.current.value.promptId == prompt ==>
              && (stop ==> s == Some(SecretPlatformCancelled))
              && (!stop && CancelTaken(id) in w.log ==> s == Some(SecretClientCancelled))
              && (!stop && CancelTaken(id) !in w.log && (!SomeTaken(w.log, prompt) || SomeGiven(w.log, prompt)) ==>
                    s == if expired then Some(SecretTimedOut) else None))
  {
    RunKeeps(calls);
    hide OneResponse, ResponsesOk, IdsOk, SecretLogOk, SameUser;
  }

  /** A wait on the current request returns the answer that was accepted for it, late
      or not, unless stop was requested; and it returns no answer that was not. */
  lemma AnswerIsReturned(calls: seq<Call>, u: UserContext, id: u64, stop: bool, expired: bool, approved: bool)
    requires IsCurrent(Run(calls).reg, u, id)
    ensures CheckPresence(Run(calls).reg, u, id, stop, expired).1 == Some(if approved then Approved else Denied)
      <==> Answered(id, approved) in Run(calls).log && !stop
  {
    RunKeeps(calls);
    hide OneResponse, IdsOk, SecretsOk;
  }
}
