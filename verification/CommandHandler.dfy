/** The CTAP command handler: GetAssertion and GetNextAssertion over the store, and
    which commands keep or drop the continuation state. Cryptography and CBOR are
    abstract; their failures and every cancellation are part of `Env`. */
module CommandHandler {
  import opened Base
  import opened Users
  import opened Credentials
  import opened StoreProtocol
  import opened StoreDocument
  import opened AssertionMatches
  import Seq = AssertionSequence
  import Store = CredentialStore

  /** A parsed GetAssertion. `refused` is the code of validation_error. */
  datatype Request = Request(rpId: Text, allow: seq<Descriptor>, up: bool, uv: bool, refused: Option<byte>)

  datatype Interaction = NoInteraction | Presence | Verification

  datatype Answered = Approved | Denied | Cancelled | Raised

  /** What happens around one command: whether stop is seen before the handler is
      entered, the user context (None: none or an exception), the user's answer, whether nothing is cancelled and nothing
      fails before the store update, how that update goes, whether the response
      exceeds the transport limit, and the time. */
  datatype Env = Env(
    stoppedEarly: bool, user: Option<UserContext>, answer: Answered, proceeds: bool, io: SaveIo, tooLarge: bool, now: int)

  datatype Assertion = Assertion(
    cid: u32, binding: Binding, cred: StoredCredential, count: u32, flags: byte, total: Option<nat>)

  /** Failed is an exception path: an error code chosen by the exception. */
  datatype Response = Answer(a: Assertion) | Refused(code: byte) | Failed

  const INVALID_COMMAND: byte := 0x01
  const INVALID_CBOR: byte := 0x12
  const OPERATION_DENIED: byte := 0x27
  const NO_CREDENTIALS: byte := 0x2E
  const NOT_ALLOWED: byte := 0x30
  const REQUEST_TOO_LARGE: byte := 0x39

  /** CTAPGetAssertionRequest across commands. */
  datatype Handler = Handler(request: Request, userPresent: bool, userVerified: bool, pending: Seq.Pending)

  function EmptyRequest(): (r: Request) {
    Request([], [], true, false, None)
  }

  function Fresh(): (h: Handler) {
    Handler(EmptyRequest(), false, false, Seq.Nothing())
  }

  // ----- the pure decisions of authenticate.hpp -----

  function InteractionFor(up: bool, uv: bool): (i: Interaction)
    ensures i.Verification? <==> uv
    ensures i.NoInteraction? <==> !up && !uv
  {
    if uv then Verification else if up then Presence else NoInteraction
  }

  /** authData flags: bit 0 is user presence, bit 2 user verification. */
  function Flags(present: bool, verified: bool): (f: byte)
    ensures (f % 2 == 1 <==> present) && (f / 4 % 2 == 1 <==> verified) && f in {0, 1, 4, 5}
  {
    (if present then 1 else 0) + (if verified then 4 else 0)
  }

  predicate HasContinuations(allowEmpty: bool, n: nat) {
    allowEmpty && n > 1
  }

  // ----- specification of the two commands -----

  /** The snapshot's count after `signCount++` on 32 bits. */
  function NextCount(c: StoredCredential): (n: u32) {
    (c.signCount + 1) % 0x1_0000_0000
  }

  /** generate_single_credential_payload: sign, then commit the new count. */
  ghost function Signed(s: Sys, c: StoredCredential, uid: u32, env: Env): (r: (Sys, bool)) {
    if !env.proceeds then (s, false) else Operate(s, Increment(c.id, uid), env.io)
  }

  function Approves(r: Request, env: Env): (b: bool) {
    InteractionFor(r.up, r.uv).NoInteraction? || env.answer.Approved?
  }

  /** userVerified and userPresent as build_response leaves them when approved. */
  function Verified(r: Request): (b: bool) {
    InteractionFor(r.up, r.uv).Verification?
  }

  function Present(r: Request): (b: bool) {
    if InteractionFor(r.up, r.uv).Verification? then r.up else InteractionFor(r.up, r.uv).Presence?
  }

  function AssertionOf(cid: u32, user: UserContext, c: StoredCredential, h: Handler, total: Option<nat>): (a: Assertion) {
    Assertion(cid, user.Bound(), c, NextCount(c), Flags(h.userPresent, h.userVerified), total)
  }

  datatype Outcome = Outcome(sys: Sys, handler: Handler, response: Response)

  ghost function GetAssertion(s: Sys, cid: u32, parsed: Option<Request>, env: Env): (r: Outcome) {
    if parsed.None? then Outcome(s, Fresh(), Refused(INVALID_CBOR)) else
    var q := parsed.value;
    if env.user.None? || s.mem.requiresReload then Outcome(s, Fresh(), Failed) else
    var user := env.user.value;
    var matches := Found(s.mem.stored, q.rpId, q.allow, user.uid);
    if q.refused.Some? then Outcome(s, Fresh(), Refused(q.refused.value))
    else if !Approves(q, env) then
      Outcome(s, Fresh(), if env.answer.Raised? then Failed else Refused(OPERATION_DENIED))
    else if matches == [] then Outcome(s, Fresh(), Refused(NO_CREDENTIALS))
    else FirstAnswer(s, cid, q, user, matches, env)
  }

  ghost function FirstAnswer(s: Sys, cid: u32, q: Request, user: UserContext, matches: seq<StoredCredential>, env: Env): (r: Outcome)
    requires matches != []
  {
    var (t, ok) := Signed(s, matches[0], user.uid, env);
    if !ok then Outcome(t, Fresh(), Failed) else
    var more := HasContinuations(q.allow == [], |matches|);
    var pending := if more then Seq.Begun(cid, user, matches[1..], env.now) else Some(Seq.Nothing());
    if pending.None? then Outcome(t, Fresh(), Failed)
    else if env.tooLarge then Outcome(t, Fresh(), Refused(REQUEST_TOO_LARGE))
    else
      var h := Handler(q, Present(q), Verified(q), pending.value);
      Outcome(t, h, Answer(AssertionOf(cid, user, matches[0], h, if more then Some(|matches|) else None)))
  }

  ghost function GetNext(s: Sys, h: Handler, cid: u32, extraBytes: bool, env: Env): (r: Outcome) {
    if h.pending.originCid == 0 || h.pending.originCid != cid then Outcome(s, h, Refused(NOT_ALLOWED))
    else if extraBytes then Outcome(s, Fresh(), Refused(INVALID_COMMAND))
    else if env.user.None? then Outcome(s, Fresh(), Failed)
    else
      var user := env.user.value;
      var (pending, c) := Seq.Advanced(h.pending, cid, user, env.now);
      if c.None? then Outcome(s, Fresh(), Refused(NOT_ALLOWED)) else
      var (t, ok) := Signed(s, c.value, user.uid, env);
      if !ok then Outcome(t, Fresh(), Failed)
      else if env.tooLarge then Outcome(t, Fresh(), Refused(REQUEST_TOO_LARGE))
      else Outcome(t, h.(pending := pending), Answer(AssertionOf(cid, user, c.value, h, None)))
  }

  /** execute_ctap_request: a request that is stopped before the handler is entered
      resets it all the same. */
  ghost function Executed(s: Sys, env: Env, handled: Outcome): (r: Outcome) {
    if env.stoppedEarly then Outcome(s, Fresh(), Failed) else handled
  }

  /** MakeCredential and every other command drop the continuation state first.
      Only MakeCredential then changes the store, if it gets that far. */
  ghost function MakeCredential(s: Sys, cred: StoredCredential, owner: u32, reached: bool, io: SaveIo): (r: Outcome) {
    if !reached then Outcome(s, Fresh(), Failed)
    else Outcome(Operate(s, Put(cred, owner), io).0, Fresh(), Failed)
  }

  // ----- the handler object -----

  class Handling {
    var request: Request
    var userPresent: bool
    var userVerified: bool
    const sequence: Seq.Sequence

    constructor ()
      ensures State() == Fresh() && fresh(sequence)
    {
      request, userPresent, userVerified := EmptyRequest(), false, false;
      sequence := new Seq.Sequence();
    }

    function State(): (h: Handler)
      reads this, sequence
    {
      Handler(request, userPresent, userVerified, sequence.State())
    }

    method Reset()
      modifies this, sequence
      ensures State() == Fresh()
    {
      request := EmptyRequest();
      userPresent := false;
      userVerified := false;
      sequence.Clear();
    }

    method ExecuteGetAssertion(cid: u32, parsed: Option<Request>, env: Env, store: Store.Store)
        returns (response: Response, doc: Json)
      requires StorageOk(store.stored, store.generation)
      modifies this, sequence, store, store.machine
      ensures Outcome(store.State(), State(), response)
           == Executed(old(store.State()), env, GetAssertion(old(store.State()), cid, parsed, env.(io := env.io.(doc := doc))))
    {
      hide GetAssertion;
      if env.stoppedEarly {
        Reset();
        return Failed, Null;
      }
      response, doc := HandleGetAssertion(cid, parsed, env, store);
    }

    method ExecuteGetNext(cid: u32, extraBytes: bool, env: Env, store: Store.Store)
        returns (response: Response, doc: Json)
      modifies this, sequence, store, store.machine
      ensures Outcome(store.State(), State(), response)
           == Executed(old(store.State()), env,
                GetNext(old(store.State()), old(State()), cid, extraBytes, env.(io := env.io.(doc := doc))))
    {
      hide GetNext;
      if env.stoppedEarly {
        Reset();
        return Failed, Null;
      }
      response, doc := HandleGetNext(cid, extraBytes, env, store);
    }

    /** generate_single_credential_payload; None is an exception. */
    method Sign(c: StoredCredential, user: UserContext, cid: u32, total: Option<nat>, env: Env, store: Store.Store)
        returns (a: Option<Assertion>, doc: Json)
      modifies store, store.machine
      ensures var (t, ok) := Signed(old(store.State()), c, user.uid, env.(io := env.io.(doc := doc)));
        && store.State() == t
        && a == if ok then Some(AssertionOf(cid, user, c, State(), total)) else None
    {
      hide Operate;
      doc := Null;
      var snapshot := c.(signCount := (c.signCount + 1) % 0x1_0000_0000);
      if !env.proceeds {
        return None, doc;
      }
      var flags := Flags(userPresent, userVerified);
      var ok;
      ok, doc := store.IncrementSigCount(c.id, user.uid, env.io);
      if !ok {
        return None, doc;
      }
      return Some(Assertion(cid, user.Bound(), c, snapshot.signCount, flags, total)), doc;
    }

    /** handle() for authenticatorGetAssertion. */
    method HandleGetAssertion(cid: u32, parsed: Option<Request>, env: Env, store: Store.Store)
        returns (response: Response, doc: Json)
      requires StorageOk(store.stored, store.generation)
      modifies this, sequence, store, store.machine
      ensures Outcome(store.State(), State(), response)
           == GetAssertion(old(store.State()), cid, parsed, env.(io := env.io.(doc := doc)))
    {
      hide Operate, StorageOk, Found;
      doc := Null;
      Reset();
      if parsed.None? {
        return Refused(INVALID_CBOR), doc;
      }
      request := parsed.value;
      if env.user.None? {
        Reset();
        return Failed, doc;
      }
      var user := env.user.value;
      var matches := store.FindForAssertion(request.rpId, request.allow, user.uid);
      if matches.None? {
        Reset();
        return Failed, doc;
      }
      if request.refused.Some? {
        response := Refused(request.refused.value);
        Reset();
        return response, doc;
      }
      var interaction := InteractionFor(request.up, request.uv);
      if !interaction.NoInteraction? && !env.answer.Approved? {
        Reset();
        return if env.answer.Raised? then Failed else Refused(OPERATION_DENIED), doc;
      }
      if interaction.Verification? {
        userVerified := true;
        userPresent := request.up;
      } else if interaction.Presence? {
        userPresent := true;
      }
      if matches.value == [] {
        Reset();
        return Refused(NO_CREDENTIALS), doc;
      }
      response, doc := AnswerFirst(cid, user, matches.value, env, store);
    }

    /** build_response from the first credential on, and handle()'s size check. */
    method AnswerFirst(cid: u32, user: UserContext, matches: seq<StoredCredential>, env: Env, store: Store.Store)
        returns (response: Response, doc: Json)
      requires matches != []
      requires sequence.State() == Seq.Nothing()
      requires userPresent == Present(request) && userVerified == Verified(request)
      modifies this, sequence, store, store.machine
      ensures Outcome(store.State(), State(), response)
           == FirstAnswer(old(store.State()), cid, old(request), user, matches, env.(io := env.io.(doc := doc)))
    {
      hide Operate;
      var more := HasContinuations(request.allow == [], |matches|);
      var a;
      a, doc := Sign(matches[0], user, cid, if more then Some(|matches|) else None, env, store);
      if a.None? {
        Reset();
        return Failed, doc;
      }
      if more {
        var begun := sequence.Begin(cid, user, matches[1..], env.now);
        if !begun {
          Reset();
          return Failed, doc;
        }
      }
      if env.tooLarge {
        Reset();
        return Refused(REQUEST_TOO_LARGE), doc;
      }
      return Answer(a.value), doc;
    }

    /** handle() for authenticatorGetNextAssertion. */
    method HandleGetNext(cid: u32, extraBytes: bool, env: Env, store: Store.Store)
        returns (response: Response, doc: Json)
      modifies this, sequence, store, store.machine
      ensures Outcome(store.State(), State(), response)
           == GetNext(old(store.State()), old(State()), cid, extraBytes, env.(io := env.io.(doc := doc)))
    {
      hide Operate;
      doc := Null;
      if sequence.originCid == 0 || sequence.originCid != cid {
        return Refused(NOT_ALLOWED), doc;
      }
      if extraBytes {
        Reset();
        return Refused(INVALID_COMMAND), doc;
      }
      if env.user.None? {
        Reset();
        return Failed, doc;
      }
      var c := sequence.Next(cid, env.user.value, env.now);
      if c.None? {
        Reset();
        return Refused(NOT_ALLOWED), doc;
      }
      var a;
      a, doc := Sign(c.value, env.user.value, cid, None, env, store);
      if a.None? {
        Reset();
        return Failed, doc;
      }
      if env.tooLarge {
        Reset();
        return Refused(REQUEST_TOO_LARGE), doc;
      }
      return Answer(a.value), doc;
    }
  }
}
