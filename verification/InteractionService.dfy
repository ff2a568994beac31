/** The registry object of the daemon. */
module InteractionService {
  import opened Base
  import opened Users
  import opened InteractionRegistry
  import DisplayText

  class Interactions {
    var current: Option<Pending>
    var secretResponse: Option<Secret>
    var nextRequestId: u64
    var nextPromptId: u64
    ghost var calls: seq<Call>

    function Reg(): (r: Registry)
      reads this
    {
      Registry(current, secretResponse, nextRequestId, nextPromptId)
    }

    /** The fields hold what the calls made so far lead to. */
    ghost predicate Valid()
      reads this
    {
      Reg() == Run(calls).reg
    }

    constructor ()
      ensures Valid() && calls == []
    {
      current, secretResponse, nextRequestId, nextPromptId := None, None, 1, 1;
      calls := [];
    }

    method Begin(u: UserContext) returns (id: Option<u64>)
      requires Valid()
      modifies this
      ensures Valid() && calls == old(calls) + [DoBegin(u)]
      ensures id.Some? <==> old(current).None? && old(nextRequestId) != MAX_U64
      ensures id.Some? <==> InteractionRegistry.Begin(old(Reg()), u).Some?
      ensures id.Some? ==>
        0 != id.value == old(nextRequestId) && IsCurrent(Reg(), u, id.value) && current.value.state.None?
    {
      RunKeeps(calls);
      RunSnoc(calls, DoBegin(u));
      calls := calls + [DoBegin(u)];
      if current.Some? || nextRequestId == 0 || nextRequestId == MAX_U64 {
        return None;
      }
      id := Some(nextRequestId);
      nextRequestId := nextRequestId + 1;
      current := Some(Pending(id.value, u.Bound(), None, 0, None, false, false, false));
      secretResponse := None;
    }

    method MakeTransition(u: UserContext, id: u64, s: InteractionState, textSize: nat)
        returns (published: Option<(bool, u64)>)
      requires Valid()
      modifies this
      ensures Valid() && calls == old(calls) + [DoTransition(u, id, s, textSize)]
      ensures var t := Transition(old(Reg()), u, id, s, textSize);
        published == if t.None? then None else Some((t.value.1, t.value.2))
    {
      RunSnoc(calls, DoTransition(u, id, s, textSize));
      calls := calls + [DoTransition(u, id, s, textSize)];
      if id == 0 || current.None? || current.value.requestId != id || !SameUser(current.value.user, u) {
        return None;
      }
      if !ValidTransition(current.value.state, s) {
        return None;
      }
      if (!AcceptsText(s) && textSize > 0) || textSize > DisplayText.MAX_TEXT {
        return None;
      }
      if s.SecretRequired? && (nextPromptId == 0 || nextPromptId == MAX_U64) {
        return None;
      }
      if current.value.cancelRequested && !s.Cancelled? {
        return Some((false, 0));
      }
      var prompt: u64 := 0;
      if s.SecretRequired? {
        prompt := nextPromptId;
        nextPromptId := nextPromptId + 1;
        current := Some(current.value.(state := Some(s), promptId := prompt, secretSubmitted := false));
        secretResponse := None;
      } else {
        current := Some(current.value.(state := Some(s), promptId := 0));
      }
      if Terminal(s) {
        current := None;
        secretResponse := None;
      }
      return Some((true, prompt));
    }

    method RespondToPresence(u: UserContext, id: u64, approved: bool) returns (ok: bool)
      requires Valid()
      modifies this
      ensures Valid() && calls == old(calls) + [DoRespond(u, id, approved)]
      ensures ok <==> Apply(old(Reg()), DoRespond(u, id, approved)).1 == Some(Answered(id, approved))
    {
      RunSnoc(calls, DoRespond(u, id, approved));
      calls := calls + [DoRespond(u, id, approved)];
      if id == 0 || current.None? || current.value.requestId != id || !SameUser(current.value.user, u)
         || current.value.state != Some(PresenceRequired) || current.value.responseClosed {
        return false;
      }
      current := Some(current.value.(presenceResponse := Some(approved), responseClosed := true));
      return true;
    }

    method SubmitSecret(u: UserContext, id: u64, prompt: u64, bytes: seq<byte>) returns (ok: bool)
      requires Valid()
      modifies this
      ensures Valid() && calls == old(calls) + [DoSubmit(u, id, prompt, bytes)]
      ensures ok <==> Apply(old(Reg()), DoSubmit(u, id, prompt, bytes)).1.Some?
    {
      RunSnoc(calls, DoSubmit(u, id, prompt, bytes));
      calls := calls + [DoSubmit(u, id, prompt, bytes)];
      if id == 0 || prompt == 0 || current.None? || current.value.requestId != id
         || current.value.promptId != prompt || !SameUser(current.value.user, u)
         || current.value.state != Some(SecretRequired) || current.value.secretSubmitted
         || current.value.cancelRequested {
        return false;
      }
      current := Some(current.value.(secretSubmitted := true));
      secretResponse := Some(Secret(bytes, id, prompt, u.Bound()));
      return true;
    }

    method Cancel(u: UserContext, id: u64) returns (ok: bool)
      requires Valid()
      modifies this
      ensures Valid() && calls == old(calls) + [DoCancel(u, id)]
      ensures ok <==> Apply(old(Reg()), DoCancel(u, id)).1 == Some(CancelTaken(id))
    {
      RunSnoc(calls, DoCancel(u, id));
      calls := calls + [DoCancel(u, id)];
      if id == 0 || current.None? || current.value.requestId != id || !SameUser(current.value.user, u)
         || current.value.state.None? || current.value.responseClosed {
        return false;
      }
      current := Some(current.value.(cancelRequested := true, responseClosed := true));
      return true;
    }

    /** One turn of wait_for_presence. */
    method PresenceTurn(u: UserContext, id: u64, stop: bool, expired: bool) returns (res: Option<PresenceResult>)
      requires Valid()
      modifies this
      ensures Valid() && calls == old(calls) + [DoCheckPresence(u, id, stop, expired)]
      ensures res == CheckPresence(old(Reg()), u, id, stop, expired).1
    {
      RunSnoc(calls, DoCheckPresence(u, id, stop, expired));
      calls := calls + [DoCheckPresence(u, id, stop, expired)];
      if current.None? || current.value.requestId != id || !SameUser(current.value.user, u) {
        return Some(Invalidated);
      }
      if stop {
        current := Some(current.value.(responseClosed := true));
        return Some(PlatformCancelled);
      }
      if current.value.cancelRequested {
        return Some(ClientCancelled);
      }
      if current.value.presenceResponse.Some? {
        return Some(if current.value.presenceResponse.value then Approved else Denied);
      }
      if expired {
        current := Some(current.value.(responseClosed := true));
        return Some(WaitTimedOut);
      }
      return None;
    }

    /** One turn of wait_for_secret. */
    method SecretTurn(u: UserContext, id: u64, prompt: u64, stop: bool, expired: bool) returns (res: Option<SecretResult>)
      requires Valid()
      modifies this
      ensures Valid() && calls == old(calls) + [DoCheckSecret(u, id, prompt, stop, expired)]
      ensures res == CheckSecret(old(Reg()), u, id, prompt, stop, expired).1
    {
      RunSnoc(calls, DoCheckSecret(u, id, prompt, stop, expired));
      calls := calls + [DoCheckSecret(u, id, prompt, stop, expired)];
      if prompt == 0 || current.None? || current.value.requestId != id || current.value.promptId != prompt
         || !SameUser(current.value.user, u) {
        return Some(SecretInvalidated);
      }
      if stop {
        current := Some(current.value.(responseClosed := true));
        return Some(SecretPlatformCancelled);
      }
      if current.value.cancelRequested {
        return Some(SecretClientCancelled);
      }
      if secretResponse.Some? {
        res := Some(Provided(secretResponse.value));
        secretResponse := None;
        return;
      }
      if expired {
        current := Some(current.value.(responseClosed := true));
        return Some(SecretTimedOut);
      }
      return None;
    }

    method Finish(u: UserContext, id: u64)
      requires Valid()
      modifies this
      ensures Valid() && calls == old(calls) + [DoEnd(u, id)]
      ensures id != 0 ==> !IsCurrent(Reg(), u, id)
    {
      RunSnoc(calls, DoEnd(u, id));
      calls := calls + [DoEnd(u, id)];
      if id == 0 || current.None? || current.value.requestId != id || !SameUser(current.value.user, u) {
        return;
      }
      current := None;
      secretResponse := None;
    }

    method Drop(u: UserContext)
      requires Valid()
      modifies this
      ensures Valid() && calls == old(calls) + [DoClearFor(u)]
      ensures current.Some? ==> current.value.user != u.Bound()
    {
      hide Run, SameUser;
      if current.Some? {
        SameUserIsBinding(current.value.user, u);
      }
      RunSnoc(calls, DoClearFor(u));
      calls := calls + [DoClearFor(u)];
      if current.Some? && SameUser(current.value.user, u) {
        current := None;
        secretResponse := None;
      }
    }
  }
}
