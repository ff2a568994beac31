/** Continuation state of a GetAssertion with several answers: the credentials
    still to be returned, and to whom. */
module AssertionSequence {
  import opened Base
  import opened Users
  import opened Credentials

  /** steady_clock ticks are nanoseconds. */
  const TIMEOUT: int := 30_000_000_000

  datatype Pending = Pending(
    credentials: seq<StoredCredential>, index: nat, originCid: u32, owner: Option<Binding>, lastUse: int)

  function Nothing(): (p: Pending) {
    Pending([], 0, 0, None, 0)
  }

  predicate Live(p: Pending) {
    p.originCid != 0
  }

  /** What `next` would still return, in order. */
  function Remaining(p: Pending): (r: seq<StoredCredential>) {
    if p.index <= |p.credentials| then p.credentials[p.index..] else []
  }

  /** `begin`; None is its exception, which leaves the sequence cleared. */
  function Begun(cid: u32, user: UserContext, rest: seq<StoredCredential>, now: int): (r: Option<Pending>) {
    if cid == 0 || rest == [] then Some(Nothing())
    else if exists i :: 0 <= i < |rest| && rest[i].ownerUid != user.uid then None
    else Some(Pending(rest, 0, cid, Some(user.Bound()), now))
  }

  function Advanced(p: Pending, cid: u32, user: UserContext, now: int): (r: (Pending, Option<StoredCredential>)) {
    if p.originCid != 0 && p.owner != Some(user.Bound()) then (Nothing(), None)
    else if p.originCid == 0 || cid != p.originCid then (p, None)
    else if now - p.lastUse > TIMEOUT || p.index >= |p.credentials| then (Nothing(), None)
    else
      var c := p.credentials[p.index];
      if p.index + 1 == |p.credentials| then (Nothing(), Some(c))
      else (p.(index := p.index + 1, lastUse := now), Some(c))
  }

  /** A credential is handed out exactly to the channel and the user that opened
      the sequence, in time, while one is left; then it is the next one, and the
      rest stays for later. */
  lemma AdvancedIff(p: Pending, cid: u32, user: UserContext, now: int)
    ensures var (q, c) := Advanced(p, cid, user, now);
      && (c.Some? <==>
            Live(p) && cid == p.originCid && p.owner == Some(user.Bound())
            && now - p.lastUse <= TIMEOUT && Remaining(p) != [])
      && (c.Some? ==>
            && c.value == Remaining(p)[0]
            && Remaining(q) == Remaining(p)[1..]
            && (Live(q) <==> Remaining(q) != [])
            && (Live(q) ==> q.originCid == p.originCid && q.owner == p.owner && q.lastUse == now))
      && (c.None? ==> q == p || q == Nothing())
  {
  }

  /** A sequence is refused exactly for a credential of another user. On a real channel
      with something left it then waits for that channel and user, all of it still to
      come, timed from now; otherwise there is none. */
  lemma BegunIff(cid: u32, user: UserContext, rest: seq<StoredCredential>, now: int)
    ensures Begun(cid, user, rest, now).None? <==>
      cid != 0 && exists i :: 0 <= i < |rest| && rest[i].ownerUid != user.uid
    ensures Begun(cid, user, rest, now).Some? ==>
      var p := Begun(cid, user, rest, now).value;
      && (Live(p) <==> cid != 0 && rest != [])
      && (Live(p) ==>
            p.originCid == cid && p.owner == Some(user.Bound()) && p.lastUse == now && Remaining(p) == rest)
  {
  }

  class Sequence {
    var credentials: seq<StoredCredential>
    var index: nat
    var originCid: u32
    var owner: Option<Binding>
    var lastUse: int

    function State(): (p: Pending)
      reads this
    {
      Pending(credentials, index, originCid, owner, lastUse)
    }

    constructor ()
      ensures State() == Nothing()
    {
      credentials, index, originCid, owner, lastUse := [], 0, 0, None, 0;
    }

    method Clear()
      modifies this
      ensures State() == Nothing()
    {
      credentials := [];
      index := 0;
      originCid := 0;
      owner := None;
      lastUse := 0;
    }

    method Begin(cid: u32, user: UserContext, rest: seq<StoredCredential>, now: int) returns (ok: bool)
      modifies this
      ensures ok <==> Begun(cid, user, rest, now).Some?
      ensures State() == if ok then Begun(cid, user, rest, now).value else Nothing()
    {
      Clear();
      if cid == 0 || rest == [] {
        return true;
      }
      for i := 0 to |rest|
        invariant State() == Nothing()
        invariant forall j :: 0 <= j < i ==> rest[j].ownerUid == user.uid
      {
        if rest[i].ownerUid != user.uid {
          return false;
        }
      }
      originCid := cid;
      owner := Some(user.Bound());
      credentials := rest;
      lastUse := now;
      return true;
    }

    method Next(cid: u32, user: UserContext, now: int) returns (c: Option<StoredCredential>)
      modifies this
      ensures (State(), c) == Advanced(old(State()), cid, user, now)
    {
      if originCid != 0 && (owner.None? || user.Bound() != owner.value) {
        Clear();
        return None;
      }
      if originCid == 0 || cid != originCid {
        return None;
      }
      if now - lastUse > TIMEOUT || index >= |credentials| {
        Clear();
        return None;
      }
      c := Some(credentials[index]);
      index := index + 1;
      if index == |credentials| {
        Clear();
      } else {
        lastUse := now;
      }
    }
  }
}
