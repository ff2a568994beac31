/** Stored credentials, the map that holds them, and the four changes the store
    makes to that map, as functions from the current map to the map to be saved. */
module Credentials {
  import opened Base
  import Hex

  datatype StoredCredential = StoredCredential(
    id: seq<byte>,
    ownerUid: u32,
    rpId: Text,
    userId: seq<byte>,
    userName: Text,
    userDisplayName: Text,
    alg: int,
    signCount: u32,
    privateBlob: seq<byte>,
    publicBlob: seq<byte>,
    discoverable: bool,
    creationOrder: u64)

  /** The map key: the hexadecimal text of the credential ID. */
  datatype Key = Key(hex: Text)

  function KeyOf(id: seq<byte>): (k: Key) {
    Key(Hex.Encode(id))
  }

  type Storage = map<Key, StoredCredential>

  const MAX_CREDENTIALS: nat := 4096
  const MAX_BLOB: nat := 4096

  datatype StoreError =
    | InvalidCredential | AlreadyExists | TooMany | NotFound | CounterExhausted
    | GenerationOverflow | MustReload | CommitFailed | Malformed

  /** validate_credential */
  predicate ValidCredential(c: StoredCredential) {
    && 16 <= |c.id| <= 1024
    && 1 <= |c.rpId| <= 253
    && 1 <= |c.userId| <= 64
    && c.alg == -7
    && 1 <= |c.privateBlob| <= MAX_BLOB
    && 1 <= |c.publicBlob| <= MAX_BLOB
    && c.creationOrder != 0
  }

  /** Two discoverable credentials of one account at one relying party. */
  predicate SameAccount(a: StoredCredential, b: StoredCredential) {
    && a.discoverable && b.discoverable
    && a.ownerUid == b.ownerUid && a.rpId == b.rpId && a.userId == b.userId
  }

  /** What holds of every map the store keeps or saves at generation `gen`. */
  ghost predicate StorageOk(s: Storage, gen: u64) {
    && |s| <= MAX_CREDENTIALS
    && (forall k :: k in s ==> WellKeyed(s, k) && s[k].creationOrder <= gen)
    && (forall k, l :: k in s && l in s && k != l ==> Apart(s[k], s[l]))
  }

  predicate WellKeyed(s: Storage, k: Key)
    requires k in s
  {
    k == KeyOf(s[k].id) && ValidCredential(s[k])
  }

  /** Two credentials that one store may hold together. */
  predicate Apart(a: StoredCredential, b: StoredCredential) {
    a.creationOrder != b.creationOrder && !SameAccount(a, b)
  }

  datatype Change =
    | Put(cred: StoredCredential, owner: u32)
    | Erase(id: seq<byte>, owner: u32)
    | Clear
    | Increment(id: seq<byte>, owner: u32)

  /** The credential as `put` stores it: owner and creation order overwritten. */
  function Registered(cred: StoredCredential, owner: u32, gen: u64): (c: StoredCredential)
    requires gen < MAX_U64
  {
    cred.(ownerUid := owner, creationOrder := gen + 1)
  }

  /** `updated` without the discoverable credentials that `c` replaces. */
  function WithoutAccount(s: Storage, c: StoredCredential): (r: Storage)
    ensures r.Keys <= s.Keys
    ensures forall k :: k in r ==> r[k] == s[k]
    ensures forall k :: k in s ==> (k !in r <==> SameAccount(s[k], c))
  {
    map k | k in s && !SameAccount(s[k], c) :: s[k]
  }

  /** The map `put` would save. */
  function PutTarget(s: Storage, gen: u64, cred: StoredCredential, owner: u32): (r: Result<Storage, StoreError>) {
    if gen == MAX_U64 then Err(GenerationOverflow) else
    var c := Registered(cred, owner, gen);
    if !ValidCredential(c) then Err(InvalidCredential) else
    var k := KeyOf(c.id);
    if k in s then Err(AlreadyExists) else
    var kept := WithoutAccount(s, c);
    if |kept| >= MAX_CREDENTIALS then Err(TooMany) else
    Ok(kept[k := c])
  }

  function EraseTarget(s: Storage, id: seq<byte>, owner: u32): (r: Result<Storage, StoreError>) {
    var k := KeyOf(id);
    if k !in s || s[k].ownerUid != owner then Err(NotFound) else Ok(s - {k})
  }

  /** One more signature. */
  function Bumped(c: StoredCredential): (r: StoredCredential)
    requires c.signCount < MAX_U32
  {
    c.(signCount := c.signCount + 1)
  }

  function IncrementTarget(s: Storage, id: seq<byte>, owner: u32): (r: Result<Storage, StoreError>) {
    var k := KeyOf(id);
    if k !in s || s[k].ownerUid != owner then Err(NotFound)
    else if s[k].signCount == MAX_U32 then Err(CounterExhausted)
    else Ok(s[k := Bumped(s[k])])
  }

  /** The map that a change asks to be saved, or the error that stops it first. */
  function Target(s: Storage, gen: u64, change: Change): (r: Result<Storage, StoreError>) {
    match change
    case Put(cred, owner) => PutTarget(s, gen, cred, owner)
    case Erase(id, owner) => EraseTarget(s, id, owner)
    case Clear => Ok(map[])
    case Increment(id, owner) => IncrementTarget(s, id, owner)
  }

  lemma SubmapSize(r: Storage, s: Storage)
    requires r.Keys <= s.Keys
    ensures |r| <= |s|
  {
    SubsetSize(r.Keys, s.Keys);
    assert |r| == |r.Keys| && |s| == |s.Keys|;
  }

  lemma {:induction false} SubsetSize<T>(a: set<T>, b: set<T>)
    requires a <= b
    ensures |a| <= |b|
    decreases a
  {
    if a == {} {
    } else {
      var x :| x in a;
      SubsetSize(a - {x}, b - {x});
    }
  }

  lemma EmptyOk(gen: u64)
    ensures StorageOk(map[], gen)
  {
  }

  lemma SubmapOk(r: Storage, s: Storage, gen: u64)
    requires StorageOk(s, gen)
    requires r.Keys <= s.Keys && forall k :: k in r ==> r[k] == s[k]
    ensures StorageOk(r, gen)
  {
    SubmapSize(r, s);
    forall k | k in r ensures WellKeyed(r, k) {
      assert WellKeyed(s, k);
    }
  }

  lemma NewerApart(a: StoredCredential, c: StoredCredential, gen: u64)
    requires a.creationOrder <= gen < c.creationOrder && !SameAccount(a, c)
    ensures Apart(a, c) && Apart(c, a)
  {
  }

  lemma InsertOk(s: Storage, gen: u64, k: Key, c: StoredCredential)
    requires StorageOk(s, gen) && gen < MAX_U64 && |s| < MAX_CREDENTIALS
    requires k !in s && k == KeyOf(c.id) && ValidCredential(c) && c.creationOrder == gen + 1
    requires forall l :: l in s ==> !SameAccount(s[l], c)
    ensures StorageOk(s[k := c], gen + 1)
  {
    hide ValidCredential, KeyOf, Apart;
    var r := s[k := c];
    assert r.Keys == s.Keys + {k};
    assert |r| == |r.Keys| && |s| == |s.Keys|;
    forall l | l in r ensures WellKeyed(r, l) && r[l].creationOrder <= gen + 1 {
      if l != k {
        assert WellKeyed(s, l);
      }
    }
    forall l | l in s ensures Apart(s[l], c) && Apart(c, s[l]) {
      NewerApart(s[l], c, gen);
    }
    forall l, m | l in r && m in r && l != m ensures Apart(r[l], r[m]) {
      if l != k && m != k {
        assert Apart(s[l], s[m]);
      }
    }
  }

  lemma PutOk(s: Storage, gen: u64, cred: StoredCredential, owner: u32)
    requires StorageOk(s, gen) && PutTarget(s, gen, cred, owner).Ok?
    ensures gen < MAX_U64 && StorageOk(PutTarget(s, gen, cred, owner).value, gen + 1)
  {
    var c := Registered(cred, owner, gen);
    var kept := WithoutAccount(s, c);
    SubmapOk(kept, s, gen);
    InsertOk(kept, gen, KeyOf(c.id), c);
  }

  lemma EraseOk(s: Storage, gen: u64, id: seq<byte>, owner: u32)
    requires StorageOk(s, gen) && EraseTarget(s, id, owner).Ok?
    ensures StorageOk(EraseTarget(s, id, owner).value, gen)
  {
    SubmapOk(EraseTarget(s, id, owner).value, s, gen);
  }

  lemma IncrementOk(s: Storage, gen: u64, id: seq<byte>, owner: u32)
    requires StorageOk(s, gen) && IncrementTarget(s, id, owner).Ok?
    ensures StorageOk(IncrementTarget(s, id, owner).value, gen)
  {
    hide Apart, ValidCredential, KeyOf, Bumped;
    var r := IncrementTarget(s, id, owner).value;
    assert r.Keys == s.Keys;
    assert |r| == |r.Keys| && |s| == |s.Keys|;
    forall l | l in r ensures WellKeyed(r, l) && r[l].creationOrder <= gen {
      assert WellKeyed(s, l);
      BumpKeeps(s[l], s[l]);
    }
    forall l, m | l in r && m in r && l != m ensures Apart(r[l], r[m]) {
      assert Apart(s[l], s[m]);
      BumpKeeps(s[l], s[m]);
      BumpKeeps(s[m], s[l]);
    }
  }

  lemma BumpKeeps(c: StoredCredential, d: StoredCredential)
    ensures c.signCount < MAX_U32 ==>
      && (ValidCredential(c) ==> ValidCredential(Bumped(c)))
      && KeyOf(Bumped(c).id) == KeyOf(c.id) && Bumped(c).creationOrder == c.creationOrder
      && (Apart(c, d) <==> Apart(Bumped(c), d)) && (Apart(d, c) <==> Apart(d, Bumped(c)))
  {
  }

  lemma LaterOk(s: Storage, gen: u64, later: u64)
    requires StorageOk(s, gen) && gen <= later
    ensures StorageOk(s, later)
  {
  }

  /** Every change keeps the map's invariants, at the generation it is saved with. */
  lemma TargetOk(s: Storage, gen: u64, change: Change)
    requires StorageOk(s, gen) && gen < MAX_U64 && Target(s, gen, change).Ok?
    ensures StorageOk(Target(s, gen, change).value, gen + 1)
  {
    match change
    case Put(cred, owner) => PutOk(s, gen, cred, owner);
    case Erase(id, owner) =>
      EraseOk(s, gen, id, owner);
      LaterOk(Target(s, gen, change).value, gen, gen + 1);
    case Clear => EmptyOk(gen + 1);
    case Increment(id, owner) =>
      IncrementOk(s, gen, id, owner);
      LaterOk(Target(s, gen, change).value, gen, gen + 1);
  }

  // ----- what each change does to the map, exactly -----

  /** The map holds a credential with this ID. */
  ghost predicate HasId(s: Storage, id: seq<byte>) {
    exists k :: k in s && s[k].id == id
  }

  /** The map holds a credential with this ID that belongs to this owner. */
  ghost predicate Owns(s: Storage, id: seq<byte>, owner: u32) {
    exists k :: k in s && s[k].id == id && s[k].ownerUid == owner
  }

  /** In a well-formed map a credential is found under its ID and nowhere else. */
  lemma FoundUnderId(s: Storage, gen: u64, id: seq<byte>)
    requires StorageOk(s, gen)
    ensures forall k :: k in s && s[k].id == id ==> k == KeyOf(id)
    ensures KeyOf(id) in s ==> s[KeyOf(id)].id == id
  {
    hide ValidCredential, Hex.Encode, Apart;
    forall k | k in s && s[k].id == id ensures k == KeyOf(id) {
      assert WellKeyed(s, k);
    }
    if KeyOf(id) in s {
      assert WellKeyed(s, KeyOf(id));
      Hex.EncodeInjective(s[KeyOf(id)].id, id);
    }
  }

  /** Erasing is accepted exactly for an ID that is stored for that owner; then that
      credential goes, and every other one stays as it was. */
  lemma EraseExactly(s: Storage, gen: u64, id: seq<byte>, owner: u32)
    requires StorageOk(s, gen)
    ensures EraseTarget(s, id, owner).Ok? <==> Owns(s, id, owner)
    ensures EraseTarget(s, id, owner).Ok? ==>
      var r := EraseTarget(s, id, owner).value;
      && !HasId(r, id)
      && (forall k :: k in s && s[k].id != id ==> k in r && r[k] == s[k])
      && (forall k :: k in r ==> k in s)
  {
    hide StorageOk, KeyOf;
    FoundUnderId(s, gen, id);
  }

  /** One more signature is accepted exactly for an ID that is stored for that owner
      with a count below the largest; then that count is one higher, and nothing else
      changes. */
  lemma IncrementExactly(s: Storage, gen: u64, id: seq<byte>, owner: u32)
    requires StorageOk(s, gen)
    ensures IncrementTarget(s, id, owner).Ok? <==>
      exists k :: k in s && s[k].id == id && s[k].ownerUid == owner && s[k].signCount < MAX_U32
    ensures IncrementTarget(s, id, owner).Ok? ==>
      var r := IncrementTarget(s, id, owner).value;
      && r.Keys == s.Keys
      && (forall k :: k in s ==> r[k] == if s[k].id == id then s[k].(signCount := s[k].signCount + 1) else s[k])
  {
    hide StorageOk, KeyOf;
    FoundUnderId(s, gen, id);
  }

  /** Registering is accepted exactly for a credential within the limits, under an ID
      not stored yet, while the generation can still grow and room is left without the
      credential it replaces. */
  lemma PutAcceptedIff(s: Storage, gen: u64, cred: StoredCredential, owner: u32)
    requires StorageOk(s, gen)
    ensures PutTarget(s, gen, cred, owner).Ok? <==>
      && gen < MAX_U64
      && 16 <= |cred.id| <= 1024 && 1 <= |cred.rpId| <= 253 && 1 <= |cred.userId| <= 64 && cred.alg == -7
      && 1 <= |cred.privateBlob| <= 4096 && 1 <= |cred.publicBlob| <= 4096
      && !HasId(s, cred.id)
      && |set k | k in s && !Replaces(cred, owner, s[k])| < 4096
  {
    hide StorageOk, KeyOf;
    FoundUnderId(s, gen, cred.id);
    if gen < MAX_U64 {
      var c := Registered(cred, owner, gen);
      assert WithoutAccount(s, c).Keys == set k | k in s && !Replaces(cred, owner, s[k]);
      assert |WithoutAccount(s, c)| == |WithoutAccount(s, c).Keys|;
    }
  }

  /** A discoverable credential takes the place of another one of the same owner,
      relying party and user. */
  predicate Replaces(cred: StoredCredential, owner: u32, prior: StoredCredential) {
    && cred.discoverable && prior.discoverable
    && prior.ownerUid == owner && prior.rpId == cred.rpId && prior.userId == cred.userId
  }

  /** Registering adds the credential as given, with its owner and the next creation
      order; it removes those it replaces, at most one, and every other one stays as
      it was. */
  lemma PutReplacesOne(s: Storage, gen: u64, cred: StoredCredential, owner: u32)
    requires StorageOk(s, gen) && PutTarget(s, gen, cred, owner).Ok?
    ensures var r := PutTarget(s, gen, cred, owner).value;
      var k := KeyOf(cred.id);
      && gen < MAX_U64
      && k !in s && k in r && r[k] == cred.(ownerUid := owner, creationOrder := gen + 1)
      && (forall l :: l in s ==> (l in r <==> !Replaces(cred, owner, s[l])))
      && (forall l :: l in r && l != k ==> l in s && r[l] == s[l])
      && (forall l, m :: l in s && m in s && Replaces(cred, owner, s[l]) && Replaces(cred, owner, s[m]) ==> l == m)
  {
    hide StorageOk, ValidCredential, KeyOf;
    var c := Registered(cred, owner, gen);
    forall l, m | l in s && m in s && Replaces(cred, owner, s[l]) && Replaces(cred, owner, s[m]) ensures l == m {
      OnePrior(s, gen, c, m);
      assert l !in WithoutAccount(s, c).Keys;
    }
  }

  lemma ClearExactly(s: Storage, gen: u64)
    ensures Target(s, gen, Clear) == Ok(map[])
  {
  }

  /** An account has one prior credential, and only that goes. */
  lemma OnePrior(s: Storage, gen: u64, c: StoredCredential, prior: Key)
    requires StorageOk(s, gen) && prior in s && SameAccount(s[prior], c)
    ensures WithoutAccount(s, c).Keys == s.Keys - {prior}
  {
    forall l | l in s && l != prior ensures !SameAccount(s[l], c) {
      assert Apart(s[l], s[prior]);
    }
  }
}
