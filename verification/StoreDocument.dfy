/** The saved form of the credential map: a tree of JSON values. The order of the
    entries is whatever order the hash map is walked in, so saving is a relation. */
module StoreDocument {
  import opened Base
  import opened Credentials
  import Hex

  datatype Field =
    | Id | OwnerUid | Discoverable | CreationOrder | RpId | UserId | UserName
    | UserDisplayName | Alg | SignCount | PrivateBlob | PublicBlob | Other(name: Text)

  /** JSON values without fractional numbers. */
  datatype Json =
    | Null | Bool(b: bool) | Int(n: int) | Str(t: Text)
    | Arr(items: seq<Json>) | Obj(fields: map<Field, Json>)

  /** A number the parser reports as unsigned: larger ones become floating point. */
  predicate IsUnsigned(j: Json) {
    j.Int? && 0 <= j.n <= MAX_U64
  }

  /** Conversion of a parsed integer to a 32-bit signed value. */
  function ToInt32(n: int): (r: int)
    ensures -0x8000_0000 <= r < 0x8000_0000
    ensures (r - n) % 0x1_0000_0000 == 0
  {
    var m := n % 0x1_0000_0000;
    if m < 0x8000_0000 then m else m - 0x1_0000_0000
  }

  function BytesJson(s: seq<byte>): (j: Json) {
    Arr(seq(|s|, i requires 0 <= i < |s| => Int(s[i])))
  }

  function SavedFields(): (s: set<Field>)
    ensures forall f :: f in s <==> !f.Other?
  {
    {Id, OwnerUid, Discoverable, CreationOrder, RpId, UserId, UserName,
     UserDisplayName, Alg, SignCount, PrivateBlob, PublicBlob}
  }

  function FieldOf(c: StoredCredential, f: Field): (j: Json) {
    match f
    case Id => Str(Hex.Encode(c.id))
    case OwnerUid => Int(c.ownerUid)
    case Discoverable => Bool(c.discoverable)
    case CreationOrder => Int(c.creationOrder)
    case RpId => Str(c.rpId)
    case UserId => Str(Hex.Encode(c.userId))
    case UserName => Str(c.userName)
    case UserDisplayName => Str(c.userDisplayName)
    case Alg => Int(c.alg)
    case SignCount => Int(c.signCount)
    case PrivateBlob => BytesJson(c.privateBlob)
    case PublicBlob => BytesJson(c.publicBlob)
    case Other(_) => Null
  }

  /** One element of the array that save_storage builds. */
  function EntryOf(c: StoredCredential): (j: Json) {
    Obj(map f | f in SavedFields() :: FieldOf(c, f))
  }

  function At(fields: map<Field, Json>, f: Field): (r: Option<Json>) {
    if f in fields then Some(fields[f]) else None
  }

  function GetText(fields: map<Field, Json>, f: Field): (r: Option<Text>) {
    var j :- At(fields, f);
    if j.Str? then Some(j.t) else None
  }

  function GetUnsigned(fields: map<Field, Json>, f: Field, max: int): (r: Option<int>)
    ensures r.Some? ==> 0 <= r.value <= max
  {
    var j :- At(fields, f);
    if IsUnsigned(j) && j.n <= max then Some(j.n) else None
  }

  predicate IsByteArray(j: Json) {
    && j.Arr?
    && |j.items| <= MAX_BLOB
    && forall i :: 0 <= i < |j.items| ==> IsUnsigned(j.items[i]) && j.items[i].n <= 255
  }

  function GetBytes(fields: map<Field, Json>, f: Field): (r: Option<seq<byte>>) {
    var j :- At(fields, f);
    if IsByteArray(j) then Some(seq(|j.items|, i requires 0 <= i < |j.items| => j.items[i].n)) else None
  }

  function GetHex(fields: map<Field, Json>, f: Field): (r: Option<seq<byte>>) {
    var t :- GetText(fields, f);
    Hex.Decode(t)
  }

  /** The body of parse_storage's loop: one credential, or any of its exceptions. */
  function ParseEntry(j: Json): (r: Option<StoredCredential>)
    ensures r.Some? ==> ValidCredential(r.value)
  {
    if !j.Obj? then None else
    var id :- GetHex(j.fields, Id);
    if |id| < 16 then None else
    var owner :- GetUnsigned(j.fields, OwnerUid, MAX_U32);
    var disc :- At(j.fields, Discoverable);
    if !disc.Bool? then None else
    var order :- GetUnsigned(j.fields, CreationOrder, MAX_U64);
    if order == 0 then None else
    var rp :- GetText(j.fields, RpId);
    if rp == [] then None else
    var user :- GetHex(j.fields, UserId);
    if user == [] || |user| > 64 then None else
    var name :- GetText(j.fields, UserName);
    var display :- GetText(j.fields, UserDisplayName);
    var alg :- At(j.fields, Alg);
    if !alg.Int? || ToInt32(alg.n) != -7 then None else
    var count :- GetUnsigned(j.fields, SignCount, MAX_U32);
    var pub :- GetBytes(j.fields, PublicBlob);
    var priv :- GetBytes(j.fields, PrivateBlob);
    var c := StoredCredential(id, owner, rp, user, name, display, -7, count, priv, pub, disc.b, order);
    if ValidCredential(c) then Some(c) else None
  }

  /** One turn of the loop: duplicates are refused. */
  function AddEntry(loaded: Storage, entry: Option<StoredCredential>): (r: Option<Storage>) {
    if entry.None? || KeyOf(entry.value.id) in loaded then None
    else Some(loaded[KeyOf(entry.value.id) := entry.value])
  }

  function ParseEntries(items: seq<Json>): (r: Option<Storage>) {
    if items == [] then Some(map[]) else
    var loaded :- ParseEntries(items[..|items| - 1]);
    AddEntry(loaded, ParseEntry(items[|items| - 1]))
  }

  /** What parse_storage accepts and the map it builds. */
  function ParseStorage(j: Json): (r: Option<Storage>) {
    if !j.Arr? || |j.items| > MAX_CREDENTIALS then None else ParseEntries(j.items)
  }

  /** Whatever is accepted is keyed by ID, individually valid and has one map
      entry for each document entry. */
  lemma {:induction false} ParsedEntries(items: seq<Json>)
    requires ParseEntries(items).Some?
    ensures |ParseEntries(items).value| == |items|
    ensures forall k :: k in ParseEntries(items).value ==> WellKeyed(ParseEntries(items).value, k)
  {
    if items == [] {
    } else {
      var front := items[..|items| - 1];
      ParsedEntries(front);
      var loaded := ParseEntries(front).value;
      assert forall l :: l in loaded ==> WellKeyed(loaded, l);
    }
  }

  method ParseDocument(j: Json) returns (r: Option<Storage>)
    ensures r == ParseStorage(j)
  {
    if !j.Arr? || |j.items| > MAX_CREDENTIALS {
      return None;
    }
    var loaded: Storage := map[];
    NoEntries();
    assert j.items[..0] == [];
    hide ParseEntry, ParseEntries, AddEntry;
    for i := 0 to |j.items|
      invariant ParseEntries(j.items[..i]) == Some(loaded)
    {
      NextEntry(j.items, i);
      var next := AddEntry(loaded, ParseEntry(j.items[i]));
      if next.None? {
        PrefixRejected(j.items, i + 1);
        return None;
      }
      loaded := next.value;
    }
    assert j.items[..|j.items|] == j.items;
    return Some(loaded);
  }

  lemma NoEntries()
    ensures ParseEntries([]) == Some(map[])
  {
  }

  lemma NextEntry(items: seq<Json>, i: nat)
    requires i < |items| && ParseEntries(items[..i]).Some?
    ensures ParseEntries(items[..i + 1]) == AddEntry(ParseEntries(items[..i]).value, ParseEntry(items[i]))
  {
    hide ParseEntry, AddEntry;
    assert items[..i + 1][..i] == items[..i];
  }

  /** An entry rejected anywhere rejects the whole document. */
  lemma {:induction false} PrefixRejected(items: seq<Json>, n: nat)
    requires n <= |items| && ParseEntries(items[..n]).None?
    ensures ParseEntries(items).None?
    decreases |items|
  {
    if n == |items| {
      assert items[..n] == items;
    } else {
      var front := items[..|items| - 1];
      assert front[..n] == items[..n];
      PrefixRejected(front, n);
    }
  }

  /** `keys` walks the map once, in some order. */
  ghost predicate Walks(keys: seq<Key>, s: Storage) {
    && |keys| == |s|
    && (forall i :: 0 <= i < |keys| ==> keys[i] in s)
    && (forall i, j :: 0 <= i < j < |keys| ==> keys[i] != keys[j])
  }

  /** `doc` is a document save_storage may write for the map `s`. */
  ghost predicate Dumps(doc: Json, s: Storage) {
    && doc.Arr?
    && exists keys :: DumpsBy(doc, s, keys)
  }

  ghost predicate DumpsBy(doc: Json, s: Storage, keys: seq<Key>) {
    && doc.Arr?
    && Walks(keys, s)
    && |doc.items| == |keys|
    && forall i :: 0 <= i < |keys| ==> doc.items[i] == EntryOf(s[keys[i]])
  }

  /** The save loop, over the hash map in an unspecified order. */
  method Dump(s: Storage) returns (doc: Json)
    ensures Dumps(doc, s)
  {
    hide EntryOf;
    var items: seq<Json> := [];
    var left := s.Keys;
    ghost var keys: seq<Key> := [];
    while left != {}
      invariant left <= s.Keys && |keys| + |left| == |s| && |items| == |keys|
      invariant forall k :: k in keys <==> k in s && k !in left
      invariant forall i, j :: 0 <= i < j < |keys| ==> keys[i] != keys[j]
      invariant forall i :: 0 <= i < |keys| ==> keys[i] in s && items[i] == EntryOf(s[keys[i]])
    {
      var k :| k in left;
      items := items + [EntryOf(s[k])];
      keys := keys + [k];
      left := left - {k};
    }
    doc := Arr(items);
    assert DumpsBy(doc, s, keys);
  }

  lemma BytesRoundTrip(fields: map<Field, Json>, f: Field, s: seq<byte>)
    requires f in fields && fields[f] == BytesJson(s) && |s| <= MAX_BLOB
    ensures GetBytes(fields, f) == Some(s)
  {
    assert GetBytes(fields, f).value == s;
  }

  lemma HexRoundTrip(fields: map<Field, Json>, f: Field, s: seq<byte>)
    requires f in fields && fields[f] == Str(Hex.Encode(s))
    ensures GetHex(fields, f) == Some(s)
  {
    Hex.DecodeEncode(s);
  }

  /** The fields of an entry hold the parts of `c` that say whose it is. */
  ghost predicate HoldsAccount(f: map<Field, Json>, c: StoredCredential) {
    && GetHex(f, Id) == Some(c.id)
    && GetUnsigned(f, OwnerUid, MAX_U32) == Some(c.ownerUid)
    && GetText(f, RpId) == Some(c.rpId)
    && GetHex(f, UserId) == Some(c.userId)
    && GetText(f, UserName) == Some(c.userName)
    && GetText(f, UserDisplayName) == Some(c.userDisplayName)
  }

  /** The fields of an entry hold the remaining parts of `c`. */
  ghost predicate HoldsKey(f: map<Field, Json>, c: StoredCredential) {
    && At(f, Discoverable) == Some(Bool(c.discoverable))
    && GetUnsigned(f, CreationOrder, MAX_U64) == Some(c.creationOrder)
    && At(f, Alg) == Some(Int(c.alg))
    && GetUnsigned(f, SignCount, MAX_U32) == Some(c.signCount)
    && GetBytes(f, PublicBlob) == Some(c.publicBlob)
    && GetBytes(f, PrivateBlob) == Some(c.privateBlob)
  }

  lemma ParseHeld(f: map<Field, Json>, c: StoredCredential)
    requires ValidCredential(c) && HoldsAccount(f, c) && HoldsKey(f, c)
    ensures ParseEntry(Obj(f)) == Some(c)
  {
    var j := Obj(f);
    assert ToInt32(-7) == -7;
  }

  /** An entry is accepted exactly if it is an object whose fields hold a valid
      credential, and then it is that credential; the algorithm number counts modulo
      2^32, and further fields do not matter. */
  lemma ParseEntryIff(j: Json, c: StoredCredential)
    ensures ParseEntry(j) == Some(c) <==>
      && j.Obj? && ValidCredential(c) && HoldsAccount(j.fields, c)
      && (exists n :: At(j.fields, Alg) == Some(Int(n)) && (n - c.alg) % 0x1_0000_0000 == 0)
      && HoldsKey(j.fields[Alg := Int(c.alg)], c)
  {
    hide Hex.Decode, GetText, GetUnsigned, GetBytes, GetHex;
    if j.Obj? {
      SameButAlg(j.fields, c.alg);
    }
  }

  lemma SameButAlg(f: map<Field, Json>, n: int)
    ensures var g := f[Alg := Int(n)];
      && (forall k, max :: k != Alg ==> GetUnsigned(g, k, max) == GetUnsigned(f, k, max))
      && (forall k :: k != Alg ==> GetBytes(g, k) == GetBytes(f, k))
  {
  }

  lemma EntryHoldsAccount(c: StoredCredential)
    ensures HoldsAccount(EntryOf(c).fields, c)
  {
    var f := EntryOf(c).fields;
    HexRoundTrip(f, Id, c.id);
    HexRoundTrip(f, UserId, c.userId);
  }

  lemma EntryHoldsKey(c: StoredCredential)
    requires ValidCredential(c)
    ensures HoldsKey(EntryOf(c).fields, c)
  {
    var f := EntryOf(c).fields;
    BytesRoundTrip(f, PublicBlob, c.publicBlob);
    BytesRoundTrip(f, PrivateBlob, c.privateBlob);
  }

  lemma EntryRoundTrip(c: StoredCredential)
    requires ValidCredential(c)
    ensures ParseEntry(EntryOf(c)) == Some(c)
  {
    EntryHoldsAccount(c);
    EntryHoldsKey(c);
    ParseHeld(EntryOf(c).fields, c);
  }

  /** `m` is the part of `s` under `keys`. */
  ghost predicate PartOf(m: Storage, s: Storage, keys: seq<Key>) {
    && (forall k :: k in m <==> k in keys)
    && (forall k :: k in m ==> k in s && m[k] == s[k])
  }

  lemma PartGrows(m: Storage, s: Storage, keys: seq<Key>, k: Key)
    requires PartOf(m, s, keys) && k in s && k !in keys && WellKeyed(s, k)
    ensures AddEntry(m, Some(s[k])).Some? && PartOf(AddEntry(m, Some(s[k])).value, s, keys + [k])
  {
    hide ValidCredential, Hex.Encode;
  }

  /** The entries of `s` for distinct keys, in that order. */
  ghost predicate EntriesOf(items: seq<Json>, s: Storage, keys: seq<Key>) {
    && |items| == |keys|
    && (forall i :: 0 <= i < |keys| ==> keys[i] in s && WellKeyed(s, keys[i]) && items[i] == EntryOf(s[keys[i]]))
    && (forall i, j :: 0 <= i < j < |keys| ==> keys[i] != keys[j])
  }

  lemma EntriesBefore(items: seq<Json>, s: Storage, keys: seq<Key>)
    requires EntriesOf(items, s, keys) && items != []
    ensures var n := |items| - 1;
      && |keys| == n + 1 && EntriesOf(items[..n], s, keys[..n])
      && keys[n] in s && keys[n] !in keys[..n] && WellKeyed(s, keys[n]) && items[n] == EntryOf(s[keys[n]])
  {
    hide EntryOf, WellKeyed;
  }

  lemma {:induction false} ParsePart(items: seq<Json>, s: Storage, keys: seq<Key>)
    requires EntriesOf(items, s, keys)
    ensures ParseEntries(items).Some? && PartOf(ParseEntries(items).value, s, keys)
    decreases |items|
  {
    hide ParseEntry, EntryOf, WellKeyed, AddEntry, PartOf, EntriesOf, ParseEntries;
    if items == [] {
      PartEmpty(s, keys);
    } else {
      EntriesBefore(items, s, keys);
      var n := |items| - 1;
      ParsePart(items[..n], s, keys[..n]);
      NextEntry(items, n);
      assert items[..n + 1] == items;
      var k := keys[n];
      EntryIsParsed(s, k);
      PartGrows(ParseEntries(items[..n]).value, s, keys[..n], k);
      assert keys == keys[..n] + [k];
    }
  }

  lemma PartEmpty(s: Storage, keys: seq<Key>)
    requires EntriesOf([], s, keys)
    ensures ParseEntries([]) == Some(map[]) && PartOf(map[], s, keys)
  {
  }

  lemma EntryIsParsed(s: Storage, k: Key)
    requires k in s && WellKeyed(s, k)
    ensures ParseEntry(EntryOf(s[k])) == Some(s[k])
  {
    EntryRoundTrip(s[k]);
  }

  lemma WalkCovers(keys: seq<Key>, s: Storage)
    requires Walks(keys, s)
    ensures forall k :: k in s ==> k in keys
  {
    var seen := set k | k in keys;
    DistinctCount(keys);
    assert seen <= s.Keys;
    assert |seen| == |s.Keys|;
    SubsetEqual(seen, s.Keys);
  }

  lemma {:induction false} DistinctCount(keys: seq<Key>)
    requires forall i, j :: 0 <= i < j < |keys| ==> keys[i] != keys[j]
    ensures |set k | k in keys| == |keys|
  {
    if keys == [] {
    } else {
      var n := |keys| - 1;
      DistinctCount(keys[..n]);
      assert (set k | k in keys) == (set k | k in keys[..n]) + {keys[n]};
      assert keys[n] !in keys[..n];
    }
  }

  lemma SubsetEqual<T>(a: set<T>, b: set<T>)
    requires a <= b && |a| == |b|
    ensures a == b
  {
    if x :| x in b && x !in a {
      SubsetSize(a, b - {x});
    }
  }

  lemma SameMap(a: Storage, b: Storage)
    requires forall k :: k in a <==> k in b
    requires forall k :: k in a ==> a[k] == b[k]
    ensures a == b
  {
    assert a.Keys == b.Keys;
  }

  /** parse_storage accepts every document that was saved, whatever the order of
      its entries, and rebuilds the map it was saved from. */
  lemma ParseAcceptsDump(doc: Json, s: Storage)
    requires Dumps(doc, s) && |s| <= MAX_CREDENTIALS && forall k :: k in s ==> WellKeyed(s, k)
    ensures ParseStorage(doc) == Some(s)
  {
    var keys :| DumpsBy(doc, s, keys);
    ParsePart(doc.items, s, keys);
    WalkCovers(keys, s);
    SameMap(ParseEntries(doc.items).value, s);
  }
}
