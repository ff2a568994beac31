/** find_for_assertion: which credentials answer a request, and in what order. */
module AssertionMatches {
  import opened Base
  import opened Credentials
  import Hex

  datatype Descriptor = Descriptor(isPublicKey: bool, id: seq<byte>)

  predicate Matches(c: StoredCredential, rp: Text, owner: u32) {
    c.ownerUid == owner && c.discoverable && c.rpId == rp
  }

  // ----- empty allow list: discoverable credentials, newest first -----

  predicate LexLess(a: seq<byte>, b: seq<byte>) {
    if a == [] then b != []
    else b != [] && (a[0] < b[0] || (a[0] == b[0] && LexLess(a[1..], b[1..])))
  }

  /** The comparator given to std::sort. */
  predicate Before(a: StoredCredential, b: StoredCredential) {
    if a.creationOrder != b.creationOrder then a.creationOrder > b.creationOrder
    else LexLess(a.id, b.id)
  }

  /** `list` holds exactly the matching credentials of the map, each once and
      strictly newest first. */
  ghost predicate NewestFirst(list: seq<StoredCredential>, s: Storage, rp: Text, owner: u32) {
    && (forall c :: c in list <==> Offered(c, s, rp, owner))
    && Descending(list)
  }

  ghost predicate Offered(c: StoredCredential, s: Storage, rp: Text, owner: u32) {
    Matches(c, rp, owner) && exists k :: k in s && s[k] == c
  }

  ghost predicate Descending(list: seq<StoredCredential>) {
    forall i, j :: 0 <= i < j < |list| ==> list[i].creationOrder > list[j].creationOrder
  }

  /** Such a list is unique: the order of the hash map cannot show. */
  lemma {:induction false} DescendingUnique(a: seq<StoredCredential>, b: seq<StoredCredential>)
    requires Descending(a) && Descending(b)
    requires forall c :: c in a <==> c in b
    ensures a == b
  {
    assert b != [] ==> b[0] in b;
    if a == [] {
    } else {
      assert a[0] in a && a[0] in b;
      assert b[0] in a;
      assert a[0] == b[0];
      var a', b' := a[1..], b[1..];
      forall c ensures c in a' <==> c in b' {
        TailMember(a, c);
        TailMember(b, c);
      }
      DescendingUnique(a', b');
      assert a == [a[0]] + a' && b == [b[0]] + b';
    }
  }

  lemma TailMember(a: seq<StoredCredential>, c: StoredCredential)
    requires a != [] && Descending(a)
    ensures c in a[1..] <==> c in a && c != a[0]
  {
    if c in a && c != a[0] {
      var i :| 0 <= i < |a| && a[i] == c;
      assert a[1..][i - 1] == c;
    }
  }

  lemma NewestFirstUnique(a: seq<StoredCredential>, b: seq<StoredCredential>, s: Storage, rp: Text, owner: u32)
    requires NewestFirst(a, s, rp, owner) && NewestFirst(b, s, rp, owner)
    ensures a == b
  {
    DescendingUnique(a, b);
  }

  /** std::sort with the comparator above. */
  function Insert(c: StoredCredential, list: seq<StoredCredential>): (r: seq<StoredCredential>)
    ensures |r| == |list| + 1
  {
    if list == [] || Before(c, list[0]) then [c] + list else [list[0]] + Insert(c, list[1..])
  }

  function Sort(list: seq<StoredCredential>): (r: seq<StoredCredential>)
    ensures |r| == |list|
  {
    if list == [] then [] else Insert(list[0], Sort(list[1..]))
  }

  lemma {:induction false} InsertMembers(c: StoredCredential, list: seq<StoredCredential>, x: StoredCredential)
    ensures x in Insert(c, list) <==> x == c || x in list
  {
    if list == [] || Before(c, list[0]) {
    } else {
      InsertMembers(c, list[1..], x);
      assert list == [list[0]] + list[1..];
    }
  }

  lemma {:induction false} InsertDescending(c: StoredCredential, list: seq<StoredCredential>)
    requires Descending(list)
    requires forall x :: x in list ==> x.creationOrder != c.creationOrder
    ensures Descending(Insert(c, list))
  {
    if list == [] || Before(c, list[0]) {
    } else {
      InsertDescending(c, list[1..]);
      var r := Insert(c, list[1..]);
      forall i | 0 <= i < |r| ensures list[0].creationOrder > r[i].creationOrder {
        InsertMembers(c, list[1..], r[i]);
        assert list[0] in list;
      }
    }
  }

  /** Sorting keeps the members, and makes distinct orders strictly descending. */
  lemma {:induction false} SortProperty(list: seq<StoredCredential>)
    requires forall i, j :: 0 <= i < j < |list| ==> list[i].creationOrder != list[j].creationOrder
    ensures Descending(Sort(list))
    ensures forall x :: x in Sort(list) <==> x in list
  {
    if list == [] {
    } else {
      SortProperty(list[1..]);
      assert list == [list[0]] + list[1..];
      InsertDescending(list[0], Sort(list[1..]));
      forall x ensures x in Sort(list) <==> x in list {
        InsertMembers(list[0], Sort(list[1..]), x);
      }
    }
  }

  /** The credentials of `keys`, in that order. */
  ghost predicate Collected(found: seq<StoredCredential>, keys: seq<Key>, s: Storage, rp: Text, owner: u32) {
    && |keys| == |found|
    && (forall i :: 0 <= i < |keys| ==> keys[i] in s && found[i] == s[keys[i]] && Matches(found[i], rp, owner))
    && (forall i, j :: 0 <= i < j < |keys| ==> keys[i] != keys[j])
  }

  /** The empty-allow-list branch: collect in the hash map's order, then sort. */
  method CollectDiscoverable(s: Storage, ghost gen: u64, rp: Text, owner: u32)
      returns (matches: seq<StoredCredential>)
    requires StorageOk(s, gen)
    ensures NewestFirst(matches, s, rp, owner)
  {
    hide StorageOk, Matches, NewestFirst;
    var found: seq<StoredCredential> := [];
    var left := s.Keys;
    ghost var keys: seq<Key> := [];
    while left != {}
      invariant left <= s.Keys
      invariant Collected(found, keys, s, rp, owner)
      invariant forall k :: k in keys ==> k !in left
      invariant forall k :: k in s && k !in left && Matches(s[k], rp, owner) ==> k in keys
    {
      var k :| k in left;
      if Matches(s[k], rp, owner) {
        found := found + [s[k]];
        keys := keys + [k];
      }
      left := left - {k};
    }
    CollectedSorts(found, keys, s, gen, rp, owner);
    matches := Sort(found);
  }

  lemma CollectedSorts(found: seq<StoredCredential>, keys: seq<Key>, s: Storage, gen: u64, rp: Text, owner: u32)
    requires StorageOk(s, gen) && Collected(found, keys, s, rp, owner)
    requires forall k :: k in s && Matches(s[k], rp, owner) ==> k in keys
    ensures NewestFirst(Sort(found), s, rp, owner)
  {
    forall i, j | 0 <= i < j < |found| ensures found[i].creationOrder != found[j].creationOrder {
      assert Apart(s[keys[i]], s[keys[j]]);
    }
    SortProperty(found);
    forall c ensures c in found <==> Offered(c, s, rp, owner) {
      FoundIsOffered(found, keys, s, rp, owner, c);
    }
  }

  lemma FoundIsOffered(found: seq<StoredCredential>, keys: seq<Key>, s: Storage, rp: Text, owner: u32, c: StoredCredential)
    requires Collected(found, keys, s, rp, owner)
    requires forall k :: k in s && Matches(s[k], rp, owner) ==> k in keys
    ensures c in found <==> Offered(c, s, rp, owner)
  {
    if Offered(c, s, rp, owner) {
      var k :| k in s && s[k] == c;
      assert k in keys;
    }
  }

  // ----- non-empty allow list: the listed credentials, in the list's order -----

  /** The credential a descriptor selects, discoverable or not. */
  function Selected(d: Descriptor, s: Storage, rp: Text, owner: u32): (r: Option<StoredCredential>) {
    var k := KeyOf(d.id);
    if d.isPublicKey && k in s && s[k].ownerUid == owner && s[k].rpId == rp then Some(s[k]) else None
  }

  /** The answer for the first n descriptors. */
  function Listed(list: seq<Descriptor>, n: nat, s: Storage, rp: Text, owner: u32): (r: seq<StoredCredential>)
    requires n <= |list|
  {
    if n == 0 then [] else
    var front := Listed(list, n - 1, s, rp, owner);
    var c := Selected(list[n - 1], s, rp, owner);
    if c.Some? && c.value !in front then front + [c.value] else front
  }

  ghost predicate FirstSelectedBy(list: seq<Descriptor>, i: int, s: Storage, rp: Text, owner: u32, c: StoredCredential) {
    && 0 <= i < |list|
    && Selected(list[i], s, rp, owner) == Some(c)
    && forall j :: 0 <= j < i ==> Selected(list[j], s, rp, owner) != Some(c)
  }

  /** The answer contains what some descriptor selects and nothing else, without
      repetition, each at the place of the first descriptor that selects it. */
  lemma {:induction false} ListedProperty(list: seq<Descriptor>, n: nat, s: Storage, rp: Text, owner: u32)
    requires n <= |list|
    ensures var r := Listed(list, n, s, rp, owner);
      && (forall c :: c in r <==> exists i :: 0 <= i < n && Selected(list[i], s, rp, owner) == Some(c))
      && (forall i, j :: 0 <= i < j < |r| ==> r[i] != r[j])
      && (forall i, j, p, q ::
            (0 <= i < j < |r| && FirstSelectedBy(list, p, s, rp, owner, r[i])
             && FirstSelectedBy(list, q, s, rp, owner, r[j])) ==> p < q)
  {
    if n == 0 {
    } else {
      ListedProperty(list, n - 1, s, rp, owner);
      var front := Listed(list, n - 1, s, rp, owner);
      var r := Listed(list, n, s, rp, owner);
      forall i, j, p, q | 0 <= i < j < |r| && FirstSelectedBy(list, p, s, rp, owner, r[i])
          && FirstSelectedBy(list, q, s, rp, owner, r[j])
        ensures p < q
      {
        if j == |front| {
          assert r[i] in front;
          var i' :| 0 <= i' < n - 1 && Selected(list[i'], s, rp, owner) == Some(r[i]);
          assert p <= i';
          assert r[j] !in front;
          assert q >= n - 1;
        }
      }
    }
  }

  /** The allow-list branch, with its set of IDs already seen. */
  method CollectListed(list: seq<Descriptor>, s: Storage, rp: Text, owner: u32) returns (matches: seq<StoredCredential>)
    requires forall k :: k in s ==> WellKeyed(s, k)
    ensures matches == Listed(list, |list|, s, rp, owner)
  {
    hide Hex.Encode, ValidCredential;
    matches := [];
    var seen: set<Key> := {};
    for n := 0 to |list|
      invariant matches == Listed(list, n, s, rp, owner)
      invariant forall i :: 0 <= i < n && list[i].isPublicKey ==> KeyOf(list[i].id) in seen
      invariant forall k :: k in seen ==> exists i :: 0 <= i < n && list[i].isPublicKey && KeyOf(list[i].id) == k
    {
      var d := list[n];
      if d.isPublicKey {
        var k := KeyOf(d.id);
        if k !in seen {
          seen := seen + {k};
          if k in s && s[k].ownerUid == owner && s[k].rpId == rp {
            NotYetListed(list, n, s, rp, owner, k);
            matches := matches + [s[k]];
          }
        } else {
          AlreadyListed(list, n, s, rp, owner, k);
        }
      }
    }
  }

  lemma NotYetListed(list: seq<Descriptor>, n: nat, s: Storage, rp: Text, owner: u32, k: Key)
    requires n < |list| && k in s && forall l :: l in s ==> WellKeyed(s, l)
    requires forall i :: 0 <= i < n && list[i].isPublicKey ==> KeyOf(list[i].id) != k
    ensures s[k] !in Listed(list, n, s, rp, owner)
  {
    ListedProperty(list, n, s, rp, owner);
    forall i | 0 <= i < n ensures Selected(list[i], s, rp, owner) != Some(s[k]) {
      var l := KeyOf(list[i].id);
      assert WellKeyed(s, k) && (l in s ==> WellKeyed(s, l));
    }
  }

  lemma AlreadyListed(list: seq<Descriptor>, n: nat, s: Storage, rp: Text, owner: u32, k: Key)
    requires n < |list| && k == KeyOf(list[n].id)
    requires exists i :: 0 <= i < n && list[i].isPublicKey && KeyOf(list[i].id) == k
    ensures Selected(list[n], s, rp, owner).Some? ==>
      Selected(list[n], s, rp, owner).value in Listed(list, n, s, rp, owner)
  {
    ListedProperty(list, n, s, rp, owner);
    var i :| 0 <= i < n && list[i].isPublicKey && KeyOf(list[i].id) == k;
    if Selected(list[n], s, rp, owner).Some? {
      assert Selected(list[i], s, rp, owner) == Some(s[k]);
    }
  }

  /** Descriptor i is the first public-key one that names this ID. */
  ghost predicate FirstNamedBy(list: seq<Descriptor>, i: int, id: seq<byte>) {
    && 0 <= i < |list| && list[i].isPublicKey && list[i].id == id
    && forall j :: 0 <= j < i ==> !(list[j].isPublicKey && list[j].id == id)
  }

  /** A descriptor selects exactly the stored credential with its ID, if that is the
      owner's at this relying party, discoverable or not. */
  lemma SelectedIff(d: Descriptor, s: Storage, gen: u64, rp: Text, owner: u32, c: StoredCredential)
    requires StorageOk(s, gen)
    ensures Selected(d, s, rp, owner) == Some(c) <==>
      Current(c, s) && c.ownerUid == owner && c.rpId == rp && d.isPublicKey && d.id == c.id
  {
    hide StorageOk, KeyOf;
    FoundUnderId(s, gen, d.id);
  }

  /** With an allow list: a credential is found exactly if it is stored for that owner
      and relying party and a public-key descriptor names its ID. None is found twice,
      and they come in the order in which they are first named. */
  lemma ListedExactly(list: seq<Descriptor>, s: Storage, gen: u64, rp: Text, owner: u32)
    requires StorageOk(s, gen) && list != []
    ensures var r := Found(s, rp, list, owner);
      && (forall c :: c in r <==>
            && Current(c, s) && c.ownerUid == owner && c.rpId == rp
            && exists i :: 0 <= i < |list| && list[i].isPublicKey && list[i].id == c.id)
      && (forall i, j :: 0 <= i < j < |r| ==> r[i] != r[j])
      && (forall i, j, p, q ::
            0 <= i < j < |r| && FirstNamedBy(list, p, r[i].id) && FirstNamedBy(list, q, r[j].id) ==> p < q)
  {
    hide StorageOk, Selected, Current;
    ListedProperty(list, |list|, s, rp, owner);
    var r := Found(s, rp, list, owner);
    forall c, i | 0 <= i < |list| ensures Selected(list[i], s, rp, owner) == Some(c) <==>
      Current(c, s) && c.ownerUid == owner && c.rpId == rp && list[i].isPublicKey && list[i].id == c.id
    {
      SelectedIff(list[i], s, gen, rp, owner, c);
    }
    forall i, j, p, q |
        0 <= i < j < |r| && FirstNamedBy(list, p, r[i].id) && FirstNamedBy(list, q, r[j].id)
      ensures p < q
    {
      assert r[i] in r && r[j] in r;
      assert FirstSelectedBy(list, p, s, rp, owner, r[i]);
      assert FirstSelectedBy(list, q, s, rp, owner, r[j]);
    }
  }

  // ----- both branches -----

  /** The result of find_for_assertion on a map. */
  ghost function Found(s: Storage, rp: Text, allow: seq<Descriptor>, owner: u32): (r: seq<StoredCredential>) {
    if allow != [] then Listed(allow, |allow|, s, rp, owner)
    else if exists l :: NewestFirst(l, s, rp, owner) then
      var l :| NewestFirst(l, s, rp, owner);
      l
    else []
  }

  lemma {:induction false} MatchingKeys(s: Storage, left: set<Key>, rp: Text, owner: u32) returns (found: seq<StoredCredential>, keys: seq<Key>)
    requires left <= s.Keys
    ensures Collected(found, keys, s, rp, owner)
    ensures forall k :: k in keys <==> k in left && Matches(s[k], rp, owner)
    decreases left
  {
    hide Matches;
    found, keys := [], [];
    if left == {} {
    } else {
      var k :| k in left;
      found, keys := MatchingKeys(s, left - {k}, rp, owner);
      if Matches(s[k], rp, owner) {
        found, keys := found + [s[k]], keys + [k];
      }
    }
  }

  lemma FoundNewestFirst(s: Storage, gen: u64, rp: Text, owner: u32)
    requires StorageOk(s, gen)
    ensures NewestFirst(Found(s, rp, [], owner), s, rp, owner)
  {
    var found, keys := MatchingKeys(s, s.Keys, rp, owner);
    CollectedSorts(found, keys, s, gen, rp, owner);
  }

  /** Without an allow list: a credential is found exactly if it is stored for that
      owner and relying party and discoverable, and they come newest first. */
  lemma DiscoverableExactly(s: Storage, gen: u64, rp: Text, owner: u32)
    requires StorageOk(s, gen)
    ensures var r := Found(s, rp, [], owner);
      && (forall c :: c in r <==> Current(c, s) && c.ownerUid == owner && c.rpId == rp && c.discoverable)
      && (forall i, j :: 0 <= i < j < |r| ==> r[i].creationOrder > r[j].creationOrder)
  {
    hide KeyOf, ValidCredential, Found;
    FoundNewestFirst(s, gen, rp, owner);
    var r := Found(s, rp, [], owner);
    forall c ensures (exists k :: k in s && s[k] == c) <==> Current(c, s) {
      if k :| k in s && s[k] == c {
        assert WellKeyed(s, k);
      }
    }
  }

  /** Whatever the branch: the result holds current credentials of that owner and
      relying party, no two with the same ID. */
  lemma FoundCurrent(s: Storage, gen: u64, rp: Text, allow: seq<Descriptor>, owner: u32)
    requires StorageOk(s, gen)
    ensures var r := Found(s, rp, allow, owner);
      && (forall c :: c in r ==> Current(c, s) && c.ownerUid == owner && c.rpId == rp)
      && (forall i, j :: 0 <= i < j < |r| ==> KeyOf(r[i].id) != KeyOf(r[j].id))
  {
    hide KeyOf, ValidCredential;
    var r := Found(s, rp, allow, owner);
    if allow == [] {
      FoundNewestFirst(s, gen, rp, owner);
      forall c | c in r ensures Current(c, s) {
        assert Offered(c, s, rp, owner);
        var k :| k in s && s[k] == c;
        assert WellKeyed(s, k);
      }
    } else {
      ListedProperty(allow, |allow|, s, rp, owner);
      forall c | c in r ensures Current(c, s) && c.ownerUid == owner && c.rpId == rp {
        var i :| 0 <= i < |allow| && Selected(allow[i], s, rp, owner) == Some(c);
        assert WellKeyed(s, KeyOf(allow[i].id));
      }
    }
    forall i, j | 0 <= i < j < |r| ensures KeyOf(r[i].id) != KeyOf(r[j].id) {
      assert r[i] in r && r[j] in r;
      if allow == [] {
        assert Descending(r);
        assert r[i].creationOrder > r[j].creationOrder;
      } else {
        assert r == Listed(allow, |allow|, s, rp, owner);
        assert r[i] != r[j];
      }
    }
  }

  /** The credential is the one the map now holds under its ID. */
  predicate Current(c: StoredCredential, s: Storage) {
    KeyOf(c.id) in s && s[KeyOf(c.id)] == c
  }
}
