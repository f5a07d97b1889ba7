// The runtime index of peers, by public key and by email
// (node-main/backend/wireguard/peer_store.go).
module PeerStores {
  import opened Prelude
  import opened Claims

  datatype Index = Index(peers: map<string, Peer>, emailToKey: map<string, string>)

  function PeerKey(p: Peer): string { p.key }

  function PeerEmail(p: Peer): string { p.email }

  // Emails and keys are in bijection, and the two maps say so consistently.
  ghost predicate Bijective(ix: Index) {
    && (forall k | k in ix.peers ::
         ix.peers[k].key == k && ix.peers[k].email in ix.emailToKey && ix.emailToKey[ix.peers[k].email] == k)
    && (forall e | e in ix.emailToKey :: ix.emailToKey[e] in ix.peers && ix.peers[ix.emailToKey[e]].email == e)
  }

  ghost function KeyByEmail(peers: map<string, Peer>): map<string, string>
    requires OneKeyPerEmail(peers)
  {
    map k | k in peers && HasEmail(peers, k, peers[k].email) :: peers[k].email := k
  }

  // The bijection leaves one choice for the second map.
  lemma BijectiveDetermined(ix: Index)
    requires Bijective(ix)
    ensures OneKeyPerEmail(ix.peers) && ix.emailToKey == KeyByEmail(ix.peers)
  {
    assert forall k | k in ix.peers :: HasEmail(ix.peers, k, ix.peers[k].email);
  }

  lemma IndexOfWellFormed(peers: map<string, Peer>)
    requires WellFormed(peers)
    ensures Bijective(Index(peers, KeyByEmail(peers)))
  {
    var e2k := KeyByEmail(peers);
    forall k | k in peers ensures peers[k].email in e2k && e2k[peers[k].email] == k {
      assert HasEmail(peers, k, peers[k].email);
    }
  }

  // ---- the effect of the mutating operations ----

  function RemoveKey(ix: Index, key: string): Index {
    if key in ix.peers then Index(ix.peers - {key}, ix.emailToKey - {ix.peers[key].email}) else ix
  }

  function RemoveKeys(ix: Index, keys: seq<string>): Index {
    if keys == [] then ix else RemoveKey(RemoveKeys(ix, keys[..|keys| - 1]), keys[|keys| - 1])
  }

  function Upsert(ix: Index, p: Peer): Index {
    var kept := if p.email in ix.emailToKey && ix.emailToKey[p.email] != p.key
                then ix.peers - {ix.emailToKey[p.email]} else ix.peers;
    var emails := if p.key in kept && kept[p.key].email != p.email
                  then ix.emailToKey - {kept[p.key].email} else ix.emailToKey;
    Index(kept[p.key := p], emails[p.email := p.key])
  }

  function UpsertAll(ix: Index, ps: seq<Peer>): Index {
    if ps == [] then ix else Upsert(UpsertAll(ix, ps[..|ps| - 1]), ps[|ps| - 1])
  }

  lemma RemoveKeyBijective(ix: Index, key: string)
    requires Bijective(ix)
    ensures Bijective(RemoveKey(ix, key))
    ensures RemoveKey(ix, key).peers == ix.peers - {key}
  {}

  lemma UpsertBijective(ix: Index, p: Peer)
    requires Bijective(ix)
    ensures Bijective(Upsert(ix, p))
    ensures Upsert(ix, p).peers == WithoutEmail(ix.peers, p.email)[p.key := p]
  {}

  // ApplyChanges keeps the bijection for arbitrary removal and upsert lists,
  // with repeated, unknown or conflicting entries.
  lemma {:induction false} ChangesBijective(ix: Index, keys: seq<string>, ps: seq<Peer>)
    requires Bijective(ix)
    ensures Bijective(UpsertAll(RemoveKeys(ix, keys), ps))
    ensures RemoveKeys(ix, keys).peers == ix.peers - Elems(keys)
    decreases |keys| + |ps|
  {
    if ps != [] {
      var n := |ps| - 1;
      ChangesBijective(ix, keys, ps[..n]);
      UpsertBijective(UpsertAll(RemoveKeys(ix, keys), ps[..n]), ps[n]);
    } else if keys != [] {
      var n := |keys| - 1;
      ChangesBijective(ix, keys[..n], []);
      RemoveKeyBijective(RemoveKeys(ix, keys[..n]), keys[n]);
      ElemsPrefix(keys, n);
      assert keys[..n+1] == keys;
    }
  }

  // Upserts of distinct users and distinct keys: exactly those peers, and of the others the
  // ones whose email and key are not among them.
  lemma {:induction false} UpsertAllPeers(ix: Index, ps: seq<Peer>)
    requires Bijective(ix) && DistinctBy(ps, PeerKey) && DistinctBy(ps, PeerEmail)
    ensures Bijective(UpsertAll(ix, ps))
    ensures UpsertAll(ix, ps).peers == Others(ix.peers, ps) + IndexBy(ps, PeerKey)
  {
    if ps == [] {
      assert Others(ix.peers, ps) + IndexBy(ps, PeerKey) == ix.peers;
    } else {
      var n := |ps| - 1;
      IndexByPrefix(ps, n, PeerKey);
      assert ps[..n+1] == ps && DistinctBy(ps[..n], PeerEmail);
      UpsertAllPeers(ix, ps[..n]);
      UpsertBijective(UpsertAll(ix, ps[..n]), ps[n]);
      EmailsDiffer(ps, n);
      WithoutEmailSum(Others(ix.peers, ps[..n]), IndexBy(ps[..n], PeerKey), ps[n].email, ps[n]);
      OthersOneMore(ix.peers, ps, n);
    }
  }

  lemma EmailsDiffer(ps: seq<Peer>, n: nat)
    requires n < |ps| && DistinctBy(ps, PeerEmail) && DistinctBy(ps[..n], PeerKey)
    ensures forall k | k in IndexBy(ps[..n], PeerKey) :: IndexBy(ps[..n], PeerKey)[k].email != ps[n].email
  {
    IndexByElements(ps[..n], PeerKey);
    forall i | 0 <= i < n ensures ps[i].email != ps[n].email { assert PeerEmail(ps[i]) != PeerEmail(ps[n]); }
    forall p | p in ps[..n] ensures p.email != ps[n].email {}
  }

  function WithoutEmail(peers: map<string, Peer>, e: string): map<string, Peer> {
    peers - set k | k in peers && peers[k].email == e
  }

  // The peers whose user is not among the upserts.
  function Others(peers: map<string, Peer>, ps: seq<Peer>): map<string, Peer> {
    peers - set k | k in peers && exists p | p in ps :: p.email == peers[k].email
  }

  lemma OthersOneMore(peers: map<string, Peer>, ps: seq<Peer>, n: nat)
    requires n + 1 == |ps|
    ensures Others(peers, ps) == WithoutEmail(Others(peers, ps[..n]), ps[n].email)
  {
    assert ps == ps[..n] + [ps[n]];
  }

  lemma WithoutEmailSum(a: map<string, Peer>, b: map<string, Peer>, e: string, q: Peer)
    requires forall k | k in b :: b[k].email != e
    ensures WithoutEmail(a + b, e)[q.key := q] == WithoutEmail(a, e) + b[q.key := q]
  {}

  // ---- loading a list ----

  const NOTHING := Index(map[], map[])

  function Insert(ix: Index, p: Peer): Index {
    Index(ix.peers[p.key := p], ix.emailToKey[p.email := p.key])
  }

  function InsertAll(ix: Index, ps: seq<Peer>): Index {
    if ps == [] then ix else Insert(InsertAll(ix, ps[..|ps| - 1]), ps[|ps| - 1])
  }

  predicate LastOfKey(ps: seq<Peer>, i: int) {
    0 <= i < |ps| && forall j | i < j < |ps| :: ps[j].key != ps[i].key
  }

  predicate LastOfEmail(ps: seq<Peer>, i: int) {
    0 <= i < |ps| && forall j | i < j < |ps| :: ps[j].email != ps[i].email
  }

  lemma LastInFront(ps: seq<Peer>, i: nat)
    requires i < |ps| - 1
    ensures LastOfKey(ps, i) <==> LastOfKey(ps[..|ps| - 1], i) && ps[|ps| - 1].key != ps[i].key
    ensures LastOfEmail(ps, i) <==> LastOfEmail(ps[..|ps| - 1], i) && ps[|ps| - 1].email != ps[i].email
  {
    var front := ps[..|ps| - 1];
    assert forall j | 0 <= j < |front| :: front[j] == ps[j];
  }

  // Whatever the list, the last entry of a key is its peer, and the last entry of an email gives its key.
  lemma {:induction false} InsertedLast(ps: seq<Peer>, i: nat)
    ensures LastOfKey(ps, i) ==>
            ps[i].key in InsertAll(NOTHING, ps).peers && InsertAll(NOTHING, ps).peers[ps[i].key] == ps[i]
    ensures LastOfEmail(ps, i) ==>
              ps[i].email in InsertAll(NOTHING, ps).emailToKey
                && InsertAll(NOTHING, ps).emailToKey[ps[i].email] == ps[i].key
  {
    if i < |ps| - 1 {
      LastInFront(ps, i);
      InsertedLast(ps[..|ps| - 1], i);
    }
  }

  // Every key in the first map comes from the last entry of that key,
  lemma {:induction false} KeyInserted(ps: seq<Peer>, k: string) returns (i: nat)
    requires k in InsertAll(NOTHING, ps).peers
    ensures LastOfKey(ps, i) && ps[i].key == k
  {
    if k == ps[|ps| - 1].key {
      i := |ps| - 1;
    } else {
      i := KeyInserted(ps[..|ps| - 1], k);
      LastInFront(ps, i);
    }
  }

  // and every email in the second from the last entry of that email.
  lemma {:induction false} EmailInserted(ps: seq<Peer>, e: string) returns (i: nat)
    requires e in InsertAll(NOTHING, ps).emailToKey
    ensures LastOfEmail(ps, i) && ps[i].email == e
  {
    if e == ps[|ps| - 1].email {
      i := |ps| - 1;
    } else {
      i := EmailInserted(ps[..|ps| - 1], e);
      LastInFront(ps, i);
    }
  }

  lemma {:induction false} EntriesInserted(ps: seq<Peer>, i: nat)
    requires i < |ps|
    ensures ps[i].key in InsertAll(NOTHING, ps).peers && ps[i].email in InsertAll(NOTHING, ps).emailToKey
  {
    if i < |ps| - 1 { EntriesInserted(ps[..|ps| - 1], i); }
  }

  ghost predicate LastAlike(ps: seq<Peer>) {
    forall i :: LastOfKey(ps, i) <==> LastOfEmail(ps, i)
  }

  // A list loaded into the empty store gives a bijection if and only if its entries are the last of
  // their key exactly when they are the last of their email.
  lemma LoadedBijectiveIff(ps: seq<Peer>)
    ensures Bijective(InsertAll(NOTHING, ps)) <==> LastAlike(ps)
  {
    var ix := InsertAll(NOTHING, ps);
    if Bijective(ix) {
      forall i ensures LastOfKey(ps, i) <==> LastOfEmail(ps, i) {
        if 0 <= i < |ps| { BijectiveLast(ps, i); }
      }
    }
    if LastAlike(ps) {
      forall k | k in ix.peers ensures KeySound(ix, k) { LastKeyed(ps, k); }
      forall e | e in ix.emailToKey ensures EmailSound(ix, e) { LastMailed(ps, e); }
    }
  }

  predicate KeySound(ix: Index, k: string)
    requires k in ix.peers
  {
    ix.peers[k].key == k && ix.peers[k].email in ix.emailToKey && ix.emailToKey[ix.peers[k].email] == k
  }

  predicate EmailSound(ix: Index, e: string)
    requires e in ix.emailToKey
  {
    ix.emailToKey[e] in ix.peers && ix.peers[ix.emailToKey[e]].email == e
  }

  lemma BijectiveLast(ps: seq<Peer>, i: nat)
    requires i < |ps| && Bijective(InsertAll(NOTHING, ps))
    ensures LastOfKey(ps, i) <==> LastOfEmail(ps, i)
  {
    EntriesInserted(ps, i);
    InsertedLast(ps, i);
    var j := EmailInserted(ps, ps[i].email);
    var k := KeyInserted(ps, ps[i].key);
    InsertedLast(ps, j);
    InsertedLast(ps, k);
    SameEntry(ps, i, j, k);
  }

  // j is the last entry of the email of i, k the last of its key.
  lemma SameEntry(ps: seq<Peer>, i: nat, j: nat, k: nat)
    requires i < |ps| && LastOfEmail(ps, j) && ps[j].email == ps[i].email && LastOfKey(ps, k) && ps[k].key == ps[i].key
    requires LastOfKey(ps, i) ==> ps[j].key == ps[i].key
    requires LastOfEmail(ps, i) ==> ps[k].email == ps[i].email
    ensures LastOfKey(ps, i) <==> LastOfEmail(ps, i)
  {}

  lemma LastKeyed(ps: seq<Peer>, k: string)
    requires LastAlike(ps) && k in InsertAll(NOTHING, ps).peers
    ensures KeySound(InsertAll(NOTHING, ps), k)
  {
    var i := KeyInserted(ps, k);
    InsertedLast(ps, i);
  }

  lemma LastMailed(ps: seq<Peer>, e: string)
    requires LastAlike(ps) && e in InsertAll(NOTHING, ps).emailToKey
    ensures EmailSound(InsertAll(NOTHING, ps), e)
  {
    var i := EmailInserted(ps, e);
    InsertedLast(ps, i);
  }

  // In particular, distinct keys and emails give the peers by key and their email map.
  lemma {:induction false} InsertDistinct(ps: seq<Peer>, n: nat)
    requires DistinctBy(ps, PeerKey) && OneKeyPerEmail(IndexBy(ps, PeerKey)) && n <= |ps|
    ensures DistinctBy(ps[..n], PeerKey) && OneKeyPerEmail(IndexBy(ps[..n], PeerKey))
    ensures InsertAll(NOTHING, ps[..n]) == Index(IndexBy(ps[..n], PeerKey), KeyByEmail(IndexBy(ps[..n], PeerKey)))
  {
    IndexByPart(ps, n, PeerKey);
    if n > 0 {
      InsertDistinct(ps, n - 1);
      IndexByPrefix(ps, n - 1, PeerKey);
      KeyByEmailOneMore(IndexBy(ps[..n-1], PeerKey), ps[n - 1], IndexBy(ps, PeerKey));
      assert ps[..n][..n-1] == ps[..n-1];
    }
  }

  lemma LoadedDistinct(ps: seq<Peer>)
    requires DistinctBy(ps, PeerKey) && OneKeyPerEmail(IndexBy(ps, PeerKey))
    ensures InsertAll(NOTHING, ps) == Index(IndexBy(ps, PeerKey), KeyByEmail(IndexBy(ps, PeerKey)))
  {
    InsertDistinct(ps, |ps|);
    assert ps[..|ps|] == ps;
  }

  // ---- the store itself ----

  // The insertion loop that Init and ReplaceAll share.
  method InsertEach(peers0: map<string, Peer>, emailToKey0: map<string, string>, ps: seq<Peer>)
      returns (peers: map<string, Peer>, emailToKey: map<string, string>)
    ensures Index(peers, emailToKey) == InsertAll(Index(peers0, emailToKey0), ps)
  {
    peers, emailToKey := peers0, emailToKey0;
    for i := 0 to |ps|
      invariant Index(peers, emailToKey) == InsertAll(Index(peers0, emailToKey0), ps[..i])
    {
      assert ps[..i+1][..i] == ps[..i];
      peers := peers[ps[i].key := ps[i]];
      emailToKey := emailToKey[ps[i].email := ps[i].key];
    }
    assert ps[..|ps|] == ps;
  }

  class PeerStore {
    var peers: map<string, Peer>
    var emailToKey: map<string, string>

    ghost function Contents(): Index
      reads this
    {
      Index(peers, emailToKey)
    }

    constructor ()
      ensures Contents() == NOTHING
    {
      peers, emailToKey := map[], map[];
    }

    method Init(ps: seq<Peer>)
      modifies this
      ensures Contents() == InsertAll(old(Contents()), ps)
    {
      peers, emailToKey := InsertEach(peers, emailToKey, ps);
    }

    // Returns the keys that were in the store and have been removed by the first list.
    method ApplyChanges(removeKeys: seq<string>, upsertPeers: seq<Peer>) returns (removed: seq<string>)
      modifies this
      ensures Contents() == UpsertAll(RemoveKeys(old(Contents()), removeKeys), upsertPeers)
      ensures Listing(removed, Elems(removeKeys) * old(peers).Keys)
    {
      removed := [];
      ghost var before := Contents();
      for i := 0 to |removeKeys|
        invariant Contents() == RemoveKeys(before, removeKeys[..i])
        invariant Listing(removed, Elems(removeKeys[..i]) * before.peers.Keys)
        invariant peers.Keys == before.peers.Keys - Elems(removeKeys[..i])
      {
        var key := removeKeys[i];
        ElemsPrefix(removeKeys, i);
        assert removeKeys[..i+1][..i] == removeKeys[..i];
        ghost var gone := Elems(removeKeys[..i]) * before.peers.Keys;
        if key in peers {
          ListingAppend(removed, gone, key);
          assert gone + {key} == Elems(removeKeys[..i+1]) * before.peers.Keys;
          var peer := peers[key];
          emailToKey := emailToKey - {peer.email};
          peers := peers - {key};
          removed := removed + [key];
        } else {
          assert gone == Elems(removeKeys[..i+1]) * before.peers.Keys;
        }
      }
      assert removeKeys[..|removeKeys|] == removeKeys;
      ghost var middle := Contents();
      for i := 0 to |upsertPeers|
        invariant Contents() == UpsertAll(middle, upsertPeers[..i])
      {
        var peer := upsertPeers[i];
        assert upsertPeers[..i+1][..i] == upsertPeers[..i];
        if peer.email in emailToKey && emailToKey[peer.email] != peer.key {
          peers := peers - {emailToKey[peer.email]};
        }
        if peer.key in peers && peers[peer.key].email != peer.email {
          emailToKey := emailToKey - {peers[peer.key].email};
        }
        peers := peers[peer.key := peer];
        emailToKey := emailToKey[peer.email := peer.key];
      }
      assert upsertPeers[..|upsertPeers|] == upsertPeers;
    }

    // Returns the keys the new contents no longer have.
    method ReplaceAll(ps: seq<Peer>) returns (removed: seq<string>)
      modifies this
      ensures Contents() == InsertAll(NOTHING, ps)
      ensures Listing(removed, old(peers).Keys - peers.Keys)
    {
      var newPeers, newEmailToKey := InsertEach(map[], map[], ps);
      var order := AnyOrder(peers.Keys);
      removed := [];
      for i := 0 to |order|
        invariant Listing(removed, Elems(order[..i]) - newPeers.Keys)
      {
        ElemsPrefix(order, i);
        ghost var gone := Elems(order[..i]) - newPeers.Keys;
        if order[i] !in newPeers {
          ListingAppend(removed, gone, order[i]);
          assert gone + {order[i]} == Elems(order[..i+1]) - newPeers.Keys;
          removed := removed + [order[i]];
        } else {
          assert gone == Elems(order[..i+1]) - newPeers.Keys;
        }
      }
      assert order[..|order|] == order;
      peers, emailToKey := newPeers, newEmailToKey;
    }

    // Lookup through the email index finds what a scan over all peers would find.
    method GetByEmail(email: string) returns (peer: Option<Peer>)
      requires Bijective(Contents())
      ensures peer.None? ==> forall k | k in peers :: peers[k].email != email
      ensures peer.Some? ==> peer.value.key in peers && peers[peer.value.key] == peer.value && peer.value.email == email
    {
      if email in emailToKey { return Some(peers[emailToKey[email]]); }
      return None;
    }

    // Every stored peer once, listed in the ghost order of the keys.
    method GetAll() returns (ps: seq<Peer>, ghost order: seq<string>)
      ensures Listing(order, peers.Keys)
      ensures |ps| == |order| && forall i | 0 <= i < |order| :: ps[i] == peers[order[i]]
      ensures (forall k | k in peers :: peers[k] in ps)
              && (forall p | p in ps :: exists k | k in peers :: p == peers[k])
    {
      var keys := AnyOrder(peers.Keys);
      ps := [];
      for i := 0 to |keys|
        invariant |ps| == i && forall j | 0 <= j < i :: ps[j] == peers[keys[j]]
      {
        ElemsPrefix(keys, i);
        ps := ps + [peers[keys[i]]];
      }
      order := keys;
      forall k | k in peers ensures peers[k] in ps {
        assert k in Elems(keys);
        var i :| 0 <= i < |keys| && keys[i] == k;
        assert ps[i] in ps;
      }
      forall p | p in ps ensures exists k | k in peers :: p == peers[k] {
        var i :| 0 <= i < |ps| && ps[i] == p;
        assert keys[i] in Elems(keys);
      }
    }

    method GetEmailMap() returns (snapshot: map<string, string>)
      ensures snapshot == map k | k in peers :: peers[k].email
    {
      var order := AnyOrder(peers.Keys);
      snapshot := map[];
      for i := 0 to |order|
        invariant snapshot == map k | k in peers && k in Elems(order[..i]) :: peers[k].email
      {
        ElemsPrefix(order, i);
        snapshot := snapshot[order[i] := peers[order[i]].email];
      }
      assert order[..|order|] == order;
    }
  }

  lemma KeyByEmailOneMore(some: map<string, Peer>, p: Peer, all: map<string, Peer>)
    requires OneKeyPerEmail(all) && p.key !in some
    requires forall k | k in some[p.key := p] :: k in all && all[k] == some[p.key := p][k]
    ensures OneKeyPerEmail(some) && OneKeyPerEmail(some[p.key := p])
    ensures KeyByEmail(some[p.key := p]) == KeyByEmail(some)[p.email := p.key]
  {
    var more := some[p.key := p];
    forall k, e ensures HasEmail(more, k, e) ==> HasEmail(all, k, e) {}
    forall k, e ensures HasEmail(some, k, e) ==> HasEmail(more, k, e) {}
    assert HasEmail(more, p.key, p.email);
    assert forall k | k in some :: HasEmail(more, k, some[k].email) && HasEmail(some, k, some[k].email);
  }
}
