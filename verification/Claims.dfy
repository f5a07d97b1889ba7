// What each user of a request claims, and which peers the claims amount to when they are
// compatible. Everything here is stated on a map from email to claim, so it cannot
// depend on the order of the request.
module Claims {
  import Cidr

  type Prefix = Cidr.Prefix

  // A peer of the store. A public key is its canonical text, a prefix its canonical form.
  datatype Peer = Peer(email: string, key: string, allowedIPs: seq<Prefix>)

  // `occupied` counts in the duplicate check even when the user is quarantined (`survives` false).
  datatype Claim = Claim(peer: Peer, survives: bool)

  predicate ByEmail(m: map<string, Claim>) {
    forall e | e in m :: m[e].peer.email == e
  }

  predicate Occupied(m: map<string, Claim>, e: string, p: Prefix) {
    e in m && p in m[e].peer.allowedIPs
  }

  predicate Wants(m: map<string, Claim>, e: string, k: string) {
    e in m && m[e].survives && m[e].peer.key == k
  }

  ghost predicate PrefixClash(m: map<string, Claim>) {
    exists e, f, p :: Occupied(m, e, p) && Occupied(m, f, p) && e != f
  }

  ghost predicate KeyClash(m: map<string, Claim>) {
    exists e, f, k :: Wants(m, e, k) && Wants(m, f, k) && e != f
  }

  ghost predicate Clash(m: map<string, Claim>) { PrefixClash(m) || KeyClash(m) }

  // Two users that cannot both be served: they share a prefix, or both survive with the same key.
  ghost predicate Collide(m: map<string, Claim>, e: string, f: string) {
    && e in m && f in m && e != f
    && ((exists p :: p in m[e].peer.allowedIPs && p in m[f].peer.allowedIPs)
        || (m[e].survives && m[f].survives && m[e].peer.key == m[f].peer.key))
  }

  lemma ClashIff(m: map<string, Claim>)
    ensures Clash(m) <==> exists e, f :: Collide(m, e, f)
  {
    if e, f :| Collide(m, e, f) {
      if p :| p in m[e].peer.allowedIPs && p in m[f].peer.allowedIPs {
        assert Occupied(m, e, p) && Occupied(m, f, p);
      } else {
        assert Wants(m, e, m[e].peer.key) && Wants(m, f, m[e].peer.key);
      }
    }
    if PrefixClash(m) {
      var e, f, p :| Occupied(m, e, p) && Occupied(m, f, p) && e != f;
      assert Collide(m, e, f);
    }
    if KeyClash(m) {
      var e, f, k :| Wants(m, e, k) && Wants(m, f, k) && e != f;
      assert Collide(m, e, f);
    }
  }

  // One peer for every key that is wanted, and no other.
  ghost predicate IsDesired(m: map<string, Claim>, d: map<string, Peer>) {
    && (forall e, k :: Wants(m, e, k) ==> k in d && d[k] == m[e].peer)
    && (forall k | k in d :: exists e :: Wants(m, e, k))
  }

  lemma DesiredExists(m: map<string, Claim>)
    requires !KeyClash(m)
    ensures exists d :: IsDesired(m, d)
  {
    var d := map e | e in m && Wants(m, e, m[e].peer.key) :: m[e].peer.key := m[e].peer;
    assert IsDesired(m, d);
  }

  ghost function DesiredOf(m: map<string, Claim>): (d: map<string, Peer>)
    requires !KeyClash(m)
    ensures forall e, k :: Wants(m, e, k) ==> k in d && d[k] == m[e].peer
    ensures ByEmail(m) ==> forall k | k in d :: Wants(m, d[k].email, k)
    ensures IsDesired(m, d)
  {
    DesiredExists(m);
    var d :| IsDesired(m, d);
    d
  }

  predicate Holds(peers: map<string, Peer>, k: string, p: Prefix) {
    k in peers && p in peers[k].allowedIPs
  }

  // No prefix belongs to two peers.
  ghost predicate DisjointPrefixes(peers: map<string, Peer>) {
    forall j, k, p :: Holds(peers, j, p) && Holds(peers, k, p) ==> j == k
  }

  predicate HasEmail(peers: map<string, Peer>, k: string, e: string) {
    k in peers && peers[k].email == e
  }

  ghost predicate OneKeyPerEmail(peers: map<string, Peer>) {
    forall j, k, e :: HasEmail(peers, j, e) && HasEmail(peers, k, e) ==> j == k
  }

  // Peers keyed by their own key, one per email, each with a prefix.
  ghost predicate WellFormed(peers: map<string, Peer>) {
    (forall k | k in peers :: peers[k].key == k && peers[k].allowedIPs != []) && OneKeyPerEmail(peers)
  }

  lemma DesiredIsWellFormed(m: map<string, Claim>)
    requires ByEmail(m) && !Clash(m)
    requires forall e | e in m :: m[e].survives ==> m[e].peer.allowedIPs != []
    ensures WellFormed(DesiredOf(m)) && DisjointPrefixes(DesiredOf(m))
  {
    var d := DesiredOf(m);
    forall k | k in d ensures d[k] == m[d[k].email].peer { assert Wants(m, d[k].email, k); }
    forall j, k, p | Holds(d, j, p) && Holds(d, k, p) ensures j == k {
      assert Wants(m, d[j].email, j) && Wants(m, d[k].email, k);
      assert Occupied(m, d[j].email, p) && Occupied(m, d[k].email, p);
    }
    forall j, k, e | HasEmail(d, j, e) && HasEmail(d, k, e) ensures j == k {
      assert Wants(m, e, j) && Wants(m, e, k);
    }
  }

  // ---- visiting the users one by one ----

  // `seen` records, for the users visited so far, whose prefix is whose.
  ghost predicate SeenSoFar(done: map<string, Claim>, seen: map<Prefix, string>) {
    forall e, p :: Occupied(done, e, p) <==> p in seen && seen[p] == e
  }

  ghost predicate Progress(done: map<string, Claim>, seen: map<Prefix, string>, desired: map<string, Peer>) {
    ByEmail(done) && SeenSoFar(done, seen) && !KeyClash(done) && desired == DesiredOf(done)
  }

  function Mark(seen: map<Prefix, string>, ps: seq<Prefix>, email: string): map<Prefix, string> {
    seen + map p | p in ps :: email
  }

  lemma SeenMeansNoClash(done: map<string, Claim>, seen: map<Prefix, string>)
    requires SeenSoFar(done, seen)
    ensures !PrefixClash(done)
  {}

  lemma SeenOneMore(before: map<string, Claim>, c: Claim, seen: map<Prefix, string>)
    requires c.peer.email !in before && SeenSoFar(before, seen)
    requires forall p | p in c.peer.allowedIPs :: p in seen ==> seen[p] == c.peer.email
    ensures SeenSoFar(before[c.peer.email := c], Mark(seen, c.peer.allowedIPs, c.peer.email))
  {
    var more, marked := before[c.peer.email := c], Mark(seen, c.peer.allowedIPs, c.peer.email);
    forall e, p ensures Occupied(more, e, p) <==> p in marked && marked[p] == e {
      assert Occupied(more, e, p) <==> Occupied(before, e, p) || (e == c.peer.email && p in c.peer.allowedIPs);
    }
  }

  lemma ProgressQuarantined(before: map<string, Claim>, c: Claim, seen: map<Prefix, string>, desired: map<string, Peer>)
    requires c.peer.email !in before && Progress(before, seen, desired) && !c.survives
    requires forall p | p in c.peer.allowedIPs :: p in seen ==> seen[p] == c.peer.email
    ensures Progress(before[c.peer.email := c], Mark(seen, c.peer.allowedIPs, c.peer.email), desired)
  {
    SeenOneMore(before, c, seen);
    var more := before[c.peer.email := c];
    NoNewWants(before, c);
    SameWants(before, more);
  }

  lemma NoNewWants(before: map<string, Claim>, c: Claim)
    requires c.peer.email !in before && !c.survives && !KeyClash(before)
    ensures forall e, k :: Wants(before[c.peer.email := c], e, k) <==> Wants(before, e, k)
    ensures !KeyClash(before[c.peer.email := c])
  {
    var more := before[c.peer.email := c];
    forall e, k ensures Wants(more, e, k) <==> Wants(before, e, k) {}
    assert forall e, f, k | Wants(more, e, k) && Wants(more, f, k) :: Wants(before, e, k) && Wants(before, f, k);
  }

  lemma SameWants(m: map<string, Claim>, n: map<string, Claim>)
    requires ByEmail(m) && ByEmail(n) && !KeyClash(m) && !KeyClash(n)
    requires forall e, k :: Wants(m, e, k) <==> Wants(n, e, k)
    requires forall e | e in m && e in n :: m[e] == n[e]
    ensures DesiredOf(m) == DesiredOf(n)
  {
    var a, b := DesiredOf(m), DesiredOf(n);
    forall k | k in a ensures k in b && a[k] == b[k] { assert Wants(m, a[k].email, k); }
    forall k | k in b ensures k in a { assert Wants(n, b[k].email, k); }
  }

  lemma WantsOneMore(before: map<string, Claim>, c: Claim)
    requires c.peer.email !in before && c.survives && !KeyClash(before)
    requires forall e :: !Wants(before, e, c.peer.key)
    ensures forall e, k :: Wants(before[c.peer.email := c], e, k) <==>
              Wants(before, e, k) || (e == c.peer.email && k == c.peer.key)
    ensures !KeyClash(before[c.peer.email := c])
  {
    var more, email, key := before[c.peer.email := c], c.peer.email, c.peer.key;
    forall e, k ensures Wants(more, e, k) <==> Wants(before, e, k) || (e == email && k == key) {}
    forall e, f, k | Wants(more, e, k) && Wants(more, f, k) ensures e == f {
      if k == key {
        assert !Wants(before, e, key) && !Wants(before, f, key);
      } else {
        assert Wants(before, e, k) && Wants(before, f, k);
      }
    }
  }

  lemma DesiredOneMore(before: map<string, Claim>, c: Claim)
    requires ByEmail(before) && c.peer.email !in before && c.survives && !KeyClash(before)
    requires c.peer.key !in DesiredOf(before)
    ensures !KeyClash(before[c.peer.email := c])
    ensures DesiredOf(before[c.peer.email := c]) == DesiredOf(before)[c.peer.key := c.peer]
  {
    assert forall e :: !Wants(before, e, c.peer.key);
    WantsOneMore(before, c);
    var more := before[c.peer.email := c];
    var a, b := DesiredOf(before), DesiredOf(more);
    assert Wants(more, c.peer.email, c.peer.key);
    forall k | k in a ensures k in b && a[k] == b[k] {
      var e := a[k].email;
      assert Wants(before, e, k) && Wants(more, e, k);
    }
    forall k | k in b ensures k in a || k == c.peer.key { assert Wants(more, b[k].email, k); }
  }

  lemma ProgressSurvivor(before: map<string, Claim>, c: Claim, seen: map<Prefix, string>, desired: map<string, Peer>)
    requires c.peer.email !in before && Progress(before, seen, desired) && c.survives
    requires forall p | p in c.peer.allowedIPs :: p in seen ==> seen[p] == c.peer.email
    requires c.peer.key !in desired
    ensures Progress(before[c.peer.email := c], Mark(seen, c.peer.allowedIPs, c.peer.email),
                     desired[c.peer.key := c.peer])
  {
    SeenOneMore(before, c, seen);
    DesiredOneMore(before, c);
  }

  lemma WantedByVisited(before: map<string, Claim>, seen: map<Prefix, string>, desired: map<string, Peer>, k: string)
    requires Progress(before, seen, desired) && k in desired
    ensures desired[k].email in before
  {
    assert Wants(before, desired[k].email, k);
  }

  lemma PrefixClashFound(before: map<string, Claim>, c: Claim, seen: map<Prefix, string>)
    requires c.peer.email !in before && SeenSoFar(before, seen)
    requires exists p | p in c.peer.allowedIPs :: p in seen && seen[p] != c.peer.email
    ensures PrefixClash(before[c.peer.email := c])
  {
    var p :| p in c.peer.allowedIPs && p in seen && seen[p] != c.peer.email;
    var more := before[c.peer.email := c];
    assert Occupied(before, seen[p], p);
    assert Occupied(more, seen[p], p) && Occupied(more, c.peer.email, p);
  }

  lemma KeyClashFound(before: map<string, Claim>, c: Claim)
    requires ByEmail(before) && c.peer.email !in before && c.survives && !KeyClash(before)
    requires c.peer.key in DesiredOf(before)
    ensures KeyClash(before[c.peer.email := c])
  {
    var more, e := before[c.peer.email := c], DesiredOf(before)[c.peer.key].email;
    assert Wants(before, e, c.peer.key);
    assert Wants(more, e, c.peer.key) && Wants(more, c.peer.email, c.peer.key);
  }

  predicate Contested(seen: map<Prefix, string>, ps: seq<Prefix>, email: string) {
    exists p | p in ps :: p in seen && seen[p] != email
  }

  // What a visit must answer, case by case.
  lemma VisitCases(before: map<string, Claim>, c: Claim, seen: map<Prefix, string>, desired: map<string, Peer>)
    requires c.peer.email !in before && Progress(before, seen, desired)
    ensures Contested(seen, c.peer.allowedIPs, c.peer.email) ==> Clash(before[c.peer.email := c])
    ensures c.survives && c.peer.key in desired ==>
            Clash(before[c.peer.email := c]) && desired[c.peer.key].email != c.peer.email
    ensures !Contested(seen, c.peer.allowedIPs, c.peer.email) && !c.survives ==>
              Progress(before[c.peer.email := c], Mark(seen, c.peer.allowedIPs, c.peer.email), desired)
    ensures !Contested(seen, c.peer.allowedIPs, c.peer.email) && c.survives && c.peer.key !in desired ==>
              Progress(before[c.peer.email := c], Mark(seen, c.peer.allowedIPs, c.peer.email),
                       desired[c.peer.key := c.peer])
  {
    if c.survives && c.peer.key in desired {
      WantedByVisited(before, seen, desired, c.peer.key);
      KeyClashFound(before, c);
    }
    if Contested(seen, c.peer.allowedIPs, c.peer.email) {
      PrefixClashFound(before, c, seen);
    } else if !c.survives {
      ProgressQuarantined(before, c, seen, desired);
    } else if c.peer.key !in desired {
      ProgressSurvivor(before, c, seen, desired);
    }
  }

  // A clash among some of the users is a clash of all of them.
  lemma ClashGrows(some: map<string, Claim>, all: map<string, Claim>)
    requires Clash(some) && forall e | e in some :: e in all && all[e] == some[e]
    ensures Clash(all)
  {
    forall e, p ensures Occupied(some, e, p) ==> Occupied(all, e, p) {}
    forall e, k ensures Wants(some, e, k) ==> Wants(all, e, k) {}
  }
}
