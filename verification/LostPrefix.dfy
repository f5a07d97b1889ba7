// Why the agreement theorem needs its condition: a run of accepted requests after which a stored
// prefix is routed to nobody and a full synchronisation does not repair it
// (node-main/backend/wireguard/user_partial_sync.go, user_full_sync.go).
module LostPrefix {
  import opened Claims
  import opened KernelDevice
  import opened SyncDiffs
  import opened Reconcile

  function Solo(p: Peer, survives: bool): map<string, Claim> { map[p.email := Claim(p, survives)] }

  function Upto(p: Peer, survives: bool): map<string, Peer> { if survives then map[p.key := p] else map[] }

  lemma SoloDesired(validKey: string -> bool, p: Peer, survives: bool)
    requires survives ==> p.allowedIPs != [] && validKey(p.key)
    ensures Proper(validKey, Solo(p, survives)) && !Clash(Solo(p, survives))
    ensures DesiredOf(Solo(p, survives)) == Upto(p, survives)
  {
    var d := DesiredOf(Solo(p, survives));
    if survives { assert Wants(Solo(p, survives), p.email, p.key); }
    assert forall k | k in d :: Wants(Solo(p, survives), d[k].email, k);
  }

  // A request for one user that is accepted, with its effect on the routing of a prefix.
  lemma SoloSync(validKey: string -> bool, w: World, p: Peer, survives: bool)
    requires Good(validKey, w) && w.running && (survives ==> p.allowedIPs != [] && validKey(p.key))
    requires p.key in w.index.peers ==> w.index.peers[p.key].email == p.email
    ensures Proper(validKey, Solo(p, survives))
    ensures PartialSync(validKey, w, Solo(p, survives), true).1 == Success
    ensures Good(validKey, PartialSync(validKey, w, Solo(p, survives), true).0)
    ensures Joinable(validKey, w.index.peers, Upto(p, survives), {p.email})
    ensures PartialSync(validKey, w, Solo(p, survives), true).0 ==
            PartialCommit(validKey, w, Upto(p, survives), {p.email})
  {
    SoloDesired(validKey, p, survives);
    assert Solo(p, survives).Keys == {p.email};
    PartialKeepsGood(validKey, w, Solo(p, survives), true);
    PartialSucceeded(validKey, w, Solo(p, survives), true);
  }

  lemma JoinedPair(u: Peer, x: Peer)
    requires u.email != x.email && u.key != x.key
    ensures Joined(map[u.key := u], map[x.key := x], {x.email}) == map[u.key := u, x.key := x]
    ensures Joined(map[u.key := u, x.key := x], map[], {x.email}) == map[u.key := u]
    ensures Touched(map[u.key := u, x.key := x], {x.email}) == map[x.key := x]
  {}

  lemma AddedRoutes(validKey: string -> bool, d: Device, existing: map<string, Peer>, desired: map<string, Peer>,
                    k: string, p: Prefix)
    requires DisjointPrefixes(desired) && Holds(desired, k, p) && Added(existing, desired, k)
    ensures Exclusive(PlanFor(validKey, existing, desired))
    ensures var owner := Settle(d, PlanFor(validKey, existing, desired)).owner; p in owner && owner[p] == k
  {
    PlanExclusive(validKey, existing, desired);
    SettledOwner(d, PlanFor(validKey, existing, desired), k, p);
    PlanGives(validKey, existing, desired, k, p);
  }

  lemma StealRoutes(validKey: string -> bool, w: World, x: Peer, net: Prefix)
    requires x.allowedIPs == [net] && Joinable(validKey, w.index.peers, map[x.key := x], {x.email})
    requires x.key !in w.index.peers
    ensures var owner := PartialCommit(validKey, w, map[x.key := x], {x.email}).device.owner;
            net in owner && owner[net] == x.key
  {
    var existing, desired := Touched(w.index.peers, {x.email}), map[x.key := x];
    assert Holds(desired, x.key, net) && Added(existing, desired, x.key);
    AddedRoutes(validKey, w.device, existing, desired, x.key, net);
  }

  lemma DropRoutes(validKey: string -> bool, w: World, x: Peer, net: Prefix)
    requires Good(validKey, w) && Touched(w.index.peers, {x.email}) == map[x.key := x]
    requires net in w.device.owner && w.device.owner[net] == x.key
    requires Joinable(validKey, w.index.peers, map[], {x.email})
    ensures net !in PartialCommit(validKey, w, map[], {x.email}).device.owner
  {
    var existing: map<string, Peer>, desired: map<string, Peer> := map[x.key := x], map[];
    var owner := PartialCommit(validKey, w, desired, {x.email}).device.owner;
    if net in owner {
      PlanExclusive(validKey, existing, desired);
      SettledOwner(w.device, PlanFor(validKey, existing, desired), owner[net], net);
      PlanGives(validKey, existing, desired, owner[net], net);
      assert Dropped(validKey, existing, desired, x.key);
    }
  }

  // A run of accepted requests: u starts with the prefix; x, alone in its request, takes it and leaves again.
  ghost predicate LostAfter(validKey: string -> bool, net: Prefix, lost: World) {
    var u, x := Peer("u", "U", [net]), Peer("x", "X", [net]);
    var all, taker, leaver := Solo(u, true), Solo(x, true), Solo(x.(allowedIPs := []), false);
    && Proper(validKey, all) && !Clash(all) && Proper(validKey, taker) && Proper(validKey, leaver)
    && var w0 := Startup(validKey, all);
    && Good(validKey, w0) && Agree(w0) && PartialSync(validKey, w0, taker, true).1 == Success
    && var w1 := PartialSync(validKey, w0, taker, true).0;
    && Good(validKey, w1) && PartialSync(validKey, w1, leaver, true) == (lost, Success)
  }

  // The kernel has moved the prefix to x, and it went with x. The store still lists u with the prefix,
  // so synchronising the full user list finds nothing to change: it succeeds, calls no kernel,
  // and u stays without a route.
  lemma StolenPrefixStaysLost(validKey: string -> bool, net: Prefix) returns (lost: World)
    requires validKey("U") && validKey("X")
    ensures LostAfter(validKey, net, lost) && Good(validKey, lost) && lost.running
    ensures Proper(validKey, Solo(Peer("u", "U", [net]), true))
    ensures FullSync(validKey, lost, Solo(Peer("u", "U", [net]), true), true) == (lost, Success)
    ensures lost.index.peers == map["U" := Peer("u", "U", [net])] && net !in lost.device.owner
  {
    var u, x := Peer("u", "U", [net]), Peer("x", "X", [net]);
    SoloDesired(validKey, u, true);
    StartupAgrees(validKey, Solo(u, true));
    var w0 := Startup(validKey, Solo(u, true));
    SoloSync(validKey, w0, x, true);
    JoinedPair(u, x);
    StealRoutes(validKey, w0, x, net);
    var w1 := PartialSync(validKey, w0, Solo(x, true), true).0;
    var withdrawn := x.(allowedIPs := []);
    assert w1.running && w1.index.peers["X"].email == "x";
    SoloSync(validKey, w1, withdrawn, false);
    DropRoutes(validKey, w1, x, net);
    lost := PartialSync(validKey, w1, Solo(withdrawn, false), true).0;
    FullCases(validKey, lost, Solo(u, true), true);
  }

  function Duo(u: Peer, v: Peer): map<string, Claim> { map[u.email := Claim(u, true), v.email := Claim(v, true)] }

  lemma DuoDesired(validKey: string -> bool, u: Peer, v: Peer, net: Prefix, other: Prefix)
    requires u.email != v.email && u.key != v.key && validKey(u.key) && validKey(v.key)
    requires u.allowedIPs == [net] && v.allowedIPs == [other] && net != other
    ensures Proper(validKey, Duo(u, v)) && !Clash(Duo(u, v))
    ensures DesiredOf(Duo(u, v)) == map[u.key := u, v.key := v]
  {
    var d := DesiredOf(Duo(u, v));
    assert Wants(Duo(u, v), u.email, u.key) && Wants(Duo(u, v), v.email, v.key);
    assert forall k | k in d :: Wants(Duo(u, v), d[k].email, k);
  }

  // A partial reconciliation does not route again what it does not send again.
  lemma UnroutedStays(validKey: string -> bool, d: Device, peers: map<string, Peer>, desired: map<string, Peer>,
                      k: string, p: Prefix)
    requires DisjointPrefixes(desired) && Holds(desired, k, p) && p !in d.owner
    requires k in peers && peers[k].allowedIPs == desired[k].allowedIPs
    ensures Exclusive(PlanFor(validKey, peers, desired))
    ensures p !in Settle(d, PlanFor(validKey, peers, desired)).owner
  {
    var plan := PlanFor(validKey, peers, desired);
    PlanExclusive(validKey, peers, desired);
    var owner := Settle(d, plan).owner;
    if p in owner {
      SettledOwner(d, plan, owner[p], p);
      PlanGives(validKey, peers, desired, owner[p], p);
    }
  }

  // A covering request without a clash, in a running backend with a working kernel.
  lemma CoveringAccepted(validKey: string -> bool, w: World, claims: map<string, Claim>)
    requires Good(validKey, w) && w.running && Proper(validKey, claims) && !Clash(claims)
    requires forall k | k in w.index.peers :: w.index.peers[k].email in claims
    ensures Joinable(validKey, w.index.peers, DesiredOf(claims), claims.Keys)
    ensures PartialSync(validKey, w, claims, true) ==
            (PartialCommit(validKey, w, DesiredOf(claims), claims.Keys), Success)
    ensures PartialSync(validKey, w, claims, true).0.index.peers == DesiredOf(claims)
    ensures PartialSync(validKey, w, claims, true).0.device ==
            (PlanExclusive(validKey, w.index.peers, DesiredOf(claims));
             Settle(w.device, PlanFor(validKey, w.index.peers, DesiredOf(claims))))
  {
    ProperDesired(validKey, claims);
    CoveringJoin(w.index.peers, DesiredOf(claims), claims.Keys);
  }

  lemma PartialLeavesUnrouted(validKey: string -> bool, w: World, claims: map<string, Claim>, k: string, p: Prefix)
    requires Good(validKey, w) && w.running && Proper(validKey, claims) && !Clash(claims) && p !in w.device.owner
    requires forall k | k in w.index.peers :: w.index.peers[k].email in claims
    requires Holds(DesiredOf(claims), k, p) && k in w.index.peers
    requires w.index.peers[k].allowedIPs == DesiredOf(claims)[k].allowedIPs
    ensures PartialSync(validKey, w, claims, true).1 == Success
    ensures PartialSync(validKey, w, claims, true).0.index.peers == DesiredOf(claims)
    ensures p !in PartialSync(validKey, w, claims, true).0.device.owner
  {
    ProperDesired(validKey, claims);
    CoveringAccepted(validKey, w, claims);
    UnroutedStays(validKey, w.device, w.index.peers, DesiredOf(claims), k, p);
  }

  lemma FullRoutes(validKey: string -> bool, w: World, claims: map<string, Claim>, k: string, p: Prefix)
    requires Good(validKey, w) && w.running && Proper(validKey, claims) && !Clash(claims)
    requires Holds(DesiredOf(claims), k, p) && w.index.peers != DesiredOf(claims)
    ensures FullSync(validKey, w, claims, true).1 == Success
    ensures FullSync(validKey, w, claims, true).0.index.peers == DesiredOf(claims)
    ensures var owner := FullSync(validKey, w, claims, true).0.device.owner; p in owner && owner[p] == k
  {
    FullCases(validKey, w, claims, true);
    SnapshotAgrees(DesiredOf(claims));
  }

  // A covering request that keeps the prefixes of peer k, one of which the kernel has lost, and changes something
  // else is accepted on both paths, but only the full one gives k its route back.
  lemma PathsDivide(validKey: string -> bool, w: World, claims: map<string, Claim>, k: string, p: Prefix)
    requires Good(validKey, w) && w.running && Proper(validKey, claims) && !Clash(claims) && p !in w.device.owner
    requires forall k | k in w.index.peers :: w.index.peers[k].email in claims
    requires Holds(DesiredOf(claims), k, p) && k in w.index.peers && w.index.peers != DesiredOf(claims)
    requires w.index.peers[k].allowedIPs == DesiredOf(claims)[k].allowedIPs
    ensures Divided(PartialSync(validKey, w, claims, true), FullSync(validKey, w, claims, true), k, p)
  {
    PartialLeavesUnrouted(validKey, w, claims, k, p);
    FullRoutes(validKey, w, claims, k, p);
  }

  // Both succeed with the same stored peers, and only the second routes p to k.
  ghost predicate Divided(partial: (World, Outcome), full: (World, Outcome), k: string, p: Prefix) {
    && partial.1 == full.1 == Success && partial.0.index.peers == full.0.index.peers
    && p !in partial.0.device.owner && p in full.0.device.owner && full.0.device.owner[p] == k
  }

  // The state reached above with such a request.
  lemma CoveringPathsDiffer(validKey: string -> bool, net: Prefix, other: Prefix) returns (lost: World)
    requires validKey("U") && validKey("X") && validKey("V") && net != other
    ensures LostAfter(validKey, net, lost) && Good(validKey, lost)
    ensures var claims := Duo(Peer("u", "U", [net]), Peer("v", "V", [other]));
            && Proper(validKey, claims) && (forall k | k in lost.index.peers :: lost.index.peers[k].email in claims)
            && Divided(PartialSync(validKey, lost, claims, true), FullSync(validKey, lost, claims, true), "U", net)
  {
    lost := StolenPrefixStaysLost(validKey, net);
    var u, v := Peer("u", "U", [net]), Peer("v", "V", [other]);
    DuoDesired(validKey, u, v, net, other);
    assert Holds(DesiredOf(Duo(u, v)), "U", net) && "V" in DesiredOf(Duo(u, v));
    PathsDivide(validKey, lost, Duo(u, v), "U", net);
  }

  // A covering request that only renames peers needs no kernel on the partial path and does on the full one: with
  // a kernel that refuses, or in a stopped backend, only the partial request is accepted.
  lemma RenameNeedsNoKernel(validKey: string -> bool, w: World, claims: map<string, Claim>)
    requires Good(validKey, w) && Proper(validKey, claims) && !Clash(claims)
    requires forall k | k in w.index.peers :: w.index.peers[k].email in claims
    requires OnlyRenames(w.index.peers, DesiredOf(claims)) && w.index.peers != DesiredOf(claims)
    ensures PartialSync(validKey, w, claims, false).1 == Success
    ensures FullSync(validKey, w, claims, false) == (w, Failure(if w.running then KernelFailed else NotStarted))
  {
    ProperDesired(validKey, claims);
    CoveringJoin(w.index.peers, DesiredOf(claims), claims.Keys);
    EmptyPlanIff(validKey, w.index.peers, DesiredOf(claims));
  }

  // Such a request: the stored user's own entry is unusable and another user comes with its key and prefixes.
  lemma RenameExample(validKey: string -> bool, peers: map<string, Peer>, u: Peer, email: string)
    requires peers == map[u.key := u] && u.allowedIPs != [] && validKey(u.key) && email != u.email
    ensures var claims := map[u.email := Claim(u.(allowedIPs := []), false), email := Claim(u.(email := email), true)];
            && Proper(validKey, claims) && !Clash(claims) && (forall k | k in peers :: peers[k].email in claims)
            && OnlyRenames(peers, DesiredOf(claims)) && peers != DesiredOf(claims)
  {
    var claims := map[u.email := Claim(u.(allowedIPs := []), false), email := Claim(u.(email := email), true)];
    var d := DesiredOf(claims);
    assert Wants(claims, email, u.key);
    assert forall k | k in d :: Wants(claims, d[k].email, k);
    assert d == map[u.key := u.(email := email)];
  }
}
