// The three write paths of the WireGuard backend as functions on the whole state, and what
// they guarantee (node-main/backend/wireguard/user_partial_sync.go, user_full_sync.go, wireguard.go).
module Reconcile {
  import opened Prelude
  import opened Claims
  import opened PeerStores
  import opened Traffic
  import opened KernelDevice
  import opened SyncDiffs
  import opened StatsTracker

  datatype World = World(running: bool, index: Index, device: Device, stats: map<string, Meter>)

  datatype SyncError = NilUser | Refused | KeyOwned | NotStarted | KernelFailed | NoAllowedIPs | BadPrivateKey

  datatype Outcome = Success | Failure(error: SyncError)

  // ---- the agreement between store and kernel ----

  // Holds in every reachable state: the store is a bijection of usable peers, the kernel has
  // exactly those peers while the backend runs, and it routes a prefix only to a peer that holds it.
  ghost predicate Good(validKey: string -> bool, w: World) {
    && Bijective(w.index) && WellFormed(w.index.peers)
    && (forall k | k in w.index.peers :: validKey(k))
    && w.device.counters.Keys == (if w.running then w.index.peers.Keys else {})
    && RoutesToHolders(w.index.peers, w.device.owner)
  }

  ghost predicate RoutesToHolders(peers: map<string, Peer>, owner: map<Prefix, string>) {
    forall p | p in owner :: Holds(peers, owner[p], p)
  }

  // The kernel routes exactly the prefixes of the store, each to its holder.
  ghost predicate RoutesAgree(peers: map<string, Peer>, owner: map<Prefix, string>) {
    forall k, p :: Holds(peers, k, p) <==> p in owner && owner[p] == k
  }

  ghost predicate Agree(w: World) {
    w.device.counters.Keys == w.index.peers.Keys && RoutesAgree(w.index.peers, w.device.owner)
  }

  // What a collected request provides.
  ghost predicate Proper(validKey: string -> bool, claims: map<string, Claim>) {
    ByEmail(claims) && forall e | e in claims :: claims[e].survives ==>
      claims[e].peer.allowedIPs != [] && validKey(claims[e].peer.key)
  }

  lemma ProperDesired(validKey: string -> bool, claims: map<string, Claim>)
    requires Proper(validKey, claims) && !Clash(claims)
    ensures WellFormed(DesiredOf(claims)) && DisjointPrefixes(DesiredOf(claims))
    ensures forall k | k in DesiredOf(claims) :: validKey(k) && DesiredOf(claims)[k].email in claims
  {
    DesiredIsWellFormed(claims);
    assert forall k | k in DesiredOf(claims) :: Wants(claims, DesiredOf(claims)[k].email, k);
  }

  function Untouched(peers: map<string, Peer>, touched: set<string>): map<string, Peer> {
    peers - set k | k in peers && peers[k].email in touched
  }

  function Touched(peers: map<string, Peer>, touched: set<string>): map<string, Peer> {
    peers - set k | k in peers && peers[k].email !in touched
  }

  ghost predicate OwnedElsewhere(peers: map<string, Peer>, desired: map<string, Peer>, touched: set<string>) {
    exists k | k in desired && k in peers :: peers[k].email != desired[k].email && peers[k].email !in touched
  }

  function Retire(stats: map<string, Meter>, ks: set<string>): map<string, Meter> {
    map k | k in stats :: if k in ks then stats[k].(deleted := true, lastActive := None) else stats[k]
  }

  // What the duplicate and ownership checks leave: a well-formed set of peers for the touched
  // users that takes no key from anybody else.
  ghost predicate Joinable(validKey: string -> bool, peers: map<string, Peer>, desired: map<string, Peer>,
                           touched: set<string>) {
    && WellFormed(peers) && WellFormed(desired) && DisjointPrefixes(desired)
    && (forall k | k in peers :: validKey(k)) && (forall k | k in desired :: validKey(k) && desired[k].email in touched)
    && !OwnedElsewhere(peers, desired, touched)
  }

  function Joined(peers: map<string, Peer>, desired: map<string, Peer>, touched: set<string>): map<string, Peer> {
    Untouched(peers, touched) + desired
  }

  lemma JoinedWellFormed(validKey: string -> bool, peers: map<string, Peer>, desired: map<string, Peer>,
                         touched: set<string>)
    requires Joinable(validKey, peers, desired, touched)
    ensures forall k | k in Untouched(peers, touched) :: k !in desired
    ensures WellFormed(Joined(peers, desired, touched))
    ensures Bijective(Index(Joined(peers, desired, touched), KeyByEmail(Joined(peers, desired, touched))))
  {
    var all := Joined(peers, desired, touched);
    forall j, k, e | HasEmail(all, j, e) && HasEmail(all, k, e) ensures j == k {
      assert j in desired && k in desired ==> HasEmail(desired, j, e) && HasEmail(desired, k, e);
      assert j !in desired && k !in desired ==> HasEmail(peers, j, e) && HasEmail(peers, k, e);
    }
    IndexOfWellFormed(all);
  }

  lemma PlanExclusive(validKey: string -> bool, existing: map<string, Peer>, desired: map<string, Peer>)
    requires DisjointPrefixes(desired)
    ensures Exclusive(PlanFor(validKey, existing, desired)) && KeyedBy(PlanFor(validKey, existing, desired))
  {
    var plan := PlanFor(validKey, existing, desired);
    forall k, p | Gives(plan, k, p) ensures Holds(desired, k, p) {}
  }

  // ---- partial reconciliation: SyncUser, UpdateUsers ----

  ghost function PlanOf(validKey: string -> bool, peers: map<string, Peer>, desired: map<string, Peer>,
                        touched: set<string>): map<string, PeerConfig> {
    PlanFor(validKey, Touched(peers, touched), desired)
  }

  // The new state on success: the peers of untouched users and exactly the desired ones.
  ghost function PartialCommit(validKey: string -> bool, w: World, desired: map<string, Peer>,
                               touched: set<string>): World
    requires Joinable(validKey, w.index.peers, desired, touched)
  {
    var peers := Joined(w.index.peers, desired, touched);
    JoinedWellFormed(validKey, w.index.peers, desired, touched);
    PlanExclusive(validKey, Touched(w.index.peers, touched), desired);
    World(w.running, Index(peers, KeyByEmail(peers)),
          Settle(w.device, PlanOf(validKey, w.index.peers, desired, touched)),
          Retire(w.stats, Touched(w.index.peers, touched).Keys - desired.Keys))
  }

  ghost function PartialSync(validKey: string -> bool, w: World, claims: map<string, Claim>,
                             kernelOk: bool): (World, Outcome)
    requires Good(validKey, w) && Proper(validKey, claims)
  {
    if Clash(claims) then (w, Failure(Refused))
    else
      var desired := DesiredOf(claims);
      ProperDesired(validKey, claims);
      if OwnedElsewhere(w.index.peers, desired, claims.Keys) then (w, Failure(KeyOwned))
      else if PlanOf(validKey, w.index.peers, desired, claims.Keys).Keys != {} && !w.running
        then (w, Failure(NotStarted))
      else if PlanOf(validKey, w.index.peers, desired, claims.Keys).Keys != {} && !kernelOk
        then (w, Failure(KernelFailed))
      else (PartialCommit(validKey, w, desired, claims.Keys), Success)
  }

  // Everything the lemmas need to know about a successful call.
  lemma PartialSucceeded(validKey: string -> bool, w: World, claims: map<string, Claim>, kernelOk: bool)
    requires Good(validKey, w) && Proper(validKey, claims)
    requires PartialSync(validKey, w, claims, kernelOk).1.Success?
    ensures !Clash(claims) && Joinable(validKey, w.index.peers, DesiredOf(claims), claims.Keys)
    ensures PlanOf(validKey, w.index.peers, DesiredOf(claims), claims.Keys).Keys == {} || w.running
    ensures PartialSync(validKey, w, claims, kernelOk).0 == PartialCommit(validKey, w, DesiredOf(claims), claims.Keys)
  {
    ProperDesired(validKey, claims);
  }

  // No desired prefix belongs to a stored peer of a user outside the request.
  ghost predicate NoSteal(peers: map<string, Peer>, desired: map<string, Peer>, touched: set<string>) {
    forall j, k, p :: !(Holds(Untouched(peers, touched), j, p) && Holds(desired, k, p))
  }

  // How the routing table of the kernel changes.
  lemma SettledOwner(d: Device, plan: map<string, PeerConfig>, k: string, p: Prefix)
    requires Exclusive(plan)
    ensures p in Settle(d, plan).owner && Settle(d, plan).owner[p] == k <==>
            Gives(plan, k, p) ||
            (p in d.owner && d.owner[p] == k && !Releases(plan, k) && forall j :: !Gives(plan, j, p))
  {
    if p in Routes(plan) { assert Gives(plan, Routes(plan)[p], p); }
  }

  lemma PlanGives(validKey: string -> bool, existing: map<string, Peer>, desired: map<string, Peer>, k: string,
                  p: Prefix)
    ensures Gives(PlanFor(validKey, existing, desired), k, p) <==>
            Holds(desired, k, p) && (Updated(existing, desired, k) || Added(existing, desired, k))
    ensures Releases(PlanFor(validKey, existing, desired), k) <==>
            Updated(existing, desired, k) || Dropped(validKey, existing, desired, k)
  {}

  // Every partial reconciliation keeps the unconditional invariant.
  lemma PartialKeepsGood(validKey: string -> bool, w: World, claims: map<string, Claim>, kernelOk: bool)
    requires Good(validKey, w) && Proper(validKey, claims)
    ensures Good(validKey, PartialSync(validKey, w, claims, kernelOk).0)
  {
    if PartialSync(validKey, w, claims, kernelOk).1.Success? {
      PartialSucceeded(validKey, w, claims, kernelOk);
      CommitKeepsGood(validKey, w, DesiredOf(claims), claims.Keys);
    }
  }

  lemma CommitKeepsGood(validKey: string -> bool, w: World, desired: map<string, Peer>, touched: set<string>)
    requires Good(validKey, w) && Joinable(validKey, w.index.peers, desired, touched)
    requires PlanOf(validKey, w.index.peers, desired, touched).Keys == {} || w.running
    ensures Good(validKey, PartialCommit(validKey, w, desired, touched))
  {
    JoinedWellFormed(validKey, w.index.peers, desired, touched);
    CommitRoutesToHolders(validKey, w, desired, touched);
    CommitCensus(validKey, w, desired, touched);
  }

  lemma CommitCensus(validKey: string -> bool, w: World, desired: map<string, Peer>, touched: set<string>)
    requires Good(validKey, w) && Joinable(validKey, w.index.peers, desired, touched)
    requires PlanOf(validKey, w.index.peers, desired, touched).Keys == {} || w.running
    ensures PartialCommit(validKey, w, desired, touched).device.counters.Keys ==
            if w.running then Joined(w.index.peers, desired, touched).Keys else {}
  {
    if w.running { RunningCensus(validKey, w.device.counters, w.index.peers, desired, touched); }
  }

  lemma RunningCensus(validKey: string -> bool, counters: map<string, Counters>,
                      peers: map<string, Peer>, desired: map<string, Peer>, touched: set<string>)
    requires Joinable(validKey, peers, desired, touched) && counters.Keys == peers.Keys
    ensures Census(counters, PlanOf(validKey, peers, desired, touched)).Keys == Joined(peers, desired, touched).Keys
  {
    JoinedWellFormed(validKey, peers, desired, touched);
    var existing, plan := Touched(peers, touched), PlanOf(validKey, peers, desired, touched);
    forall k ensures k in Census(counters, plan) <==> k in Joined(peers, desired, touched) {
      assert k in plan <==>
        Updated(existing, desired, k) || Added(existing, desired, k) || Dropped(validKey, existing, desired, k);
      assert k in plan && plan[k].remove <==> Dropped(validKey, existing, desired, k);
      assert k in peers ==> (k in existing <==> k !in Untouched(peers, touched));
    }
  }

  lemma CommitRoutesToHolders(validKey: string -> bool, w: World, desired: map<string, Peer>, touched: set<string>)
    requires Good(validKey, w) && Joinable(validKey, w.index.peers, desired, touched)
    ensures RoutesToHolders(Joined(w.index.peers, desired, touched),
                            PartialCommit(validKey, w, desired, touched).device.owner)
  {
    var existing := Touched(w.index.peers, touched);
    var plan := PlanFor(validKey, existing, desired);
    var owner := PartialCommit(validKey, w, desired, touched).device.owner;
    JoinedWellFormed(validKey, w.index.peers, desired, touched);
    forall p | p in owner ensures Holds(Joined(w.index.peers, desired, touched), owner[p], p) {
      var k := owner[p];
      PlanExclusive(validKey, existing, desired);
      SettledOwner(w.device, plan, k, p);
      PlanGives(validKey, existing, desired, k, p);
      if !Gives(plan, k, p) {
        assert Holds(w.index.peers, k, p);
        assert k in existing || k in Untouched(w.index.peers, touched);
      }
    }
  }

  // The kernel still routes every prefix of these peers that the batch does not assign.
  ghost predicate StillRouted(owner: map<Prefix, string>, plan: map<string, PeerConfig>, peers: map<string, Peer>) {
    forall k, p :: Holds(peers, k, p) && !Gives(plan, k, p) ==> p in owner && owner[p] == k
  }

  // From any state, a successful partial reconciliation ends in agreement if and only if it takes no
  // prefix from a user outside the request and the kernel has lost none of the prefixes that
  // the request leaves alone. (A stopped backend has no kernel peers, so it must have no stored ones.)
  lemma PartialAgreesIff(validKey: string -> bool, w: World, claims: map<string, Claim>, kernelOk: bool)
    requires Good(validKey, w) && Proper(validKey, claims)
    requires PartialSync(validKey, w, claims, kernelOk).1.Success?
    ensures !KeyClash(claims)
    ensures var desired := DesiredOf(claims);
            var joined := Joined(w.index.peers, desired, claims.Keys);
            Agree(PartialSync(validKey, w, claims, kernelOk).0) <==>
              && (w.running || joined.Keys == {})
              && NoSteal(w.index.peers, desired, claims.Keys)
              && StillRouted(w.device.owner, PlanOf(validKey, w.index.peers, desired, claims.Keys), joined)
  {
    PartialSucceeded(validKey, w, claims, kernelOk);
    CommitAgreesIff(validKey, w, DesiredOf(claims), claims.Keys);
  }

  lemma CommitAgreesIff(validKey: string -> bool, w: World, desired: map<string, Peer>, touched: set<string>)
    requires Good(validKey, w) && Joinable(validKey, w.index.peers, desired, touched)
    requires PlanOf(validKey, w.index.peers, desired, touched).Keys == {} || w.running
    ensures var joined := Joined(w.index.peers, desired, touched);
            Agree(PartialCommit(validKey, w, desired, touched)) <==>
              && (w.running || joined.Keys == {})
              && NoSteal(w.index.peers, desired, touched)
              && StillRouted(w.device.owner, PlanOf(validKey, w.index.peers, desired, touched), joined)
  {
    var joined, plan := Joined(w.index.peers, desired, touched), PlanOf(validKey, w.index.peers, desired, touched);
    CommitCensus(validKey, w, desired, touched);
    if Agree(PartialCommit(validKey, w, desired, touched)) {
      AgreedCommit(validKey, w, desired, touched);
    }
    if NoSteal(w.index.peers, desired, touched) && StillRouted(w.device.owner, plan, joined) {
      CommitRoutesAgree(validKey, w, desired, touched);
    }
  }

  lemma AgreedCommit(validKey: string -> bool, w: World, desired: map<string, Peer>, touched: set<string>)
    requires Joinable(validKey, w.index.peers, desired, touched) && Agree(PartialCommit(validKey, w, desired, touched))
    ensures NoSteal(w.index.peers, desired, touched)
    ensures StillRouted(w.device.owner, PlanOf(validKey, w.index.peers, desired, touched),
                        Joined(w.index.peers, desired, touched))
  {
    var w', others := PartialCommit(validKey, w, desired, touched), Untouched(w.index.peers, touched);
    var joined, plan := Joined(w.index.peers, desired, touched), PlanOf(validKey, w.index.peers, desired, touched);
    JoinedWellFormed(validKey, w.index.peers, desired, touched);
    PlanExclusive(validKey, Touched(w.index.peers, touched), desired);
    forall j, k, p ensures !(Holds(others, j, p) && Holds(desired, k, p)) {
      assert Holds(others, j, p) ==> Holds(joined, j, p);
      assert Holds(desired, k, p) ==> Holds(joined, k, p);
    }
    forall k, p | Holds(joined, k, p) && !Gives(plan, k, p) ensures p in w.device.owner && w.device.owner[p] == k {
      SettledOwner(w.device, plan, k, p);
    }
  }

  // In particular, from agreement it ends in agreement if and only if it takes no such prefix.
  lemma PartialFromAgreement(validKey: string -> bool, w: World, claims: map<string, Claim>, kernelOk: bool)
    requires Good(validKey, w) && Proper(validKey, claims) && Agree(w)
    requires PartialSync(validKey, w, claims, kernelOk).1.Success?
    ensures !KeyClash(claims)
    ensures Agree(PartialSync(validKey, w, claims, kernelOk).0) <==>
            NoSteal(w.index.peers, DesiredOf(claims), claims.Keys)
  {
    PartialSucceeded(validKey, w, claims, kernelOk);
    PartialAgreesIff(validKey, w, claims, kernelOk);
    AgreedStillRouted(validKey, w, DesiredOf(claims), claims.Keys);
    if !w.running { StoppedCommit(validKey, w.index.peers, DesiredOf(claims), claims.Keys); }
  }

  lemma AgreedStillRouted(validKey: string -> bool, w: World, desired: map<string, Peer>, touched: set<string>)
    requires Good(validKey, w) && Joinable(validKey, w.index.peers, desired, touched) && Agree(w)
    ensures StillRouted(w.device.owner, PlanOf(validKey, w.index.peers, desired, touched),
                        Joined(w.index.peers, desired, touched))
  {
    var existing, plan := Touched(w.index.peers, touched), PlanOf(validKey, w.index.peers, desired, touched);
    var joined := Joined(w.index.peers, desired, touched);
    JoinedWellFormed(validKey, w.index.peers, desired, touched);
    forall k, p | Holds(joined, k, p) && !Gives(plan, k, p) ensures p in w.device.owner && w.device.owner[p] == k {
      PlanGives(validKey, existing, desired, k, p);
      if k in desired { assert Holds(desired, k, p); }
      assert Holds(w.index.peers, k, p);
    }
  }

  // A backend that agrees while stopped has no peers, and then a request without kernel configs adds none.
  lemma StoppedCommit(validKey: string -> bool, peers: map<string, Peer>, desired: map<string, Peer>,
                      touched: set<string>)
    requires peers.Keys == {} && WellFormed(desired) && PlanOf(validKey, peers, desired, touched).Keys == {}
    ensures Joined(peers, desired, touched).Keys == {}
  {
    if k :| k in desired {
      assert Added(Touched(peers, touched), desired, k);
      assert false;
    }
  }

  lemma CommitRoutesAgree(validKey: string -> bool, w: World, desired: map<string, Peer>, touched: set<string>)
    requires Good(validKey, w) && Joinable(validKey, w.index.peers, desired, touched)
    requires NoSteal(w.index.peers, desired, touched)
    requires StillRouted(w.device.owner, PlanOf(validKey, w.index.peers, desired, touched),
                         Joined(w.index.peers, desired, touched))
    ensures RoutesAgree(Joined(w.index.peers, desired, touched),
                        PartialCommit(validKey, w, desired, touched).device.owner)
  {
    var existing, others := Touched(w.index.peers, touched), Untouched(w.index.peers, touched);
    var plan, all := PlanFor(validKey, existing, desired), Joined(w.index.peers, desired, touched);
    var owner := PartialCommit(validKey, w, desired, touched).device.owner;
    JoinedWellFormed(validKey, w.index.peers, desired, touched);
    CommitRoutesToHolders(validKey, w, desired, touched);
    forall k, p | Holds(all, k, p) ensures p in owner && owner[p] == k {
      PlanExclusive(validKey, existing, desired);
      SettledOwner(w.device, plan, k, p);
      PlanGives(validKey, existing, desired, k, p);
      forall j ensures Gives(plan, j, p) ==> Holds(desired, j, p) { PlanGives(validKey, existing, desired, j, p); }
      if k in desired { assert Holds(desired, k, p); } else { assert Holds(others, k, p); }
    }
  }

  // Peer k of a user outside the request: its entry in the store, its counter and its statistics
  // stay as they were, and so do those of its routes that the request does not claim.
  ghost predicate LeftAlone(w: World, w': World, desired: map<string, Peer>, k: string)
    requires k in w.index.peers
  {
    && k in w'.index.peers && w'.index.peers[k] == w.index.peers[k]
    && (k in w'.device.counters <==> k in w.device.counters)
    && (k in w.device.counters && k in w'.device.counters ==> w'.device.counters[k] == w.device.counters[k])
    && (k in w'.stats <==> k in w.stats) && (k in w.stats && k in w'.stats ==> w'.stats[k] == w.stats[k])
    && (forall p | p in w.device.owner && w.device.owner[p] == k ::
         (exists j :: Holds(desired, j, p)) || (p in w'.device.owner && w'.device.owner[p] == k))
  }

  // What a successful call does: of the users in the request the store has exactly the desired
  // peers afterwards, and everybody else is left alone.
  lemma PartialEffect(validKey: string -> bool, w: World, claims: map<string, Claim>, kernelOk: bool)
    requires Good(validKey, w) && Proper(validKey, claims)
    requires PartialSync(validKey, w, claims, kernelOk).1.Success?
    ensures !KeyClash(claims)
    ensures Touched(PartialSync(validKey, w, claims, kernelOk).0.index.peers, claims.Keys) == DesiredOf(claims)
    ensures forall k | k in Untouched(w.index.peers, claims.Keys) ::
              && k !in DesiredOf(claims)
              && LeftAlone(w, PartialSync(validKey, w, claims, kernelOk).0, DesiredOf(claims), k)
  {
    PartialSucceeded(validKey, w, claims, kernelOk);
    var desired := DesiredOf(claims);
    JoinedAgain(w.index.peers, desired, claims.Keys);
    forall k | k in Untouched(w.index.peers, claims.Keys)
      ensures k !in desired && LeftAlone(w, PartialSync(validKey, w, claims, kernelOk).0, desired, k)
    {
      OthersLeftAlone(validKey, w, desired, claims.Keys, k);
    }
  }

  lemma OthersLeftAlone(validKey: string -> bool, w: World, desired: map<string, Peer>, touched: set<string>, k: string)
    requires Joinable(validKey, w.index.peers, desired, touched) && k in Untouched(w.index.peers, touched)
    ensures k !in desired && LeftAlone(w, PartialCommit(validKey, w, desired, touched), desired, k)
  {
    var existing := Touched(w.index.peers, touched);
    var plan, w' := PlanFor(validKey, existing, desired), PartialCommit(validKey, w, desired, touched);
    PlanExclusive(validKey, existing, desired);
    assert k !in desired && k !in existing && k !in plan;
    forall p | p in w.device.owner && w.device.owner[p] == k && (forall j :: !Holds(desired, j, p))
      ensures p in w'.device.owner && w'.device.owner[p] == k
    {
      SettledOwner(w.device, plan, k, p);
      forall j ensures !Gives(plan, j, p) { PlanGives(validKey, existing, desired, j, p); }
    }
  }

  // The second of two identical requests finds nothing to do: no kernel call is needed,
  // so it succeeds whatever the kernel would answer, and the state stays as it is.
  lemma PartialIdempotent(validKey: string -> bool, w: World, claims: map<string, Claim>, kernelOk: bool,
                          kernelOk': bool)
    requires Good(validKey, w) && Proper(validKey, claims)
    requires PartialSync(validKey, w, claims, kernelOk).1.Success?
    ensures !KeyClash(claims) && Good(validKey, PartialSync(validKey, w, claims, kernelOk).0)
    ensures var after := PartialSync(validKey, w, claims, kernelOk).0;
            PlanOf(validKey, after.index.peers, DesiredOf(claims), claims.Keys) == map[]
    ensures PartialSync(validKey, PartialSync(validKey, w, claims, kernelOk).0, claims, kernelOk') ==
            (PartialSync(validKey, w, claims, kernelOk).0, Success)
  {
    PartialSucceeded(validKey, w, claims, kernelOk);
    PartialKeepsGood(validKey, w, claims, kernelOk);
    CommitAgain(validKey, w, DesiredOf(claims), claims.Keys);
  }

  lemma CommitAgain(validKey: string -> bool, w: World, desired: map<string, Peer>, touched: set<string>)
    requires Joinable(validKey, w.index.peers, desired, touched)
    ensures var w' := PartialCommit(validKey, w, desired, touched);
            && Joinable(validKey, w'.index.peers, desired, touched)
            && PlanOf(validKey, w'.index.peers, desired, touched) == map[]
            && PartialCommit(validKey, w', desired, touched) == w'
  {
    JoinableAgain(validKey, w.index.peers, desired, touched);
    JoinedAgain(w.index.peers, desired, touched);
    CommitUnchanged(validKey, PartialCommit(validKey, w, desired, touched), desired, touched);
  }

  lemma JoinableAgain(validKey: string -> bool, peers: map<string, Peer>, desired: map<string, Peer>,
                      touched: set<string>)
    requires Joinable(validKey, peers, desired, touched)
    ensures Joinable(validKey, Joined(peers, desired, touched), desired, touched)
  {
    JoinedWellFormed(validKey, peers, desired, touched);
  }

  lemma CommitUnchanged(validKey: string -> bool, w: World, desired: map<string, Peer>, touched: set<string>)
    requires Joinable(validKey, w.index.peers, desired, touched) && w.index.emailToKey == KeyByEmail(w.index.peers)
    requires Touched(w.index.peers, touched) == desired && Joined(w.index.peers, desired, touched) == w.index.peers
    ensures PlanOf(validKey, w.index.peers, desired, touched) == map[]
    ensures PartialCommit(validKey, w, desired, touched) == w
  {
    assert PlanFor(validKey, desired, desired) == map[];
    SettleNothing(w.device);
    RetireNothing(w.stats, desired.Keys - desired.Keys);
  }

  lemma JoinedAgain(peers: map<string, Peer>, desired: map<string, Peer>, touched: set<string>)
    requires forall k | k in desired :: desired[k].email in touched
    ensures Touched(Joined(peers, desired, touched), touched) == desired
    ensures Joined(Joined(peers, desired, touched), desired, touched) == Joined(peers, desired, touched)
  {}

  lemma SettleNothing(d: Device)
    ensures Exclusive(map[]) && Settle(d, map[]) == d
  {}

  lemma RetireNothing(stats: map<string, Meter>, ks: set<string>)
    requires ks == {}
    ensures Retire(stats, ks) == stats
  {}

  // ---- full synchronisation: SyncUsers ----

  // Store and kernel replaced by the desired peers.
  ghost function Replaced(w: World, desired: map<string, Peer>): World
    requires WellFormed(desired) && DisjointPrefixes(desired)
  {
    SnapshotExclusive(desired);
    World(w.running, Index(desired, KeyByEmail(desired)), Settle(EMPTY, Snapshot(desired)),
          Retire(w.stats, w.index.peers.Keys - desired.Keys))
  }

  ghost function FullSync(validKey: string -> bool, w: World, claims: map<string, Claim>,
                          kernelOk: bool): (World, Outcome)
    requires Good(validKey, w) && Proper(validKey, claims)
  {
    if Clash(claims) then (w, Failure(Refused))
    else
      var desired := DesiredOf(claims);
      ProperDesired(validKey, claims);
      FullWith(w, desired, kernelOk)
  }

  ghost function FullWith(w: World, desired: map<string, Peer>, kernelOk: bool): (World, Outcome)
    requires WellFormed(desired) && DisjointPrefixes(desired)
  {
    if w.index.peers == desired then (w, Success)
    else if !w.running then (w, Failure(NotStarted))
    else if !kernelOk then (w, Failure(KernelFailed))
    else (Replaced(w, desired), Success)
  }

  lemma FullCases(validKey: string -> bool, w: World, claims: map<string, Claim>, kernelOk: bool)
    requires Good(validKey, w) && Proper(validKey, claims)
    ensures Good(validKey, FullSync(validKey, w, claims, kernelOk).0)
    ensures Clash(claims) ==> FullSync(validKey, w, claims, kernelOk) == (w, Failure(Refused))
    ensures !Clash(claims) ==>
              && WellFormed(DesiredOf(claims)) && DisjointPrefixes(DesiredOf(claims))
              && FullSync(validKey, w, claims, kernelOk) == FullWith(w, DesiredOf(claims), kernelOk)
  {
    FullKeepsGood(validKey, w, claims, kernelOk);
    if !Clash(claims) { ProperDesired(validKey, claims); }
  }

  lemma SnapshotExclusive(peers: map<string, Peer>)
    requires DisjointPrefixes(peers)
    ensures Exclusive(Snapshot(peers)) && KeyedBy(Snapshot(peers))
  {
    forall k, p | Gives(Snapshot(peers), k, p) ensures Holds(peers, k, p) {}
  }

  function Zeros(ks: set<string>): map<string, Counters> { map k | k in ks :: ZERO }

  // A snapshot applied to the empty device agrees with the peers it was built from.
  lemma SnapshotAgrees(peers: map<string, Peer>)
    requires DisjointPrefixes(peers) && WellFormed(peers)
    ensures Exclusive(Snapshot(peers))
    ensures Settle(EMPTY, Snapshot(peers)).counters == Zeros(peers.Keys)
    ensures RoutesAgree(peers, Settle(EMPTY, Snapshot(peers)).owner)
  {
    SnapshotExclusive(peers);
    forall k, p ensures Holds(peers, k, p) <==>
      p in Settle(EMPTY, Snapshot(peers)).owner && Settle(EMPTY, Snapshot(peers)).owner[p] == k
    {
      SettledOwner(EMPTY, Snapshot(peers), k, p);
      assert Gives(Snapshot(peers), k, p) <==> Holds(peers, k, p);
    }
  }

  lemma FullKeepsGood(validKey: string -> bool, w: World, claims: map<string, Claim>, kernelOk: bool)
    requires Good(validKey, w) && Proper(validKey, claims)
    ensures Good(validKey, FullSync(validKey, w, claims, kernelOk).0)
  {
    if !Clash(claims) {
      ProperDesired(validKey, claims);
      SnapshotAgrees(DesiredOf(claims));
      IndexOfWellFormed(DesiredOf(claims));
    }
  }

  // A successful full synchronisation ends in agreement unless it found nothing to change
  // in the store while the kernel already disagreed with it.
  lemma FullAgreesIff(validKey: string -> bool, w: World, claims: map<string, Claim>, kernelOk: bool)
    requires Good(validKey, w) && Proper(validKey, claims) && FullSync(validKey, w, claims, kernelOk).1.Success?
    ensures Agree(FullSync(validKey, w, claims, kernelOk).0) <==> Agree(w) || w.index.peers != DesiredOf(claims)
  {
    ProperDesired(validKey, claims);
    SnapshotAgrees(DesiredOf(claims));
  }

  // ---- a partial reconciliation that covers the store against a full one ----

  ghost predicate SameButCounters(a: World, b: World) {
    && a.index == b.index && a.stats == b.stats && a.running == b.running
    && a.device.owner == b.device.owner && a.device.counters.Keys == b.device.counters.Keys
  }

  // The same answer, store and statistics, and a kernel with the same peers and routes. (The counters
  // differ: the full path drops and recreates every peer.)
  ghost predicate SameEffect(a: (World, Outcome), b: (World, Outcome)) { a.1 == b.1 && SameButCounters(a.0, b.0) }

  // The kernel routes every prefix of a peer whose prefixes the request does not change.
  ghost predicate UnchangedRouted(w: World, desired: map<string, Peer>) {
    forall k, p ::
      Holds(desired, k, p) && k in w.index.peers && w.index.peers[k].allowedIPs == desired[k].allowedIPs ==>
      p in w.device.owner && w.device.owner[p] == k
  }

  // The desired peers are the stored ones, possibly under other emails.
  predicate OnlyRenames(peers: map<string, Peer>, desired: map<string, Peer>) {
    peers.Keys == desired.Keys && forall k | k in peers && k in desired :: peers[k].allowedIPs == desired[k].allowedIPs
  }

  // When every stored user occurs in the request, UpdateUsers and SyncUsers come to the same, key swaps and
  // cycles included, exactly in these cases: both reject the request; nothing is to be changed;
  // a working kernel has lost none of the prefixes that stay with their peer (the full path sends
  // them again, the partial path does not); or the kernel is unavailable and both need it. (A request that
  // only renames peers needs no kernel on the partial path.)
  lemma CoveringPartialIsFullIff(validKey: string -> bool, w: World, claims: map<string, Claim>, kernelOk: bool)
    requires Good(validKey, w) && Proper(validKey, claims)
    requires forall k | k in w.index.peers :: w.index.peers[k].email in claims
    ensures SameEffect(PartialSync(validKey, w, claims, kernelOk), FullSync(validKey, w, claims, kernelOk)) <==>
              || Clash(claims)
              || w.index.peers == DesiredOf(claims)
              || (w.running && kernelOk && UnchangedRouted(w, DesiredOf(claims)))
              || (!(w.running && kernelOk) && !OnlyRenames(w.index.peers, DesiredOf(claims)))
  {
    if !Clash(claims) {
      ProperDesired(validKey, claims);
      var desired := DesiredOf(claims);
      CoveringJoin(w.index.peers, desired, claims.Keys);
      EmptyPlanIff(validKey, w.index.peers, desired);
      if w.index.peers == desired { CoveringUnchanged(validKey, w, desired, claims.Keys); }
      else if w.running && kernelOk { CoveringCommitIff(validKey, w, desired, claims.Keys); }
    }
  }

  lemma CoveringUnchanged(validKey: string -> bool, w: World, desired: map<string, Peer>, touched: set<string>)
    requires Good(validKey, w) && w.index.peers == desired && Joinable(validKey, desired, desired, touched)
    ensures PlanOf(validKey, desired, desired, touched).Keys == {}
    ensures PartialCommit(validKey, w, desired, touched) == w
  {
    CoveringJoin(desired, desired, touched);
    BijectiveDetermined(w.index);
    CommitUnchanged(validKey, w, desired, touched);
  }

  lemma EmptyPlanIff(validKey: string -> bool, peers: map<string, Peer>, desired: map<string, Peer>)
    requires WellFormed(peers) && WellFormed(desired) && forall k | k in peers :: validKey(k)
    ensures PlanFor(validKey, peers, desired).Keys == {} <==> OnlyRenames(peers, desired)
  {
    var plan := PlanFor(validKey, peers, desired);
    if plan.Keys == {} {
      forall k ensures (k in peers <==> k in desired) && (k in peers ==> peers[k].allowedIPs == desired[k].allowedIPs) {
        assert k !in plan.Keys;
      }
    }
  }

  lemma CoveringJoin(peers: map<string, Peer>, desired: map<string, Peer>, touched: set<string>)
    requires forall k | k in peers :: peers[k].email in touched
    ensures Untouched(peers, touched) == map[] && Touched(peers, touched) == peers
    ensures Joined(peers, desired, touched) == desired
    ensures NoSteal(peers, desired, touched) && !OwnedElsewhere(peers, desired, touched)
  {}

  lemma CoveringCommitIff(validKey: string -> bool, w: World, desired: map<string, Peer>, touched: set<string>)
    requires Good(validKey, w) && w.running && forall k | k in w.index.peers :: w.index.peers[k].email in touched
    requires Joinable(validKey, w.index.peers, desired, touched)
    ensures SameButCounters(PartialCommit(validKey, w, desired, touched), Replaced(w, desired)) <==>
            UnchangedRouted(w, desired)
  {
    var w', f := PartialCommit(validKey, w, desired, touched), Replaced(w, desired);
    CoveringJoin(w.index.peers, desired, touched);
    CommitAgreesIff(validKey, w, desired, touched);
    CoveringStillRouted(validKey, w, desired);
    CommitCensus(validKey, w, desired, touched);
    SnapshotAgrees(desired);
    if Agree(w') { SameRoutes(desired, w'.device.owner, f.device.owner); }
  }

  lemma CoveringStillRouted(validKey: string -> bool, w: World, desired: map<string, Peer>)
    ensures StillRouted(w.device.owner, PlanFor(validKey, w.index.peers, desired), desired) <==>
            UnchangedRouted(w, desired)
  {
    forall k, p ensures Holds(desired, k, p) ==>
      (Gives(PlanFor(validKey, w.index.peers, desired), k, p) <==>
        !(k in w.index.peers && w.index.peers[k].allowedIPs == desired[k].allowedIPs))
    {
      PlanGives(validKey, w.index.peers, desired, k, p);
    }
  }

  // In particular they come to the same in a running backend whose kernel agrees with its store.
  lemma CoveringPartialIsFull(validKey: string -> bool, w: World, claims: map<string, Claim>)
    requires Good(validKey, w) && Proper(validKey, claims) && w.running && Agree(w)
    requires forall k | k in w.index.peers :: w.index.peers[k].email in claims
    ensures SameEffect(PartialSync(validKey, w, claims, true), FullSync(validKey, w, claims, true))
  {
    CoveringPartialIsFullIff(validKey, w, claims, true);
    if !Clash(claims) {
      forall k, p | Holds(DesiredOf(claims), k, p) && k in w.index.peers
                    && w.index.peers[k].allowedIPs == DesiredOf(claims)[k].allowedIPs
        ensures p in w.device.owner && w.device.owner[p] == k
      {
        assert Holds(w.index.peers, k, p);
      }
    }
  }

  lemma SameRoutes(peers: map<string, Peer>, a: map<Prefix, string>, b: map<Prefix, string>)
    requires RoutesAgree(peers, a) && RoutesAgree(peers, b)
    ensures a == b
  {
    forall p | p in a ensures p in b && a[p] == b[p] { assert Holds(peers, a[p], p); }
    forall p | p in b ensures p in a { assert Holds(peers, b[p], p); }
  }

  // ---- restart: every stored peer is sent again, in the order of `order` ----

  function InOrder(peers: map<string, Peer>, order: seq<string>): seq<Peer>
    requires forall i | 0 <= i < |order| :: order[i] in peers
  {
    seq(|order|, i requires 0 <= i < |order| => peers[order[i]])
  }

  ghost function Restart(w: World, order: seq<string>, kernelOk: bool): (World, Outcome)
    requires Listing(order, w.index.peers.Keys)
  {
    assert forall i | 0 <= i < |order| :: order[i] in Elems(order);
    if exists k | k in w.index.peers :: w.index.peers[k].allowedIPs == [] then (w, Failure(NoAllowedIPs))
    else if !w.running then (w, Failure(NotStarted))
    else if !kernelOk then (w, Failure(KernelFailed))
    else (w.(device := ApplyConfigs(EMPTY, RestartConfigs(InOrder(w.index.peers, order)))), Success)
  }

  lemma RestartItems(peers: map<string, Peer>, order: seq<string>)
    requires Listing(order, peers.Keys)
    ensures forall i | 0 <= i < |order| :: order[i] in peers
    ensures |RestartConfigs(InOrder(peers, order))| == |order|
    ensures forall i | 0 <= i < |order| :: RestartConfigs(InOrder(peers, order))[i] == BuildAddConfig(peers[order[i]])
  {
    assert forall i | 0 <= i < |order| :: order[i] in Elems(order);
    var ps := InOrder(peers, order);
    ItemsOfOrder(peers, order, ps);
    assert ps == InOrder(peers, order);
  }

  lemma ItemsOfOrder(peers: map<string, Peer>, order: seq<string>, ps: seq<Peer>)
    requires |ps| == |order| && forall i | 0 <= i < |order| :: order[i] in peers && ps[i] == peers[order[i]]
    ensures |RestartConfigs(ps)| == |order|
    ensures forall i | 0 <= i < |order| :: RestartConfigs(ps)[i] == BuildAddConfig(peers[order[i]])
  {
    var cs := RestartConfigs(ps);
    assert forall i | 0 <= i < |cs| :: cs[i] == BuildAddConfig(ps[i]);
  }

  lemma BatchOfOrder(peers: map<string, Peer>, order: seq<string>, cs: seq<PeerConfig>)
    requires Listing(order, peers.Keys) && |cs| == |order|
    requires forall k | k in peers :: peers[k].key == k && peers[k].allowedIPs != []
    requires forall i | 0 <= i < |order| :: order[i] in peers && cs[i] == BuildAddConfig(peers[order[i]])
    ensures DistinctBy(cs, ConfigKey) && IndexBy(cs, ConfigKey) == Snapshot(peers)
  {
    assert forall i | 0 <= i < |cs| :: ConfigKey(cs[i]) == order[i];
    var m := IndexBy(cs, ConfigKey);
    forall k | k in peers ensures k in m {
      assert k in Elems(order);
      var i :| 0 <= i < |order| && order[i] == k;
      assert ConfigKey(cs[i]) == k;
    }
  }

  lemma RestartBatch(peers: map<string, Peer>, order: seq<string>)
    requires Listing(order, peers.Keys) && WellFormed(peers)
    ensures forall i | 0 <= i < |order| :: order[i] in peers
    ensures DistinctBy(RestartConfigs(InOrder(peers, order)), ConfigKey)
    ensures IndexBy(RestartConfigs(InOrder(peers, order)), ConfigKey) == Snapshot(peers)
  {
    RestartItems(peers, order);
    BatchOfOrder(peers, order, RestartConfigs(InOrder(peers, order)));
  }

  // Whatever the order, the kernel ends up with the stored peers, fresh counters,
  // and routes only to holders.
  lemma {:induction false} RestartConfigsEffect(peers: map<string, Peer>, cs: seq<PeerConfig>)
    requires DistinctBy(cs, ConfigKey)
    requires forall i | 0 <= i < |cs| ::
      cs[i].key in peers && peers[cs[i].key].key == cs[i].key && cs[i] == BuildAddConfig(peers[cs[i].key])
    ensures RoutesToHolders(peers, ApplyConfigs(EMPTY, cs).owner)
    ensures ApplyConfigs(EMPTY, cs).counters == Zeros(IndexBy(cs, ConfigKey).Keys)
  {
    if cs != [] {
      var n := |cs| - 1;
      IndexByPrefix(cs, n, ConfigKey);
      assert cs[..n+1] == cs;
      RestartConfigsEffect(peers, cs[..n]);
      var before := ApplyConfigs(EMPTY, cs[..n]);
      RerouteToHolder(peers, before.owner, peers[cs[n].key]);
      RecountZero(before.counters, IndexBy(cs[..n], ConfigKey), cs[n]);
    }
  }

  lemma RerouteToHolder(peers: map<string, Peer>, owner: map<Prefix, string>, p: Peer)
    requires RoutesToHolders(peers, owner) && p.key in peers && peers[p.key] == p
    ensures RoutesToHolders(peers, Reroute(owner, BuildAddConfig(p)))
  {}

  lemma RecountZero(counters: map<string, Counters>, batch: map<string, PeerConfig>, c: PeerConfig)
    requires !c.remove && counters == Zeros(batch.Keys)
    ensures Recount(counters, c) == Zeros(batch[c.key := c].Keys)
  {}

  lemma RestartKeepsGood(validKey: string -> bool, w: World, order: seq<string>, kernelOk: bool)
    requires Good(validKey, w) && Listing(order, w.index.peers.Keys)
    ensures Good(validKey, Restart(w, order, kernelOk).0)
    ensures Restart(w, order, kernelOk).1 != Failure(NoAllowedIPs)
    ensures Restart(w, order, kernelOk).1.Success? ==>
              Restart(w, order, kernelOk).0.device.counters == Zeros(w.index.peers.Keys)
  {
    if Restart(w, order, kernelOk).1.Success? {
      RestartDevice(w.index.peers, order);
    }
  }

  lemma RestartDevice(peers: map<string, Peer>, order: seq<string>)
    requires Listing(order, peers.Keys) && WellFormed(peers)
    ensures forall i | 0 <= i < |order| :: order[i] in peers
    ensures RoutesToHolders(peers, ApplyConfigs(EMPTY, RestartConfigs(InOrder(peers, order))).owner)
    ensures ApplyConfigs(EMPTY, RestartConfigs(InOrder(peers, order))).counters == Zeros(peers.Keys)
  {
    RestartItems(peers, order);
    RestartOrderEffect(peers, order, RestartConfigs(InOrder(peers, order)));
  }

  lemma RestartOrderEffect(peers: map<string, Peer>, order: seq<string>, cs: seq<PeerConfig>)
    requires Listing(order, peers.Keys) && WellFormed(peers) && |cs| == |order|
    requires forall i | 0 <= i < |order| :: order[i] in peers && cs[i] == BuildAddConfig(peers[order[i]])
    ensures RoutesToHolders(peers, ApplyConfigs(EMPTY, cs).owner)
    ensures ApplyConfigs(EMPTY, cs).counters == Zeros(peers.Keys)
  {
    BatchOfOrder(peers, order, cs);
    assert Snapshot(peers).Keys == peers.Keys;
    RestartConfigsEffect(peers, cs);
  }

  // Restart restores agreement exactly when no two stored peers hold the same prefix.
  lemma RestartAgreesIff(validKey: string -> bool, w: World, order: seq<string>, kernelOk: bool)
    requires Good(validKey, w) && Listing(order, w.index.peers.Keys) && Restart(w, order, kernelOk).1.Success?
    ensures Agree(Restart(w, order, kernelOk).0) <==> DisjointPrefixes(w.index.peers)
  {
    var peers, w' := w.index.peers, Restart(w, order, kernelOk).0;
    RestartKeepsGood(validKey, w, order, kernelOk);
    if DisjointPrefixes(peers) {
      RestartBatch(peers, order);
      SnapshotAgrees(peers);
      BatchSettles(EMPTY, RestartConfigs(InOrder(peers, order)));
    }
    if Agree(w') {
      forall j, k, p | Holds(peers, j, p) && Holds(peers, k, p) ensures j == k {}
    }
  }

  // ---- startup ----

  ghost function Startup(validKey: string -> bool, claims: map<string, Claim>): World
    requires Proper(validKey, claims) && !Clash(claims)
  {
    ProperDesired(validKey, claims);
    SnapshotExclusive(DesiredOf(claims));
    var desired := DesiredOf(claims);
    World(true, Index(desired, KeyByEmail(desired)), Settle(EMPTY, Snapshot(desired)), map[])
  }

  lemma StartupAgrees(validKey: string -> bool, claims: map<string, Claim>)
    requires Proper(validKey, claims) && !Clash(claims)
    ensures Good(validKey, Startup(validKey, claims)) && Agree(Startup(validKey, claims))
  {
    ProperDesired(validKey, claims);
    SnapshotAgrees(DesiredOf(claims));
    IndexOfWellFormed(DesiredOf(claims));
  }
}
