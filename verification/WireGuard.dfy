// The WireGuard backend object: store, kernel manager and statistics tracker behind one lock
// (node-main/backend/wireguard/wireguard.go, user.go, user_partial_sync.go, user_full_sync.go, jobs.go).
module WireGuards {
  import opened Prelude
  import opened Traffic
  import opened Claims
  import opened DesiredPeers
  import opened PeerStores
  import opened KernelDevice
  import opened SyncDiffs
  import opened StatsTracker
  import opened Reconcile
  import opened Backend

  datatype Lifecycle = StoppedState | Starting | Running

  // What the users of a request claim.
  ghost function RequestClaims(cfg: Config, users: seq<Option<User>>): map<string, Claim> {
    ClaimsOf(cfg, LastByEmail(users))
  }

  lemma RequestProper(cfg: Config, users: seq<Option<User>>)
    ensures Proper(cfg.validKey, RequestClaims(cfg, users))
  {}

  // ---- from store contents to the specification ----

  lemma TouchedAreDropped(validKey: string -> bool, peers: map<string, Peer>, desired: map<string, Peer>,
                          touched: set<string>)
    requires forall k | k in peers :: validKey(k)
    ensures Drops(validKey, Touched(peers, touched), desired).Keys == Touched(peers, touched).Keys - desired.Keys
  {}

  lemma UpsertsDistinct(peers: map<string, Peer>, desired: map<string, Peer>, touched: set<string>, upserts: seq<Peer>)
    requires WellFormed(desired) && DistinctBy(upserts, PeerKey)
    requires IndexBy(upserts, PeerKey) == UpsertsFor(Touched(peers, touched), desired)
    ensures DistinctBy(upserts, PeerEmail)
    ensures forall p :: p in upserts <==> p.key in UpsertsFor(Touched(peers, touched), desired) && p == desired[p.key]
  {
    IndexByElements(upserts, PeerKey);
    forall i, j | 0 <= i < j < |upserts| ensures PeerEmail(upserts[i]) != PeerEmail(upserts[j]) {
      assert upserts[i] in upserts && upserts[j] in upserts && PeerKey(upserts[i]) != PeerKey(upserts[j]);
      assert HasEmail(desired, upserts[i].key, upserts[i].email) && HasEmail(desired, upserts[j].key, upserts[j].email);
    }
  }

  // The removals and upserts of the diff turn the store into the joined peers.
  lemma StoreCommit(validKey: string -> bool, ix: Index, desired: map<string, Peer>, touched: set<string>,
                    removeKeys: seq<string>, upserts: seq<Peer>)
    requires Bijective(ix) && Joinable(validKey, ix.peers, desired, touched)
    requires Listing(removeKeys, Touched(ix.peers, touched).Keys - desired.Keys)
    requires DistinctBy(upserts, PeerKey)
             && IndexBy(upserts, PeerKey) == UpsertsFor(Touched(ix.peers, touched), desired)
    ensures OneKeyPerEmail(Joined(ix.peers, desired, touched))
    ensures UpsertAll(RemoveKeys(ix, removeKeys), upserts) ==
            Index(Joined(ix.peers, desired, touched), KeyByEmail(Joined(ix.peers, desired, touched)))
  {
    ChangesBijective(ix, removeKeys, []);
    UpsertsDistinct(ix.peers, desired, touched, upserts);
    UpsertAllPeers(RemoveKeys(ix, removeKeys), upserts);
    JoinedByChanges(validKey, ix.peers, desired, touched, Elems(removeKeys), upserts);
    BijectiveDetermined(UpsertAll(RemoveKeys(ix, removeKeys), upserts));
  }

  lemma JoinedByChanges(validKey: string -> bool, peers: map<string, Peer>, desired: map<string, Peer>,
                        touched: set<string>, gone: set<string>, upserts: seq<Peer>)
    requires Joinable(validKey, peers, desired, touched) && gone == Touched(peers, touched).Keys - desired.Keys
    requires forall p :: p in upserts <==> p.key in UpsertsFor(Touched(peers, touched), desired) && p == desired[p.key]
    ensures Others(peers - gone, upserts) + UpsertsFor(Touched(peers, touched), desired) ==
            Joined(peers, desired, touched)
  {
    var ups := UpsertsFor(Touched(peers, touched), desired);
    var a, b := Others(peers - gone, upserts) + ups, Joined(peers, desired, touched);
    forall k | k in b ensures k in a && a[k] == b[k] { JoinedIsChanged(validKey, peers, desired, touched, upserts, k); }
    forall k | k in a ensures k in b { ChangedIsJoined(peers, desired, touched, upserts, k); }
  }

  lemma JoinedIsChanged(validKey: string -> bool, peers: map<string, Peer>, desired: map<string, Peer>,
                        touched: set<string>, upserts: seq<Peer>, k: string)
    requires Joinable(validKey, peers, desired, touched) && k in Joined(peers, desired, touched)
    requires forall p :: p in upserts <==> p.key in UpsertsFor(Touched(peers, touched), desired) && p == desired[p.key]
    ensures var ups := UpsertsFor(Touched(peers, touched), desired);
            var m := Others(peers - (Touched(peers, touched).Keys - desired.Keys), upserts) + ups;
            k in m && m[k] == Joined(peers, desired, touched)[k]
  {
    if k !in UpsertsFor(Touched(peers, touched), desired) {
      KeptByUpserts(validKey, peers, desired, touched, upserts, k);
    }
  }

  lemma ChangedIsJoined(peers: map<string, Peer>, desired: map<string, Peer>, touched: set<string>,
                        upserts: seq<Peer>, k: string)
    requires k in Others(peers - (Touched(peers, touched).Keys - desired.Keys), upserts)
             || k in UpsertsFor(Touched(peers, touched), desired)
    ensures k in Joined(peers, desired, touched)
  {}

  // A joined peer that is not upserted was already there, and no upsert has its email.
  lemma KeptByUpserts(validKey: string -> bool, peers: map<string, Peer>, desired: map<string, Peer>,
                      touched: set<string>, upserts: seq<Peer>, k: string)
    requires Joinable(validKey, peers, desired, touched)
    requires forall p :: p in upserts <==> p.key in UpsertsFor(Touched(peers, touched), desired) && p == desired[p.key]
    requires k in Joined(peers, desired, touched) && k !in UpsertsFor(Touched(peers, touched), desired)
    ensures k in peers && peers[k] == Joined(peers, desired, touched)[k]
    ensures forall p | p in upserts :: p.email != peers[k].email
  {
    if k in desired {
      assert k in Touched(peers, touched) && peers[k] == desired[k];
      forall p | p in upserts ensures p.email != peers[k].email {
        assert HasEmail(desired, p.key, p.email) && HasEmail(desired, k, desired[k].email);
      }
    } else {
      forall p | p in upserts ensures p.email != peers[k].email { assert p.email in touched; }
    }
  }

  lemma RetireOneMore(ms: map<string, Meter>, ks: set<string>, k: string)
    ensures MarkDeleted(Retire(ms, ks), k) == Retire(ms, ks + {k})
  {}

  // An unchanged diff means that the store already holds the desired peers.
  lemma ChangedIff(validKey: string -> bool, peers: map<string, Peer>, desired: map<string, Peer>)
    requires WellFormed(peers) && WellFormed(desired) && forall k | k in peers :: validKey(k)
    ensures Drops(validKey, peers, desired).Keys == {} && UpsertsFor(peers, desired).Keys == {} <==> peers == desired
  {
    if Drops(validKey, peers, desired).Keys == {} && UpsertsFor(peers, desired).Keys == {} {
      forall k | k in peers ensures k in desired && peers[k] == desired[k] {
        assert k !in Drops(validKey, peers, desired).Keys;
        assert k !in UpsertsFor(peers, desired).Keys;
      }
      forall k | k in desired ensures k in peers { assert k !in UpsertsFor(peers, desired).Keys; }
    }
  }

  ghost function PushOutcome(w: World, plan: map<string, PeerConfig>, kernelOk: bool): Outcome {
    if plan.Keys != {} && !w.running then Failure(NotStarted)
    else if plan.Keys != {} && !kernelOk then Failure(KernelFailed)
    else Success
  }

  ghost predicate Answers(validKey: string -> bool, collected: Collected, claims: map<string, Claim>) {
    && Proper(validKey, claims) && (collected.Rejected? <==> Clash(claims))
    && (collected.Wanted? ==> collected.peers == DesiredOf(claims))
  }

  // The users of a request and the peers they ask for, or the clash between them.
  method CollectRequest(cfg: Config, users: seq<Option<User>>)
      returns (collected: Collected, touchedEmails: set<string>, ghost claims: map<string, Claim>)
    ensures claims == RequestClaims(cfg, users) && Answers(cfg.validKey, collected, RequestClaims(cfg, users))
    ensures touchedEmails == RequestClaims(cfg, users).Keys
  {
    RequestProper(cfg, users);
    claims := RequestClaims(cfg, users);
    var normalizedUsers := NormalizeUsers(users);
    ElementsNormal(normalizedUsers, users);
    touchedEmails := set u | u in normalizedUsers :: u.email;
    collected := CollectDesiredPeers(cfg, normalizedUsers, LastByEmail(users));
  }

  class WireGuard {
    const cfg: Config
    var manager: Manager?
    var state: Lifecycle
    const peerStore: PeerStore
    const statsTracker: Tracker

    ghost function View(): World
      requires statsTracker.Valid()
      reads this, manager, peerStore, statsTracker
    {
      World(state == Running && manager != null, peerStore.Contents(),
                  if manager == null then EMPTY else manager.device, statsTracker.Meters())
    }

    // A running backend has an open manager.
    ghost predicate Sound()
      reads this, manager, statsTracker
    {
      statsTracker.Valid() && (state == Running <==> manager != null) && (manager != null ==> manager.open)
    }

    // Good is the invariant of Reconcile.
    ghost predicate Valid()
      reads this, manager, peerStore, statsTracker
    {
      Sound() && Good(cfg.validKey, View())
    }

    constructor Assemble(cfg: Config, manager: Manager, peerStore: PeerStore, statsTracker: Tracker)
      ensures this.cfg == cfg && this.manager == manager && state == Running
      ensures this.peerStore == peerStore && this.statsTracker == statsTracker
    {
      this.cfg, this.manager, this.peerStore, this.statsTracker, state :=
        cfg, manager, peerStore, statsTracker, Running;
    }

    // Startup succeeds exactly for a usable private key, compatible users, a manager and an interface that
    // can be set up, and then store and kernel agree on the desired peers. `deleted` answers
    // the clean-up after a failed set-up.
    static method New(cfg: Config, users: seq<Option<User>>, leftover: Device, managerOk: bool, setup: Setup,
                      deleted: bool)
        returns (wg: WireGuard?)
      ensures wg != null <==> cfg.privateKeyOk && !Clash(RequestClaims(cfg, users)) && managerOk && setup.Ready?
      ensures wg != null ==> fresh(wg) && fresh(wg.manager) && fresh(wg.peerStore) && fresh(wg.statsTracker)
      ensures wg != null ==> wg.cfg == cfg && wg.Valid() && Proper(cfg.validKey, RequestClaims(cfg, users))
      ensures wg != null ==> wg.View() == Startup(cfg.validKey, RequestClaims(cfg, users))
    {
      if !cfg.privateKeyOk { return null; }
      var collected, _, claims := CollectRequest(cfg, users);
      if collected.Rejected? { return null; }
      if !managerOk { return null; }
      wg := Launch(cfg, collected, claims, leftover, setup, deleted);
    }

    // Startup from the diff against the empty store on.
    static method Launch(cfg: Config, collected: Collected, ghost claims: map<string, Claim>, leftover: Device,
                         setup: Setup, deleted: bool)
        returns (wg: WireGuard?)
      requires collected.Wanted? && Answers(cfg.validKey, collected, claims)
      ensures wg != null <==> setup.Ready?
      ensures wg != null ==> fresh(wg) && fresh(wg.manager) && fresh(wg.peerStore) && fresh(wg.statsTracker)
      ensures wg != null ==> wg.cfg == cfg && wg.Valid() && wg.View() == Startup(cfg.validKey, claims)
    {
      var desired := collected.peers;
      ProperDesired(cfg.validKey, claims);
      var manager, store := Equip(cfg, desired, leftover, setup, deleted);
      if manager == null { return null; }
      var tracker := new Tracker();
      StartupAgrees(cfg.validKey, claims);
      wg := new WireGuard.Assemble(cfg, manager, store, tracker);
    }

    // A manager whose kernel has the desired peers, and the store filled with them.
    static method Equip(cfg: Config, desired: map<string, Peer>, leftover: Device, setup: Setup, deleted: bool)
        returns (manager: Manager?, store: PeerStore)
      requires WellFormed(desired) && DisjointPrefixes(desired)
      ensures manager != null <==> setup.Ready?
      ensures fresh(store) && (manager != null ==> fresh(manager) && manager.open)
      ensures manager != null ==> Exclusive(Snapshot(desired)) && manager.device == Settle(EMPTY, Snapshot(desired))
      ensures manager != null ==> OneKeyPerEmail(desired) && store.Contents() == Index(desired, KeyByEmail(desired))
    {
      var diff := BuildSyncDiff(cfg.validKey, map[], desired);
      var configs, appliedKeys := BuildTargetPeerConfigs(diff.targetPeers);
      manager := Initialised(configs, desired, leftover, setup, deleted);
      if manager == null { store := new PeerStore(); return; }
      StartupParts(desired);
      var applied := FilterUpsertsByAppliedKeys(diff.upsertPeers, appliedKeys);
      store := Stocked(applied, desired);
    }

    static method Initialised(configs: seq<PeerConfig>, ghost desired: map<string, Peer>, leftover: Device,
                              setup: Setup, deleted: bool) returns (manager: Manager?)
      requires DisjointPrefixes(desired) && DistinctBy(configs, ConfigKey)
               && IndexBy(configs, ConfigKey) == Snapshot(desired)
      ensures manager != null <==> setup.Ready?
      ensures manager != null ==> fresh(manager) && manager.open
      ensures manager != null ==> Exclusive(Snapshot(desired)) && manager.device == Settle(EMPTY, Snapshot(desired))
    {
      manager := new Manager(leftover);
      SnapshotExclusive(desired);
      BatchSettles(EMPTY, configs);
      var ok := manager.InitializeWithPeers(configs, setup);
      if !ok {
        manager.Close(deleted);
        manager := null;
      }
    }

    static method Stocked(applied: seq<Peer>, ghost desired: map<string, Peer>) returns (store: PeerStore)
      requires WellFormed(desired) && DistinctBy(applied, PeerKey) && IndexBy(applied, PeerKey) == desired
      ensures fresh(store) && store.Contents() == Index(desired, KeyByEmail(desired))
    {
      store := new PeerStore();
      LoadedDistinct(applied);
      store.Init(applied);
    }

    // The stored peers of the touched users, keyed by public key.
    method BuildExistingPeersSubsetForTouched(touchedEmails: set<string>) returns (result: map<string, Peer>)
      requires Valid()
      ensures result == Touched(peerStore.peers, touchedEmails)
    {
      var order := AnyOrder(touchedEmails);
      ghost var peers := peerStore.peers;
      result := map[];
      for i := 0 to |order|
        invariant result == Touched(peers, Elems(order[..i]))
      {
        ElemsPrefix(order, i);
        var peer := peerStore.GetByEmail(order[i]);
        TouchedOneMore(peerStore.Contents(), Elems(order[..i]), order[i]);
        if peer.Some? { result := result[peer.value.key := peer.value]; }
      }
      assert order[..|order|] == order;
    }

    // No desired key belongs to a user outside the request.
    method CheckOwners(desired: map<string, Peer>, touchedEmails: set<string>) returns (ok: bool)
      ensures ok <==> !OwnedElsewhere(peerStore.peers, desired, touchedEmails)
    {
      var currentOwners := peerStore.GetEmailMap();
      var order := AnyOrder(desired.Keys);
      for i := 0 to |order|
        invariant forall k | k in Elems(order[..i]) && k in peerStore.peers ::
                    peerStore.peers[k].email == desired[k].email || peerStore.peers[k].email in touchedEmails
      {
        ElemsPrefix(order, i);
        var key := order[i];
        if key !in currentOwners || currentOwners[key] == desired[key].email { continue; }
        if currentOwners[key] !in touchedEmails { return false; }
      }
      assert order[..|order|] == order;
      return true;
    }

    method RemoveAllStats(removedKeys: seq<string>)
      requires statsTracker.Valid()
      modifies statsTracker
      ensures statsTracker.Valid() && statsTracker.Meters() == Retire(old(statsTracker.Meters()), Elems(removedKeys))
    {
      RetireNothing(statsTracker.Meters(), Elems(removedKeys[..0]));
      for i := 0 to |removedKeys|
        invariant statsTracker.Valid()
        invariant statsTracker.Meters() == Retire(old(statsTracker.Meters()), Elems(removedKeys[..i]))
      {
        ElemsPrefix(removedKeys, i);
        RetireOneMore(old(statsTracker.Meters()), Elems(removedKeys[..i]), removedKeys[i]);
        statsTracker.RemoveStats(removedKeys[i]);
      }
      assert removedKeys[..|removedKeys|] == removedKeys;
    }

    method SyncUsersPartialReconcile(users: seq<Option<User>>, kernelOk: bool) returns (r: Outcome)
      requires Valid()
      modifies manager, peerStore, statsTracker
      ensures Proper(cfg.validKey, RequestClaims(cfg, users)) && Valid()
      ensures View() == PartialSync(cfg.validKey, old(View()), RequestClaims(cfg, users), kernelOk).0
      ensures r == PartialSync(cfg.validKey, old(View()), RequestClaims(cfg, users), kernelOk).1
    {
      var collected, touchedEmails, claims := CollectRequest(cfg, users);
      PartialKeepsGood(cfg.validKey, View(), claims, kernelOk);
      r := ReconcileCollected(collected, touchedEmails, claims, kernelOk);
    }

    // A partial reconciliation once its request has been collected.
    method ReconcileCollected(collected: Collected, touchedEmails: set<string>, ghost claims: map<string, Claim>,
                              kernelOk: bool)
        returns (r: Outcome)
      requires Valid() && Answers(cfg.validKey, collected, claims) && touchedEmails == claims.Keys
      modifies manager, peerStore, statsTracker
      ensures Sound()
      ensures View() == PartialSync(cfg.validKey, old(View()), claims, kernelOk).0
      ensures r == PartialSync(cfg.validKey, old(View()), claims, kernelOk).1
    {
      var existing := BuildExistingPeersSubsetForTouched(touchedEmails);
      if collected.Rejected? { return Failure(SyncError.Refused); }
      var desired := collected.peers;
      ProperDesired(cfg.validKey, claims);
      var owned := CheckOwners(desired, touchedEmails);
      if !owned { return Failure(KeyOwned); }
      r := ApplyDiff(existing, desired, touchedEmails, kernelOk);
    }

    // The second half of a partial reconciliation: kernel, store, statistics.
    method ApplyDiff(existing: map<string, Peer>, desired: map<string, Peer>, ghost touched: set<string>,
                     kernelOk: bool) returns (r: Outcome)
      requires Valid() && Joinable(cfg.validKey, peerStore.peers, desired, touched)
      requires existing == Touched(peerStore.peers, touched)
      modifies manager, peerStore, statsTracker
      ensures Sound()
      ensures r == PushOutcome(old(View()), PlanOf(cfg.validKey, old(peerStore.peers), desired, touched), kernelOk)
      ensures View() == if r.Success? then PartialCommit(cfg.validKey, old(View()), desired, touched) else old(View())
    {
      var diff := BuildSyncDiff(cfg.validKey, existing, desired);
      PlanExclusive(cfg.validKey, existing, desired);
      r := PushConfigs(diff.peerConfigs, PlanOf(cfg.validKey, peerStore.peers, desired, touched), kernelOk);
      if r.Failure? { return; }
      TouchedAreDropped(cfg.validKey, peerStore.peers, desired, touched);
      CommitDiff(desired, touched, diff.removeKeys, diff.upsertPeers);
    }

    // The kernel call of a partial reconciliation, left out when there is nothing to send.
    method PushConfigs(configs: seq<PeerConfig>, ghost plan: map<string, PeerConfig>, kernelOk: bool)
        returns (r: Outcome)
      requires Sound()
      requires DistinctBy(configs, ConfigKey) && IndexBy(configs, ConfigKey) == plan && Exclusive(plan)
      modifies manager
      ensures Sound()
      ensures r == PushOutcome(old(View()), plan, kernelOk)
      ensures View() == if r.Success? then old(View()).(device := Settle(old(View()).device, plan)) else old(View())
    {
      BatchSettles(View().device, configs);
      EmptyPlan(configs, plan);
      if |configs| == 0 {
        assert plan == map[];
        SettleNothing(View().device);
        return Success;
      }
      if state != Running || manager == null { return Failure(NotStarted); }
      var ok := manager.ApplyPeers(configs, kernelOk);
      if !ok { return Failure(KernelFailed); }
      return Success;
    }

    // Store and statistics after the kernel has accepted a diff.
    method CommitDiff(ghost desired: map<string, Peer>, ghost touched: set<string>, removeKeys: seq<string>,
                      upsertPeers: seq<Peer>)
      requires statsTracker.Valid() && Bijective(peerStore.Contents())
      requires Joinable(cfg.validKey, peerStore.peers, desired, touched)
      requires Listing(removeKeys, Touched(peerStore.peers, touched).Keys - desired.Keys)
      requires DistinctBy(upsertPeers, PeerKey)
      requires IndexBy(upsertPeers, PeerKey) == UpsertsFor(Touched(peerStore.peers, touched), desired)
      modifies peerStore, statsTracker
      ensures statsTracker.Valid()
      ensures peerStore.peers == Joined(old(peerStore.peers), desired, touched)
      ensures OneKeyPerEmail(peerStore.peers) && peerStore.emailToKey == KeyByEmail(peerStore.peers)
      ensures statsTracker.Meters() ==
              Retire(old(statsTracker.Meters()), Touched(old(peerStore.peers), touched).Keys - desired.Keys)
    {
      StoreCommit(cfg.validKey, peerStore.Contents(), desired, touched, removeKeys, upsertPeers);
      ghost var gone := Touched(peerStore.peers, touched).Keys - desired.Keys;
      var removedKeys := peerStore.ApplyChanges(removeKeys, upsertPeers);
      assert Elems(removedKeys) == gone;
      RemoveAllStats(removedKeys);
    }

    method BuildExistingPeersByKeySnapshot() returns (existingByKey: map<string, Peer>)
      requires Valid()
      ensures existingByKey == peerStore.peers
    {
      var existingPeers, order := peerStore.GetAll();
      existingByKey := map[];
      for i := 0 to |existingPeers|
        invariant existingByKey == Restrict(peerStore.peers, Elems(order[..i]))
      {
        ElemsPrefix(order, i);
        RestrictOneMore(peerStore.peers, Elems(order[..i]), order[i]);
        existingByKey := existingByKey[existingPeers[i].key := existingPeers[i]];
      }
      assert order[..|order|] == order;
      RestrictAll(peerStore.peers, Elems(order));
    }

    method SyncUsersFull(users: seq<Option<User>>, kernelOk: bool) returns (r: Outcome)
      requires Valid()
      modifies manager, peerStore, statsTracker
      ensures Proper(cfg.validKey, RequestClaims(cfg, users)) && Valid()
      ensures View() == FullSync(cfg.validKey, old(View()), RequestClaims(cfg, users), kernelOk).0
      ensures r == FullSync(cfg.validKey, old(View()), RequestClaims(cfg, users), kernelOk).1
    {
      var collected, _, claims := CollectRequest(cfg, users);
      FullKeepsGood(cfg.validKey, View(), claims, kernelOk);
      r := SynchroniseCollected(collected, claims, kernelOk);
    }

    // A full synchronisation once its request has been collected.
    method SynchroniseCollected(collected: Collected, ghost claims: map<string, Claim>, kernelOk: bool)
        returns (r: Outcome)
      requires Valid() && Answers(cfg.validKey, collected, claims)
      modifies manager, peerStore, statsTracker
      ensures Sound()
      ensures View() == FullSync(cfg.validKey, old(View()), claims, kernelOk).0
      ensures r == FullSync(cfg.validKey, old(View()), claims, kernelOk).1
    {
      FullCases(cfg.validKey, View(), claims, kernelOk);
      if collected.Rejected? { return Failure(SyncError.Refused); }
      r := SynchroniseWith(collected.peers, kernelOk);
    }

    method SynchroniseWith(desired: map<string, Peer>, kernelOk: bool) returns (r: Outcome)
      requires Valid() && WellFormed(desired) && DisjointPrefixes(desired)
      modifies manager, peerStore, statsTracker
      ensures Sound()
      ensures View() == FullWith(old(View()), desired, kernelOk).0 && r == FullWith(old(View()), desired, kernelOk).1
    {
      var changed, targetPeers := DiffAgainstStore(desired);
      if !changed { return Success; }
      r := ReplaceEverything(targetPeers, kernelOk);
    }

    // A full synchronisation only needs to know whether there is a difference.
    method DiffAgainstStore(desired: map<string, Peer>) returns (changed: bool, targetPeers: map<string, Peer>)
      requires Valid() && WellFormed(desired)
      ensures targetPeers == desired && (changed <==> peerStore.peers != desired)
    {
      var existingByKey := BuildExistingPeersByKeySnapshot();
      var diff := BuildSyncDiff(cfg.validKey, existingByKey, desired);
      ChangedIff(cfg.validKey, peerStore.peers, desired);
      changed, targetPeers := diff.changed, diff.targetPeers;
    }

    // The second half of a full synchronisation.
    method ReplaceEverything(targetPeers: map<string, Peer>, kernelOk: bool) returns (r: Outcome)
      requires Valid() && WellFormed(targetPeers) && DisjointPrefixes(targetPeers)
      modifies manager, peerStore, statsTracker
      ensures Sound()
      ensures if !old(View()).running then View() == old(View()) && r == Failure(NotStarted)
              else if !kernelOk then View() == old(View()) && r == Failure(KernelFailed)
              else View() == Replaced(old(View()), targetPeers) && r == Success
    {
      var peerConfigs, appliedKeys := BuildTargetPeerConfigs(targetPeers);
      StartupParts(targetPeers);
      SnapshotExclusive(targetPeers);
      BatchSettles(EMPTY, peerConfigs);
      if state != Running || manager == null { return Failure(NotStarted); }
      var ok := manager.ApplyPeersReplaceAll(peerConfigs, kernelOk);
      if !ok { return Failure(KernelFailed); }
      CommitReplacement(targetPeers, appliedKeys);
      r := Success;
    }

    // Store and statistics after the kernel has accepted a full snapshot.
    method CommitReplacement(targetPeers: map<string, Peer>, appliedKeys: set<string>)
      requires statsTracker.Valid() && WellFormed(targetPeers) && appliedKeys == targetPeers.Keys
      modifies peerStore, statsTracker
      ensures statsTracker.Valid()
      ensures peerStore.peers == targetPeers && peerStore.emailToKey == KeyByEmail(targetPeers)
      ensures statsTracker.Meters() == Retire(old(statsTracker.Meters()), old(peerStore.peers).Keys - targetPeers.Keys)
    {
      RestrictAll(targetPeers, appliedKeys);
      var validTargetPeers := ValuesInOrder(Restrict(targetPeers, appliedKeys));
      LoadedDistinct(validTargetPeers);
      var removedKeys := peerStore.ReplaceAll(validTargetPeers);
      RemoveAllStats(removedKeys);
    }

    method RestartLocked(kernelOk: bool) returns (r: Outcome, ghost order: seq<string>)
      requires Valid()
      modifies manager
      ensures Valid() && Listing(order, old(peerStore.peers).Keys)
      ensures if !cfg.privateKeyOk then View() == old(View()) && r == Failure(BadPrivateKey)
              else View() == Restart(old(View()), order, kernelOk).0 && r == Restart(old(View()), order, kernelOk).1
    {
      ghost var w := View();
      var allPeers;
      allPeers, order := peerStore.GetAll();
      RestartKeepsGood(cfg.validKey, w, order, kernelOk);
      if !cfg.privateKeyOk { r := Failure(BadPrivateKey); return; }
      RestartDevice(peerStore.peers, order);
      assert allPeers == InOrder(peerStore.peers, order);
      var peerConfigs := BuildPeerConfigsForRestart(allPeers);
      if peerConfigs.None? { r := Failure(NoAllowedIPs); return; }
      if state != Running || manager == null { r := Failure(NotStarted); return; }
      var ok := manager.ApplyPeersReplaceAll(peerConfigs.value, kernelOk);
      if !ok { r := Failure(KernelFailed); return; }
      r := Success;
    }

    // ---- the public operations; the lock makes each of them one step ----

    method SyncUser(user: Option<User>, kernelOk: bool) returns (r: Outcome)
      requires Valid()
      modifies manager, peerStore, statsTracker
      ensures Proper(cfg.validKey, RequestClaims(cfg, [user])) && Valid()
      ensures user.None? ==> View() == old(View()) && r == Failure(NilUser)
      ensures user.Some? ==> View() == PartialSync(cfg.validKey, old(View()), RequestClaims(cfg, [user]), kernelOk).0
      ensures user.Some? ==> r == PartialSync(cfg.validKey, old(View()), RequestClaims(cfg, [user]), kernelOk).1
    {
      RequestProper(cfg, [user]);
      if user.None? { return Failure(NilUser); }
      r := SyncUsersPartialReconcile([user], kernelOk);
    }

    method UpdateUsersAndRestart(users: seq<Option<User>>, kernelOk: bool, restartOk: bool)
        returns (r: Outcome, ghost order: seq<string>)
      requires Valid()
      modifies manager, peerStore, statsTracker
      ensures Proper(cfg.validKey, RequestClaims(cfg, users)) && Valid()
      ensures PartialSync(cfg.validKey, old(View()), RequestClaims(cfg, users), kernelOk).1.Success? ==>
                Listing(order,
                        PartialSync(cfg.validKey, old(View()), RequestClaims(cfg, users), kernelOk).0.index.peers.Keys)
      ensures var mid := PartialSync(cfg.validKey, old(View()), RequestClaims(cfg, users), kernelOk);
              && (cfg.privateKeyOk ==>
                    View() == ThenRestart(mid, order, restartOk).0 && r == ThenRestart(mid, order, restartOk).1)
              && (!cfg.privateKeyOk ==>
                    View() == mid.0 && r == if mid.1.Success? then Failure(BadPrivateKey) else mid.1)
    {
      order := [];
      r := SyncUsersPartialReconcile(users, kernelOk);
      if r.Failure? { return; }
      r, order := RestartLocked(restartOk);
    }

    // The manager is gone either way; an interface that cannot be deleted stays behind unmanaged.
    method Shutdown(deleted: bool) returns (leftover: Device)
      requires Valid()
      modifies this, manager
      ensures Valid() && View() == Stopped(old(View())) && state == StoppedState && manager == null
      ensures View().index == old(View()).index && View().stats == old(View()).stats
      ensures !View().running && View().device.counters == map[] && View().device.owner == map[]
      ensures leftover == if deleted then EMPTY else old(View()).device
    {
      leftover := EMPTY;
      if manager != null {
        manager.Close(deleted);
        leftover := manager.device;
        manager := null;
      }
      state := StoppedState;
    }

    // One tick of the statistics loop without interruption; `handshaken` are the peers with a handshake. It holds no
    // lock between its three parts: the counters of the device, CollectSamples, ApplySamples.
    method UpdateConnectedPeers(readOk: bool, handshaken: set<string>, endpoints: map<string, string>, now: int)
      requires Valid()
      modifies statsTracker
      ensures Valid()
      ensures View() == if readOk || manager == null
                         then var w := old(View());
                              w.(stats := ObserveEach(w.stats, TickSamples(w, handshaken, endpoints), now))
                         else old(View())
      ensures readOk || manager == null ==>
                var w := old(View());
                && (forall k :: k in View().stats <==>
                     k in w.stats || (k in w.device.counters && k in handshaken && k in w.index.peers))
                && (forall k | k in w.device.counters && k in handshaken && k in w.index.peers ::
                     && View().stats[k].email == w.index.peers[k].email && !View().stats[k].deleted
                     && View().stats[k].seen == w.device.counters[k])
                && (forall k | k in w.stats && !(k in w.device.counters && k in handshaken && k in w.index.peers) ::
                     View().stats[k] == w.stats[k])
    {
      ghost var w := View();
      if manager == null {
        NoSamples(w, handshaken, endpoints, now);
        return;
      }
      if !readOk { return; }
      var counters := manager.device.counters;
      var samples := CollectSamples(counters, handshaken, endpoints);
      ApplySamples(samples, now);
    }

    // The last part of a tick, on samples that may be old.
    method ApplySamples(samples: seq<Sample>, now: int)
      requires Valid() && DistinctBy(samples, SampleKey)
      modifies statsTracker
      ensures Valid()
      ensures View() == old(View()).(stats := ObserveEach(old(View()).stats, IndexBy(samples, SampleKey), now))
    {
      BatchObservesEach(View().stats, samples, now);
      statsTracker.UpdateStatsBatch(samples, now);
    }

    // One sample for every connected peer of the device that the store knows.
    method CollectSamples(counters: map<string, Counters>, handshaken: set<string>, endpoints: map<string, string>)
        returns (samples: seq<Sample>)
      ensures DistinctBy(samples, SampleKey)
      ensures IndexBy(samples, SampleKey) == SamplesOf(counters, peerStore.peers, handshaken, endpoints)
      // Exactly the peers of the device with a handshake that the store knows, each with its own email.
      ensures forall s :: s in samples <==>
                && s.publicKey in counters && s.publicKey in handshaken && s.publicKey in peerStore.peers
                && s.email == peerStore.peers[s.publicKey].email && s.traffic == counters[s.publicKey]
                && s.endpointIP == if s.publicKey in endpoints then endpoints[s.publicKey] else ""
    {
      ghost var all := SamplesOf(counters, peerStore.peers, handshaken, endpoints);
      var emailByKey := peerStore.GetEmailMap();
      var order := AnyOrder(counters.Keys);
      samples := [];
      for i := 0 to |order|
        invariant Gathered(samples, SampleKey, all, Elems(order[..i]))
      {
        ElemsPrefix(order, i);
        var peerKey := order[i];
        if peerKey !in handshaken || peerKey !in emailByKey {
          GatherMiss(samples, SampleKey, all, Elems(order[..i]), peerKey);
          continue;
        }
        var sample := Sample(peerKey, emailByKey[peerKey], counters[peerKey],
                             if peerKey in endpoints then endpoints[peerKey] else "");
        GatherHit(samples, sample, SampleKey, all, Elems(order[..i]));
        samples := samples + [sample];
      }
      assert order[..|order|] == order;
      GatherAll(samples, SampleKey, all, counters.Keys);
      forall s: Sample { SamplesListed(samples, counters, peerStore.peers, handshaken, endpoints, s); }
    }

    // The statistics of one user, looked up by email.
    method HandleUserStats(email: string, reset: bool) returns (response: seq<Stat>, ghost keys: set<string>)
      requires Valid()
      modifies statsTracker
      ensures Valid() && forall k :: k in keys <==> k in peerStore.peers && peerStore.peers[k].email == email
      ensures View() == if reset then old(View()).(stats := Settled(old(View()).stats, keys)) else old(View())
      ensures Labelled(response, old(View()).stats) && Reports(response, old(View()).stats, keys)
    {
      ghost var w := View();
      var peer := peerStore.GetByEmail(email);
      if peer.None? {
        keys := {};
        assert Settled(w.stats, {}) == w.stats;
        return [], keys;
      }
      keys := {peer.value.key};
      OnlyHolder(peerStore.Contents(), peer.value.key);
      assert Elems([peer.value.key]) == keys;
      response := statsTracker.GetStats([peer.value.key], reset);
      if !reset { SingleRead(response, w.stats, peer.value.key); }
    }
  }

  lemma NoSamples(w: World, handshaken: set<string>, endpoints: map<string, string>, now: int)
    requires w.device.counters == map[]
    ensures w.(stats := ObserveEach(w.stats, TickSamples(w, handshaken, endpoints), now)) == w
  {
    assert ObserveEach(w.stats, TickSamples(w, handshaken, endpoints), now) == w.stats;
  }

  lemma OnlyHolder(ix: Index, k: string)
    requires Bijective(ix) && k in ix.peers
    ensures Touched(ix.peers, {ix.peers[k].email}).Keys == {k}
  {}

  lemma SingleRead(response: seq<Stat>, ms: map<string, Meter>, k: string)
    requires ReportsTimes(response, ms, multiset([k]))
    ensures Reports(response, ms, {k})
  {
    forall j, d ensures Total(response, j, d) == if j in {k} && j in ms then Along(ms[j].owed, d) else 0 {
      assert multiset([k])[j] == if j == k then 1 else 0;
    }
  }

  lemma ElementsNormal(normalized: seq<User>, users: seq<Option<User>>)
    requires DistinctBy(normalized, UserEmail) && IndexBy(normalized, UserEmail) == LastByEmail(users)
    ensures AllNormal(LastByEmail(users))
    ensures (set u | u in normalized :: u.email) == LastByEmail(users).Keys
  {
    IndexByElements(normalized, UserEmail);
    forall u | u in normalized ensures u.email in LastByEmail(users) {
      assert UserEmail(u) in IndexBy(normalized, UserEmail);
    }
    forall e | e in LastByEmail(users) ensures exists u :: u in normalized && u.email == e {
      assert IndexBy(normalized, UserEmail)[e] in normalized;
    }
  }

  lemma EmptyPlan(configs: seq<PeerConfig>, plan: map<string, PeerConfig>)
    requires DistinctBy(configs, ConfigKey) && IndexBy(configs, ConfigKey) == plan
    ensures |configs| == 0 <==> plan.Keys == {}
  {
    if |configs| > 0 { assert ConfigKey(configs[0]) in IndexBy(configs, ConfigKey); }
  }

  lemma StartupParts(desired: map<string, Peer>)
    requires WellFormed(desired)
    ensures UpsertsFor(map[], desired) == desired && Snapshot(desired).Keys == desired.Keys
    ensures Restrict(desired, desired.Keys) == desired
  {}

  lemma TouchedOneMore(ix: Index, es: set<string>, e: string)
    requires Bijective(ix)
    ensures Touched(ix.peers, es + {e}) ==
            if e in ix.emailToKey then Touched(ix.peers, es)[ix.emailToKey[e] := ix.peers[ix.emailToKey[e]]]
              else Touched(ix.peers, es)
  {}
}
