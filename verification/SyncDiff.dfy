// The difference between stored and desired peers, as store changes and kernel configs
// (node-main/backend/wireguard/user_common.go).
module SyncDiffs {
  import opened Prelude
  import opened Claims
  import opened PeerStores
  import opened KernelDevice

  datatype SyncDiff = SyncDiff(removeKeys: seq<string>, upsertPeers: seq<Peer>, peerConfigs: seq<PeerConfig>,
                               targetPeers: map<string, Peer>, changed: bool)

  predicate Keyed(peers: map<string, Peer>) {
    forall k | k in peers :: peers[k].key == k
  }

  function BuildAddConfig(p: Peer): PeerConfig { PeerConfig(p.key, p.allowedIPs, false, false) }

  function BuildRemoveConfig(key: string): PeerConfig { PeerConfig(key, [], false, true) }

  // None is the error "peer has no allowed IPs".
  function BuildAddConfigFromPeerInfo(p: Peer): Option<PeerConfig> {
    if |p.allowedIPs| == 0 then None else Some(BuildAddConfig(p))
  }

  // ---- what the diff has to contain ----

  predicate Updated(existing: map<string, Peer>, desired: map<string, Peer>, k: string) {
    k in existing && k in desired && existing[k].allowedIPs != desired[k].allowedIPs && desired[k].allowedIPs != []
  }

  predicate Added(existing: map<string, Peer>, desired: map<string, Peer>, k: string) {
    k !in existing && k in desired && desired[k].allowedIPs != []
  }

  predicate Dropped(validKey: string -> bool, existing: map<string, Peer>, desired: map<string, Peer>, k: string) {
    k in existing && k !in desired && validKey(k)
  }

  predicate Renamed(existing: map<string, Peer>, desired: map<string, Peer>, k: string) {
    k in existing && k in desired && existing[k].allowedIPs == desired[k].allowedIPs
      && existing[k].email != desired[k].email
  }

  // The kernel config for key k: the desired prefixes, replacing those of a stored peer, or the removal.
  function ConfigFor(existing: map<string, Peer>, desired: map<string, Peer>, k: string): PeerConfig {
    if k in desired then PeerConfig(k, desired[k].allowedIPs, k in existing, false) else BuildRemoveConfig(k)
  }

  function Updates(existing: map<string, Peer>, desired: map<string, Peer>): map<string, PeerConfig> {
    map k | k in existing && Updated(existing, desired, k) :: ConfigFor(existing, desired, k)
  }

  function Adds(existing: map<string, Peer>, desired: map<string, Peer>): map<string, PeerConfig> {
    map k | k in desired && Added(existing, desired, k) :: ConfigFor(existing, desired, k)
  }

  function Drops(validKey: string -> bool, existing: map<string, Peer>,
                 desired: map<string, Peer>): map<string, PeerConfig> {
    map k | k in existing && Dropped(validKey, existing, desired, k) :: ConfigFor(existing, desired, k)
  }

  predicate Planned(validKey: string -> bool, existing: map<string, Peer>, desired: map<string, Peer>, k: string) {
    Updated(existing, desired, k) || Added(existing, desired, k) || Dropped(validKey, existing, desired, k)
  }

  // All kernel configs of a diff, by key.
  function PlanFor(validKey: string -> bool, existing: map<string, Peer>,
                   desired: map<string, Peer>): map<string, PeerConfig> {
    map k | k in existing.Keys + desired.Keys && Planned(validKey, existing, desired, k) ::
      ConfigFor(existing, desired, k)
  }

  function UpsertsFor(existing: map<string, Peer>, desired: map<string, Peer>): map<string, Peer> {
    desired - set k | k in desired
      && !(Updated(existing, desired, k) || Added(existing, desired, k) || Renamed(existing, desired, k))
  }

  // ---- building it ----

  // The comparison of two prefix lists, element by element.
  method IpnetsEqual(a: seq<Prefix>, b: seq<Prefix>) returns (equal: bool)
    ensures equal == (a == b)
  {
    if |a| != |b| { return false; }
    for i := 0 to |a|
      invariant a[..i] == b[..i]
    {
      if a[i] != b[i] { return false; }
    }
    return true;
  }

  function RemoveConfigs(validKey: string -> bool, removeSet: set<string>): map<string, PeerConfig> {
    map k | k in removeSet && validKey(k) :: BuildRemoveConfig(k)
  }

  method BuildRemoveConfigsForPeers(validKey: string -> bool, removeSet: set<string>)
      returns (validRemoveKeys: seq<string>, peerConfigs: seq<PeerConfig>)
    ensures Listing(validRemoveKeys, RemoveConfigs(validKey, removeSet).Keys)
    ensures DistinctBy(peerConfigs, ConfigKey)
    ensures IndexBy(peerConfigs, ConfigKey) == RemoveConfigs(validKey, removeSet)
  {
    var order := AnyOrder(removeSet);
    ghost var all := RemoveConfigs(validKey, removeSet);
    validRemoveKeys, peerConfigs := [], [];
    for i := 0 to |order|
      invariant Listing(validRemoveKeys, all.Keys * Elems(order[..i]))
      invariant Gathered(peerConfigs, ConfigKey, all, Elems(order[..i]))
    {
      ElemsPrefix(order, i);
      var key := order[i];
      ghost var ks := Elems(order[..i]);
      if !validKey(key) {
        GatherMiss(peerConfigs, ConfigKey, all, ks, key);
        assert all.Keys * (ks + {key}) == all.Keys * ks;
        continue;
      }
      GatherHit(peerConfigs, BuildRemoveConfig(key), ConfigKey, all, ks);
      ListingAppend(validRemoveKeys, all.Keys * ks, key);
      assert all.Keys * (ks + {key}) == all.Keys * ks + {key};
      peerConfigs := peerConfigs + [BuildRemoveConfig(key)];
      validRemoveKeys := validRemoveKeys + [key];
    }
    assert order[..|order|] == order;
    GatherAll(peerConfigs, ConfigKey, all, removeSet);
    assert all.Keys * removeSet == all.Keys;
  }

  // The peers that stay but change.
  function Changes(existing: map<string, Peer>, target: map<string, Peer>): map<string, Peer> {
    target - set k | k in target && !(Updated(existing, target, k) || Renamed(existing, target, k))
  }

  // The peers that are new.
  function News(existing: map<string, Peer>, target: map<string, Peer>): map<string, Peer> {
    target - set k | k in target && !Added(existing, target, k)
  }

  // The body of the pass over the stored peers for one that stays.
  method ComparePeer(existing: map<string, Peer>, target: map<string, Peer>, key: string)
      returns (upsert: bool, config: Option<PeerConfig>)
    requires Keyed(target) && key in existing && key in target
    ensures upsert <==> key in Changes(existing, target)
    ensures config.Some? <==> key in Updates(existing, target)
    ensures config.Some? ==> config.value == Updates(existing, target)[key]
  {
    upsert, config := false, None;
    var ipnetsEqual := IpnetsEqual(existing[key].allowedIPs, target[key].allowedIPs);
    if existing[key].email != target[key].email || !ipnetsEqual {
      if !ipnetsEqual {
        config := BuildAddConfigFromPeerInfo(target[key]);
        if config.None? { return; }
        config := Some(config.value.(replaceAllowedIPs := true));
      }
      upsert := true;
    }
  }

  // The pass over the stored peers: removals, changed prefixes, changed emails.
  method CompareExisting(existing: map<string, Peer>, target: map<string, Peer>)
      returns (removeSet: set<string>, upsertByKey: map<string, Peer>, configs: seq<PeerConfig>)
    requires Keyed(target)
    ensures removeSet == existing.Keys - target.Keys
    ensures upsertByKey == Changes(existing, target)
    ensures DistinctBy(configs, ConfigKey) && IndexBy(configs, ConfigKey) == Updates(existing, target)
  {
    var order := AnyOrder(existing.Keys);
    ghost var updates, changes := Updates(existing, target), Changes(existing, target);
    removeSet, upsertByKey, configs := {}, map[], [];
    for i := 0 to |order|
      invariant removeSet == Elems(order[..i]) - target.Keys
      invariant upsertByKey == Restrict(changes, Elems(order[..i]))
      invariant Gathered(configs, ConfigKey, updates, Elems(order[..i]))
    {
      ElemsPrefix(order, i);
      var key := order[i];
      ghost var ks := Elems(order[..i]);
      RestrictOneMore(changes, ks, key);
      if key !in target {
        GatherMiss(configs, ConfigKey, updates, ks, key);
        removeSet := removeSet + {key};
        continue;
      }
      var upsert, config := ComparePeer(existing, target, key);
      if upsert { upsertByKey := upsertByKey[key := target[key]]; }
      if config.Some? {
        GatherHit(configs, config.value, ConfigKey, updates, ks);
        configs := configs + [config.value];
      } else {
        GatherMiss(configs, ConfigKey, updates, ks, key);
      }
    }
    assert order[..|order|] == order;
    GatherAll(configs, ConfigKey, updates, existing.Keys);
    RestrictAll(changes, existing.Keys);
  }

  // The pass over the target: peers the store does not have.
  method CompareTarget(existing: map<string, Peer>, target: map<string, Peer>)
      returns (upsertByKey: map<string, Peer>, configs: seq<PeerConfig>)
    requires Keyed(target)
    ensures upsertByKey == News(existing, target)
    ensures DistinctBy(configs, ConfigKey) && IndexBy(configs, ConfigKey) == Adds(existing, target)
  {
    var order := AnyOrder(target.Keys);
    ghost var adds, news := Adds(existing, target), News(existing, target);
    upsertByKey, configs := map[], [];
    for i := 0 to |order|
      invariant upsertByKey == Restrict(news, Elems(order[..i]))
      invariant Gathered(configs, ConfigKey, adds, Elems(order[..i]))
    {
      ElemsPrefix(order, i);
      var key := order[i];
      ghost var ks := Elems(order[..i]);
      RestrictOneMore(news, ks, key);
      if key in existing || target[key].allowedIPs == [] { GatherMiss(configs, ConfigKey, adds, ks, key); }
      if key !in existing {
        var config := BuildAddConfigFromPeerInfo(target[key]);
        if config.None? { continue; }
        GatherHit(configs, config.value, ConfigKey, adds, ks);
        upsertByKey := upsertByKey[key := target[key]];
        configs := configs + [config.value];
      }
    }
    assert order[..|order|] == order;
    GatherAll(configs, ConfigKey, adds, target.Keys);
    RestrictAll(news, target.Keys);
  }

  // The values of a map of peers as a slice.
  method ValuesInOrder(peers: map<string, Peer>) returns (ps: seq<Peer>)
    requires Keyed(peers)
    ensures DistinctBy(ps, PeerKey) && IndexBy(ps, PeerKey) == peers
  {
    var order := AnyOrder(peers.Keys);
    ps := [];
    for i := 0 to |order|
      invariant Gathered(ps, PeerKey, peers, Elems(order[..i]))
    {
      ElemsPrefix(order, i);
      GatherHit(ps, peers[order[i]], PeerKey, peers, Elems(order[..i]));
      ps := ps + [peers[order[i]]];
    }
    assert order[..|order|] == order;
    GatherAll(ps, PeerKey, peers, peers.Keys);
  }

  // Kernel configs of a diff: updates and additions in map order, then the removals.
  lemma PlanParts(validKey: string -> bool, existing: map<string, Peer>, desired: map<string, Peer>,
                  updates: seq<PeerConfig>, adds: seq<PeerConfig>, drops: seq<PeerConfig>)
    requires DistinctBy(updates, ConfigKey) && IndexBy(updates, ConfigKey) == Updates(existing, desired)
    requires DistinctBy(adds, ConfigKey) && IndexBy(adds, ConfigKey) == Adds(existing, desired)
    requires DistinctBy(drops, ConfigKey)
             && IndexBy(drops, ConfigKey) == RemoveConfigs(validKey, existing.Keys - desired.Keys)
    ensures DistinctBy(updates + adds + drops, ConfigKey)
    ensures IndexBy(updates + adds + drops, ConfigKey) == PlanFor(validKey, existing, desired)
  {
    RemoveConfigsAreDrops(validKey, existing, desired);
    PlanSum(validKey, existing, desired);
    IndexByConcat(updates, adds, ConfigKey);
    IndexByConcat(updates + adds, drops, ConfigKey);
  }

  lemma PlanSum(validKey: string -> bool, existing: map<string, Peer>, desired: map<string, Peer>)
    ensures PlanFor(validKey, existing, desired) ==
            Updates(existing, desired) + Adds(existing, desired) + Drops(validKey, existing, desired)
    ensures forall k | k in Adds(existing, desired) :: k !in Updates(existing, desired)
    ensures forall k | k in Drops(validKey, existing, desired) ::
            k !in Updates(existing, desired) + Adds(existing, desired)
  {}

  method BuildSyncDiff(validKey: string -> bool, existing: map<string, Peer>, desired: map<string, Peer>)
      returns (diff: SyncDiff)
    requires Keyed(existing) && Keyed(desired)
    ensures Listing(diff.removeKeys, Drops(validKey, existing, desired).Keys)
    ensures DistinctBy(diff.upsertPeers, PeerKey) && IndexBy(diff.upsertPeers, PeerKey) == UpsertsFor(existing, desired)
    ensures DistinctBy(diff.peerConfigs, ConfigKey)
    ensures IndexBy(diff.peerConfigs, ConfigKey) == PlanFor(validKey, existing, desired)
    ensures diff.targetPeers == desired
    ensures diff.changed <==> Drops(validKey, existing, desired).Keys != {} || UpsertsFor(existing, desired).Keys != {}
  {
    var removeSet, changedPeers, updateConfigs := CompareExisting(existing, desired);
    var newPeers, addConfigs := CompareTarget(existing, desired);
    var removeKeys, removeConfigs := BuildRemoveConfigsForPeers(validKey, removeSet);
    PlanParts(validKey, existing, desired, updateConfigs, addConfigs, removeConfigs);
    RemoveConfigsAreDrops(validKey, existing, desired);
    UpsertParts(existing, desired);
    var upsertPeers := ValuesInOrder(changedPeers + newPeers);
    EmptyIndex(upsertPeers, changedPeers + newPeers);
    EmptyListing(removeKeys, Drops(validKey, existing, desired).Keys);
    diff := SyncDiff(removeKeys, upsertPeers, updateConfigs + addConfigs + removeConfigs, desired,
                     |removeKeys| > 0 || |upsertPeers| > 0);
  }

  lemma RemoveConfigsAreDrops(validKey: string -> bool, existing: map<string, Peer>, desired: map<string, Peer>)
    ensures RemoveConfigs(validKey, existing.Keys - desired.Keys) == Drops(validKey, existing, desired)
  {}

  lemma UpsertParts(existing: map<string, Peer>, desired: map<string, Peer>)
    ensures Changes(existing, desired) + News(existing, desired) == UpsertsFor(existing, desired)
    ensures Keyed(desired) ==> Keyed(UpsertsFor(existing, desired))
  {}

  lemma EmptyListing(order: seq<string>, ks: set<string>)
    requires Listing(order, ks)
    ensures |order| == 0 <==> ks == {}
  {
    if |order| > 0 { assert order[0] in Elems(order); }
  }

  lemma EmptyIndex(ps: seq<Peer>, m: map<string, Peer>)
    requires DistinctBy(ps, PeerKey) && IndexBy(ps, PeerKey) == m
    ensures |ps| == 0 <==> m.Keys == {}
  {
    if |ps| > 0 { assert PeerKey(ps[0]) in IndexBy(ps, PeerKey); }
  }

  // ---- full snapshots ----

  function Snapshot(peers: map<string, Peer>): map<string, PeerConfig> {
    map k | k in peers && peers[k].allowedIPs != [] :: PeerConfig(k, peers[k].allowedIPs, false, false)
  }

  // Peers without prefixes are quarantined; the second result names the others.
  method BuildTargetPeerConfigs(targetPeers: map<string, Peer>)
      returns (configs: seq<PeerConfig>, appliedKeys: set<string>)
    requires Keyed(targetPeers)
    ensures DistinctBy(configs, ConfigKey) && IndexBy(configs, ConfigKey) == Snapshot(targetPeers)
    ensures appliedKeys == Snapshot(targetPeers).Keys
  {
    var order := AnyOrder(targetPeers.Keys);
    ghost var all := Snapshot(targetPeers);
    configs, appliedKeys := [], {};
    for i := 0 to |order|
      invariant Gathered(configs, ConfigKey, all, Elems(order[..i]))
      invariant appliedKeys == all.Keys * Elems(order[..i])
    {
      ElemsPrefix(order, i);
      var config := BuildAddConfigFromPeerInfo(targetPeers[order[i]]);
      if config.None? {
        GatherMiss(configs, ConfigKey, all, Elems(order[..i]), order[i]);
        continue;
      }
      GatherHit(configs, config.value, ConfigKey, all, Elems(order[..i]));
      configs := configs + [config.value];
      appliedKeys := appliedKeys + {order[i]};
    }
    assert order[..|order|] == order;
    GatherAll(configs, ConfigKey, all, targetPeers.Keys);
    assert all.Keys * targetPeers.Keys == all.Keys;
  }

  // The fast path compares sizes only, which is sound because applied keys come from the upserts.
  method FilterUpsertsByAppliedKeys(upserts: seq<Peer>, appliedKeys: set<string>) returns (filtered: seq<Peer>)
    requires DistinctBy(upserts, PeerKey) && appliedKeys <= IndexBy(upserts, PeerKey).Keys
    ensures DistinctBy(filtered, PeerKey)
    ensures IndexBy(filtered, PeerKey) == Restrict(IndexBy(upserts, PeerKey), appliedKeys)
  {
    ghost var all := IndexBy(upserts, PeerKey);
    ghost var kept := Restrict(all, appliedKeys);
    if |appliedKeys| == |upserts| {
      IndexSize(upserts);
      SameSize(appliedKeys, all.Keys);
      RestrictAll(all, appliedKeys);
      return upserts;
    }
    filtered := [];
    IndexByElements(upserts, PeerKey);
    for i := 0 to |upserts|
      invariant DistinctBy(upserts[..i], PeerKey)
      invariant Gathered(filtered, PeerKey, kept, IndexBy(upserts[..i], PeerKey).Keys)
    {
      IndexByPrefix(upserts, i, PeerKey);
      ghost var ks := IndexBy(upserts[..i], PeerKey).Keys;
      assert IndexBy(upserts[..i+1], PeerKey).Keys == ks + {upserts[i].key};
      assert upserts[i] in upserts;
      if upserts[i].key in appliedKeys {
        GatherHit(filtered, upserts[i], PeerKey, kept, ks);
        filtered := filtered + [upserts[i]];
      } else {
        GatherMiss(filtered, PeerKey, kept, ks, upserts[i].key);
      }
    }
    assert upserts[..|upserts|] == upserts;
    GatherAll(filtered, PeerKey, kept, all.Keys);
  }

  lemma {:induction false} IndexSize(ps: seq<Peer>)
    requires DistinctBy(ps, PeerKey)
    ensures |IndexBy(ps, PeerKey).Keys| == |ps|
  {
    if ps != [] {
      var n := |ps| - 1;
      IndexByPrefix(ps, n, PeerKey);
      assert ps[..n+1] == ps;
      IndexSize(ps[..n]);
      assert IndexBy(ps, PeerKey).Keys == IndexBy(ps[..n], PeerKey).Keys + {ps[n].key};
    }
  }

  lemma SameSize(a: set<string>, b: set<string>)
    requires a <= b && |a| == |b|
    ensures a == b
  {
    if x :| x in b && x !in a {
      SubsetSize(a, b - {x});
    }
  }

  lemma {:induction false} SubsetSize(a: set<string>, b: set<string>)
    requires a <= b
    ensures |a| <= |b|
  {
    if x :| x in a { SubsetSize(a - {x}, b - {x}); }
  }

  // The restart list; None is the error "peer has no allowed IPs".
  method BuildPeerConfigsForRestart(peers: seq<Peer>) returns (configs: Option<seq<PeerConfig>>)
    ensures configs.None? <==> exists i | 0 <= i < |peers| :: peers[i].allowedIPs == []
    ensures configs.Some? ==> configs.value == RestartConfigs(peers)
  {
    var out: seq<PeerConfig> := [];
    for i := 0 to |peers|
      invariant forall j | 0 <= j < i :: peers[j].allowedIPs != []
      invariant out == RestartConfigs(peers[..i])
    {
      if |peers[i].allowedIPs| == 0 { return None; }
      assert peers[..i+1][..i] == peers[..i];
      out := out + [BuildAddConfig(peers[i])];
    }
    assert peers[..|peers|] == peers;
    return Some(out);
  }

  function RestartConfigs(peers: seq<Peer>): seq<PeerConfig> {
    seq(|peers|, i requires 0 <= i < |peers| => BuildAddConfig(peers[i]))
  }
}
