// The WireGuard kernel device as the manager drives it
// (node-main/backend/wireguard/manager.go), with cryptokey routing:
// a prefix routes to at most one peer, and assigning it moves it
// (section 2 of the WireGuard whitepaper).
module KernelDevice {
  import opened Prelude
  import Cidr
  import opened Traffic

  type Prefix = Cidr.Prefix

  // wgtypes.PeerConfig without the preshared key and the keepalive interval.
  datatype PeerConfig = PeerConfig(key: string, allowedIPs: seq<Prefix>, replaceAllowedIPs: bool, remove: bool)

  // `counters.Keys` are the peers of the device, `owner` maps a prefix to the peer it routes to.
  datatype Device = Device(owner: map<Prefix, string>, counters: map<string, Counters>)

  const EMPTY := Device(map[], map[])

  function ConfigKey(c: PeerConfig): string { c.key }

  function Release(owner: map<Prefix, string>, key: string): map<Prefix, string> {
    map p | p in owner && owner[p] != key :: owner[p]
  }

  function Assign(owner: map<Prefix, string>, ips: seq<Prefix>, key: string): map<Prefix, string> {
    owner + map p | p in ips :: key
  }

  function Reroute(owner: map<Prefix, string>, c: PeerConfig): map<Prefix, string> {
    if c.remove then Release(owner, c.key)
    else Assign(if c.replaceAllowedIPs then Release(owner, c.key) else owner, c.allowedIPs, c.key)
  }

  function Recount(counters: map<string, Counters>, c: PeerConfig): map<string, Counters> {
    if c.remove then counters - {c.key}
    else if c.key in counters then counters
    else counters[c.key := ZERO]
  }

  function ApplyConfig(d: Device, c: PeerConfig): Device {
    Device(Reroute(d.owner, c), Recount(d.counters, c))
  }

  // The device works through the peers of one ConfigureDevice call in order.
  function ApplyConfigs(d: Device, cs: seq<PeerConfig>): Device {
    if cs == [] then d else ApplyConfig(ApplyConfigs(d, cs[..|cs| - 1]), cs[|cs| - 1])
  }

  // ---- what a batch of configs does, whatever its order ----

  predicate KeyedBy(plan: map<string, PeerConfig>) {
    forall k | k in plan :: plan[k].key == k
  }

  predicate Gives(plan: map<string, PeerConfig>, k: string, p: Prefix) {
    k in plan && !plan[k].remove && p in plan[k].allowedIPs
  }

  // No prefix is claimed for two peers of the batch.
  ghost predicate Exclusive(plan: map<string, PeerConfig>) {
    forall j, k, p :: Gives(plan, j, p) && Gives(plan, k, p) ==> j == k
  }

  ghost function Routes(plan: map<string, PeerConfig>): (r: map<Prefix, string>)
    requires Exclusive(plan)
    ensures forall k, p :: Gives(plan, k, p) <==> p in r && r[p] == k
  {
    map k, p | k in plan && p in plan[k].allowedIPs && Gives(plan, k, p) :: p := k
  }

  predicate Releases(plan: map<string, PeerConfig>, k: string) {
    k in plan && (plan[k].remove || plan[k].replaceAllowedIPs)
  }

  function Kept(owner: map<Prefix, string>, plan: map<string, PeerConfig>): map<Prefix, string> {
    map p | p in owner && !Releases(plan, owner[p]) :: owner[p]
  }

  function Census(counters: map<string, Counters>, plan: map<string, PeerConfig>): map<string, Counters> {
    map k | k in counters.Keys + plan.Keys && !(k in plan && plan[k].remove) ::
      if k in counters then counters[k] else ZERO
  }

  // The device after a batch, read off the batch as a map: claimed prefixes go to their claimant,
  // prefixes of released peers are freed, removed peers and their counters are gone.
  ghost function Settle(d: Device, plan: map<string, PeerConfig>): Device
    requires Exclusive(plan)
  {
    Device(Kept(d.owner, plan) + Routes(plan),
           Census(d.counters, plan))
  }

  lemma SettleOneMore(d: Device, plan: map<string, PeerConfig>, c: PeerConfig)
    requires KeyedBy(plan) && c.key !in plan && Exclusive(plan) && Exclusive(plan[c.key := c])
    ensures ApplyConfig(Settle(d, plan), c) == Settle(d, plan[c.key := c])
  {
    OwnersOneMore(d.owner, plan, c);
    CensusOneMore(d.counters, plan, c);
  }

  lemma CensusOneMore(counters: map<string, Counters>, plan: map<string, PeerConfig>, c: PeerConfig)
    requires c.key !in plan
    ensures Census(counters, plan[c.key := c]) == Recount(Census(counters, plan), c)
  {
    var before, after := Census(counters, plan), Census(counters, plan[c.key := c]);
    if c.remove { assert after == before - {c.key}; }
    else if c.key in before { assert after == before; }
    else { assert after == before[c.key := ZERO]; }
  }

  lemma OwnersOneMore(owner: map<Prefix, string>, plan: map<string, PeerConfig>, c: PeerConfig)
    requires KeyedBy(plan) && c.key !in plan && Exclusive(plan) && Exclusive(plan[c.key := c])
    ensures Kept(owner, plan[c.key := c]) + Routes(plan[c.key := c]) == Reroute(Kept(owner, plan) + Routes(plan), c)
  {
    KeptOneMore(owner, plan, c);
    RoutesOneMore(plan, c);
    var kept, routes := Kept(owner, plan), Routes(plan);
    forall p | p in routes ensures routes[p] != c.key { assert Gives(plan, routes[p], p); }
    ReleaseSum(kept, routes, c.key);
    if !c.remove {
      var claimed := map p | p in c.allowedIPs :: c.key;
      SumAssociates(Kept(owner, plan[c.key := c]), routes, claimed);
    }
  }

  lemma KeptOneMore(owner: map<Prefix, string>, plan: map<string, PeerConfig>, c: PeerConfig)
    requires c.key !in plan
    ensures Kept(owner, plan[c.key := c]) ==
            if c.remove || c.replaceAllowedIPs then Release(Kept(owner, plan), c.key) else Kept(owner, plan)
  {
    forall k ensures Releases(plan[c.key := c], k) <==>
      Releases(plan, k) || (k == c.key && (c.remove || c.replaceAllowedIPs)) {}
  }

  lemma ReleaseSum(a: map<Prefix, string>, b: map<Prefix, string>, key: string)
    requires forall p | p in b :: b[p] != key
    ensures Release(a + b, key) == Release(a, key) + b
  {
    assert forall p | p in a + b :: (a + b)[p] == if p in b then b[p] else a[p];
  }

  lemma SumAssociates(a: map<Prefix, string>, b: map<Prefix, string>, c: map<Prefix, string>)
    ensures (a + b) + c == a + (b + c)
  {}

  lemma RoutesOneMore(plan: map<string, PeerConfig>, c: PeerConfig)
    requires c.key !in plan && Exclusive(plan) && Exclusive(plan[c.key := c])
    ensures Routes(plan[c.key := c]) ==
            if c.remove then Routes(plan) else Routes(plan) + map p | p in c.allowedIPs :: c.key
  {
    var more := plan[c.key := c];
    var claimed := if c.remove then map[] else map p | p in c.allowedIPs :: c.key;
    forall p ensures p in Routes(more) <==> p in Routes(plan) || p in claimed
             ensures p in claimed ==> p in Routes(more) && Routes(more)[p] == c.key
             ensures p in Routes(plan) && p !in claimed ==> p in Routes(more) && Routes(more)[p] == Routes(plan)[p]
    {
      assert p in claimed <==> Gives(more, c.key, p);
      if p in Routes(plan) { assert Gives(plan, Routes(plan)[p], p) && Gives(more, Routes(plan)[p], p); }
      if p in Routes(more) { assert Gives(more, Routes(more)[p], p); }
    }
  }

  lemma ExclusiveRestricted(plan: map<string, PeerConfig>, k: string, c: PeerConfig)
    requires k !in plan && Exclusive(plan[k := c])
    ensures Exclusive(plan)
  {
    forall j, p ensures Gives(plan, j, p) ==> Gives(plan[k := c], j, p) {}
  }

  // Confluence: configs with distinct keys and exclusive claims, in whatever order the map
  // iteration produced them, additions before or after removals, leave the same device.
  lemma {:induction false} BatchSettles(d: Device, cs: seq<PeerConfig>)
    requires DistinctBy(cs, ConfigKey) && Exclusive(IndexBy(cs, ConfigKey))
    ensures ApplyConfigs(d, cs) == Settle(d, IndexBy(cs, ConfigKey))
  {
    if cs == [] {
      assert Settle(d, map[]) == d;
    } else {
      var n := |cs| - 1;
      EarlierConfigs(cs);
      BatchSettles(d, cs[..n]);
      SettleOneMore(d, IndexBy(cs[..n], ConfigKey), cs[n]);
    }
  }

  lemma EarlierConfigs(cs: seq<PeerConfig>)
    requires cs != [] && DistinctBy(cs, ConfigKey) && Exclusive(IndexBy(cs, ConfigKey))
    ensures var last := cs[|cs| - 1];
            && DistinctBy(cs[..|cs| - 1], ConfigKey)
            && var earlier := IndexBy(cs[..|cs| - 1], ConfigKey);
               && KeyedBy(earlier) && Exclusive(earlier) && last.key !in earlier
               && IndexBy(cs, ConfigKey) == earlier[last.key := last]
  {
    var n := |cs| - 1;
    IndexByPrefix(cs, n, ConfigKey);
    assert cs[..n+1] == cs;
    ExclusiveRestricted(IndexBy(cs[..n], ConfigKey), cs[n].key, cs[n]);
  }

  // The same batch in two orders.
  lemma OrderIrrelevant(d: Device, cs: seq<PeerConfig>, cs': seq<PeerConfig>)
    requires DistinctBy(cs, ConfigKey) && Exclusive(IndexBy(cs, ConfigKey))
    requires multiset(cs) == multiset(cs')
    ensures ApplyConfigs(d, cs) == ApplyConfigs(d, cs')
  {
    SameBatch(cs, cs');
    BatchSettles(d, cs);
    BatchSettles(d, cs');
  }

  lemma SameBatch(cs: seq<PeerConfig>, cs': seq<PeerConfig>)
    requires DistinctBy(cs, ConfigKey) && multiset(cs) == multiset(cs')
    ensures DistinctBy(cs', ConfigKey) && IndexBy(cs, ConfigKey) == IndexBy(cs', ConfigKey)
  {
    forall c ensures c in cs <==> c in cs' { assert c in multiset(cs) <==> c in multiset(cs'); }
    forall i, j | 0 <= i < j < |cs'| ensures ConfigKey(cs'[i]) != ConfigKey(cs'[j]) {
      assert cs'[i] in cs && cs'[j] in cs;
      var a :| 0 <= a < |cs| && cs[a] == cs'[i];
      var b :| 0 <= b < |cs| && cs[b] == cs'[j];
      OnceOnly(cs, a);
      if cs'[i] == cs'[j] { TwiceAtLeast(cs', i, j); }
    }
    SameIndex(cs, cs');
  }

  lemma SameIndex(cs: seq<PeerConfig>, cs': seq<PeerConfig>)
    requires DistinctBy(cs, ConfigKey) && DistinctBy(cs', ConfigKey)
    requires forall c :: c in cs <==> c in cs'
    ensures IndexBy(cs, ConfigKey) == IndexBy(cs', ConfigKey)
  {
    var m, m' := IndexBy(cs, ConfigKey), IndexBy(cs', ConfigKey);
    IndexByElements(cs, ConfigKey);
    IndexByElements(cs', ConfigKey);
    forall k | k in m ensures k in m' && m'[k] == m[k] { assert m[k] in cs'; }
    forall k | k in m' ensures k in m { assert m'[k] in cs; }
  }

  lemma OnceOnly(cs: seq<PeerConfig>, a: nat)
    requires DistinctBy(cs, ConfigKey) && a < |cs|
    ensures multiset(cs)[cs[a]] == 1
  {
    assert cs == cs[..a] + [cs[a]] + cs[a+1..];
    forall x | x in cs[..a] || x in cs[a+1..] ensures x != cs[a] {
      if x in cs[..a] {
        var i :| 0 <= i < a && cs[i] == x;
        assert ConfigKey(cs[i]) != ConfigKey(cs[a]);
      } else {
        var i :| 0 <= i < |cs| - a - 1 && cs[a+1..][i] == x;
        assert ConfigKey(cs[a]) != ConfigKey(cs[a+1+i]);
      }
    }
  }

  lemma TwiceAtLeast(cs: seq<PeerConfig>, i: nat, j: nat)
    requires i < j < |cs| && cs[i] == cs[j]
    ensures multiset(cs)[cs[i]] >= 2
  {
    assert cs == cs[..i] + [cs[i]] + cs[i+1..j] + [cs[j]] + cs[j+1..];
  }

  // wgtypes.Config: replacePeers drops every peer, with its counters, before the listed ones are applied.
  datatype DeviceConfig = DeviceConfig(peers: seq<PeerConfig>, replacePeers: bool)

  function Configure(d: Device, cfg: DeviceConfig): Device {
    ApplyConfigs(if cfg.replacePeers then EMPTY else d, cfg.peers)
  }

  function BuildInitialWGConfig(peers: seq<PeerConfig>): (cfg: DeviceConfig)
    ensures Configure(EMPTY, cfg) == ApplyConfigs(EMPTY, peers)
  {
    if |peers| > 0 then DeviceConfig(peers, true) else DeviceConfig([], false)
  }

  // The environment's answer to setting up the interface: where it fails, and for a failure behind the
  // configuration whether the half-made interface can be deleted again.
  datatype Setup =
    | AddressRejected   // before anything is touched
    | LeftoverStays     // an old interface cannot be looked up or deleted
    | LinkRefused
    | ConfigRefused
    | LateFailure(deleted: bool)   // address or link-up
    | Ready

  // What is left of the device.
  function AfterSetup(leftover: Device, peers: seq<PeerConfig>, setup: Setup): Device {
    match setup
    case AddressRejected => leftover
    case LeftoverStays => leftover
    case LinkRefused => EMPTY
    case ConfigRefused => EMPTY
    case LateFailure(deleted) => if deleted then EMPTY else ApplyConfigs(EMPTY, peers)
    case Ready => ApplyConfigs(EMPTY, peers)
  }

  // `kernelOk` is the environment's answer to a kernel call, which either takes
  // full effect or leaves the device as it was.
  class Manager {
    var open: bool
    var device: Device

    constructor (leftover: Device)
      ensures open && device == leftover
    {
      open, device := true, leftover;
    }

    method ConfigureDevice(cfg: DeviceConfig, kernelOk: bool) returns (ok: bool)
      modifies this`device
      ensures ok == kernelOk
      ensures device == if kernelOk then Configure(old(device), cfg) else old(device)
    {
      if kernelOk { device := Configure(device, cfg); }
      return kernelOk;
    }

    // Deletes a leftover interface, creates a fresh one and configures it in one kernel call;
    // a failure behind its creation tries to remove the fresh interface again.
    method InitializeWithPeers(peers: seq<PeerConfig>, setup: Setup) returns (ok: bool)
      modifies this`device
      ensures ok == (open && setup.Ready?)
      ensures device == if open then AfterSetup(old(device), peers, setup) else old(device)
      ensures !open || setup.AddressRejected? || setup.LeftoverStays? ==> device == old(device)
      ensures open && (setup.LinkRefused? || setup.ConfigRefused?) ==> device == Device(map[], map[])
      ensures open && setup.LateFailure? && setup.deleted ==> device == Device(map[], map[])
      ensures open && (setup.Ready? || (setup.LateFailure? && !setup.deleted)) ==>
                device == ApplyConfigs(Device(map[], map[]), peers)
    {
      if !open { return false; }
      if setup.AddressRejected? { return false; }
      if setup.LeftoverStays? { return false; }
      device := EMPTY;
      if setup.LinkRefused? { return false; }
      ok := ConfigureDevice(BuildInitialWGConfig(peers), !setup.ConfigRefused?);
      if !ok { return; }
      if setup.LateFailure? {
        if setup.deleted { device := EMPTY; }
        return false;
      }
    }

    method ApplyPeers(peers: seq<PeerConfig>, kernelOk: bool) returns (ok: bool)
      modifies this`device
      ensures ok == (peers == [] || (open && kernelOk))
      ensures device == if ok then ApplyConfigs(old(device), peers) else old(device)
    {
      if |peers| == 0 { return true; }
      if !open { return false; }
      ok := ConfigureDevice(DeviceConfig(peers, false), kernelOk);
    }

    // Also the shape of the restart call through ApplyConfig, which sends every peer with replacePeers set.
    method ApplyPeersReplaceAll(peers: seq<PeerConfig>, kernelOk: bool) returns (ok: bool)
      modifies this`device
      ensures ok == (open && kernelOk)
      ensures device == if ok then ApplyConfigs(EMPTY, peers) else old(device)
    {
      if !open { return false; }
      ok := ConfigureDevice(DeviceConfig(peers, true), kernelOk);
    }

    // Closes the client and removes the interface with its peers, if it can be deleted.
    method Close(deleted: bool)
      modifies this
      ensures !open && device == if deleted then EMPTY else old(device)
    {
      open := false;
      if deleted { device := EMPTY; }
    }
  }
}
