// Runs of the WireGuard backend: every request, the kernel's traffic and the statistics reads,
// in any order (node-main/backend/wireguard/user.go, wireguard.go, jobs.go, stats.go).
module Backend {
  import opened Prelude
  import opened Traffic
  import opened Claims
  import opened PeerStores
  import opened KernelDevice
  import opened SyncDiffs
  import opened StatsTracker
  import opened Reconcile

  // A request that reconciles users carries what its users claim; see DesiredPeers.ClaimsOf.
  // `kernelOk` is the kernel's answer, `order` the order in which a restart sends the peers.
  datatype Step =
    | UpdateUsers(claims: map<string, Claim>, kernelOk: bool)
    | SyncUsers(claims: map<string, Claim>, kernelOk: bool)
    | UpdateUsersAndRestart(claims: map<string, Claim>, kernelOk: bool, order: seq<string>, restartOk: bool)
    | RestartAll(order: seq<string>, kernelOk: bool)
    | Shutdown
    | ReadDevice(handshaken: set<string>, endpoints: map<string, string>)   // a tick reads the kernel counters,
    | ReadEmails                // labels them with the emails of the store
    | ApplySamples(now: int)    // and hands the samples to the tracker;
    | AbandonTick               // or it gives up on the way
    | Read(keys: set<string>)   // a resetting read
    | CleanUp
    | Flow(key: string, bytes: Counters)   // the kernel moves traffic of a peer

  // How far the statistics loop is in a tick, which holds no lock across its reads. `live` are the
  // peers whose statistics entry was live when the device was read.
  datatype Tick =
    | Idle
    | DeviceRead(counters: map<string, Counters>, handshaken: set<string>, endpoints: map<string, string>,
                 live: set<string>)
    | EmailsRead(samples: map<string, Sample>, live: set<string>)

  // `truth` is what each peer ever transferred, `booked` what resetting reads returned.
  datatype System = System(world: World, tick: Tick, truth: map<string, Counters>, booked: map<string, Counters>)

  function CounterOf(m: map<string, Counters>, k: string): Counters { if k in m then m[k] else ZERO }

  // ---- the steps that are not reconciliation ----

  function Stopped(w: World): World { w.(running := false, device := EMPTY) }

  // The samples of one statistics tick: connected peers of the device that the store knows.
  function SamplesOf(counters: map<string, Counters>, peers: map<string, Peer>,
                     handshaken: set<string>, endpoints: map<string, string>): map<string, Sample> {
    map k | k in counters && k in handshaken && k in peers ::
      Sample(k, peers[k].email, counters[k], if k in endpoints then endpoints[k] else "")
  }

  function TickSamples(w: World, handshaken: set<string>, endpoints: map<string, string>): map<string, Sample> {
    SamplesOf(w.device.counters, w.index.peers, handshaken, endpoints)
  }

  function LivePeers(ms: map<string, Meter>): set<string> { set k | k in ms && !ms[k].deleted }

  function Ticked(w: World, tick: Tick, step: Step): Tick {
    match step
    case ReadDevice(handshaken, endpoints) => DeviceRead(w.device.counters, handshaken, endpoints, LivePeers(w.stats))
    case ReadEmails =>
      if tick.DeviceRead?
      then EmailsRead(SamplesOf(tick.counters, w.index.peers, tick.handshaken, tick.endpoints), tick.live) else tick
    case ApplySamples(_) => Idle
    case AbandonTick => Idle
    case _ => tick
  }

  function ObserveEach(ms: map<string, Meter>, samples: map<string, Sample>, now: int): map<string, Meter> {
    map k | k in ms.Keys + samples.Keys :: if k in samples then Observe(At(ms, k), samples[k], now) else ms[k]
  }

  function SampleKey(s: Sample): string { s.publicKey }

  // The samples of a tick are one for each peer of the device with a handshake that the store knows, with
  // the email it has there and its own counter.
  lemma SamplesListed(samples: seq<Sample>, counters: map<string, Counters>, peers: map<string, Peer>,
                      handshaken: set<string>, endpoints: map<string, string>, s: Sample)
    requires DistinctBy(samples, SampleKey)
    requires IndexBy(samples, SampleKey) == SamplesOf(counters, peers, handshaken, endpoints)
    ensures s in samples <==>
              && s.publicKey in counters && s.publicKey in handshaken && s.publicKey in peers
              && s.email == peers[s.publicKey].email && s.traffic == counters[s.publicKey]
              && s.endpointIP == if s.publicKey in endpoints then endpoints[s.publicKey] else ""
  {
    IndexByElements(samples, SampleKey);
    var all := SamplesOf(counters, peers, handshaken, endpoints);
    if s in samples { assert SampleKey(s) in all && all[s.publicKey] == s; }
    if s.publicKey in all { assert all[s.publicKey] in samples && all[s.publicKey].publicKey == s.publicKey; }
  }

  // A batch with one sample per peer observes each of them, in any order.
  lemma {:induction false} BatchObservesEach(ms: map<string, Meter>, samples: seq<Sample>, now: int)
    requires DistinctBy(samples, SampleKey)
    ensures ObserveAll(ms, samples, now) == ObserveEach(ms, IndexBy(samples, SampleKey), now)
  {
    if samples == [] {
      assert ObserveEach(ms, IndexBy(samples, SampleKey), now) == ms;
    } else {
      var n := |samples| - 1;
      IndexByPrefix(samples, n, SampleKey);
      assert samples[..n+1] == samples;
      BatchObservesEach(ms, samples[..n], now);
      ObserveOneMore(ms, IndexBy(samples[..n], SampleKey), samples[n], now);
    }
  }

  lemma ObserveOneMore(ms: map<string, Meter>, batch: map<string, Sample>, s: Sample, now: int)
    requires s.publicKey !in batch
    ensures ObserveAt(ObserveEach(ms, batch, now), s, now) == ObserveEach(ms, batch[s.publicKey := s], now)
  {}

  // ---- one step ----

  // A restart after a partial reconciliation that succeeded.
  ghost function ThenRestart(mid: (World, Outcome), order: seq<string>, restartOk: bool): (World, Outcome)
    requires mid.1.Success? ==> Listing(order, mid.0.index.peers.Keys)
  {
    if mid.1.Success? then Restart(mid.0, order, restartOk) else mid
  }

  // When the step can be taken and which state of the backend it leaves.
  ghost predicate Moves(validKey: string -> bool, w: World, tick: Tick, step: Step, w': World)
    requires Good(validKey, w)
  {
    match step
    case UpdateUsers(claims, ok) => Proper(validKey, claims) && w' == PartialSync(validKey, w, claims, ok).0
    case SyncUsers(claims, ok) => Proper(validKey, claims) && w' == FullSync(validKey, w, claims, ok).0
    case UpdateUsersAndRestart(claims, ok, order, restartOk) =>
      && Proper(validKey, claims)
      && (PartialSync(validKey, w, claims, ok).1.Success? ==>
           Listing(order, PartialSync(validKey, w, claims, ok).0.index.peers.Keys))
      && w' == ThenRestart(PartialSync(validKey, w, claims, ok), order, restartOk).0
    case RestartAll(order, ok) => Listing(order, w.index.peers.Keys) && w' == Restart(w, order, ok).0
    case Shutdown => w' == Stopped(w)
    case ReadDevice(_, _) => tick.Idle? && w' == w
    case ReadEmails => tick.DeviceRead? && w' == w
    case ApplySamples(now) => tick.EmailsRead? && w' == w.(stats := ObserveEach(w.stats, tick.samples, now))
    case AbandonTick => w' == w
    case Read(keys) => w' == w.(stats := Settled(w.stats, keys))
    case CleanUp => tick.Idle? && w' == w.(stats := CleanedUp(w.stats))   // the same loop as the ticks
    case Flow(key, bytes) =>
      && key in w.device.counters
      && w' == w.(device := w.device.(counters := w.device.counters[key := Plus(w.device.counters[key], bytes)]))
  }

  ghost predicate Next(validKey: string -> bool, s: System, step: Step, s': System)
    requires Good(validKey, s.world)
  {
    && Moves(validKey, s.world, s.tick, step, s'.world) && s'.tick == Ticked(s.world, s.tick, step)
    && s'.truth == (if step.Flow? then s.truth[step.key := Plus(CounterOf(s.truth, step.key), step.bytes)] else s.truth)
    && s'.booked == (if step.Read? then BookAll(s.booked, s.world.stats, step.keys) else s.booked)
  }

  function BookAll(booked: map<string, Counters>, ms: map<string, Meter>, ks: set<string>): map<string, Counters> {
    map k | k in booked.Keys + ms.Keys ::
      if k in ms && k in ks then Plus(CounterOf(booked, k), ms[k].owed) else CounterOf(booked, k)
  }

  // ---- the invariant ----

  // What has been booked or is owed, together with what the current kernel counter still holds
  // beyond the tracker's view of it, stays within the true bytes.
  predicate Fair(s: System, k: string, d: Direction) {
    var m, c := At(s.world.stats, k), CounterOf(s.world.device.counters, k);
    var accounted := if k in s.world.stats && !m.deleted then Along(Lesser(m.seen, c), d) else 0;
    Along(CounterOf(s.booked, k), d) + Along(m.owed, d) + Along(c, d) <= Along(CounterOf(s.truth, k), d) + accounted
  }

  // The counter of peer k that a tick under way has read.
  function Pending(tick: Tick, k: string): Option<Counters> {
    match tick
    case Idle => None
    case DeviceRead(counters, _, _, _) => if k in counters then Some(counters[k]) else None
    case EmailsRead(samples, _) => if k in samples then Some(samples[k].traffic) else None
  }

  predicate LiveAtRead(tick: Tick, k: string) { !tick.Idle? && k in tick.live }

  // What applying the counter t to peer k books at most. A peer that was not live when the device was
  // read may have been forgotten since, and then t counts in full.
  function Stale(s: System, k: string, t: Counters): Counters {
    if LiveAtRead(s.tick, k) then Credit(At(s.world.stats, k), t) else t
  }

  // The same for the tick under way: it may still book what it has read, unless the peer was live then
  // and has been forgotten since.
  predicate FairAfterTick(s: System, k: string, d: Direction) {
    var t, c := Pending(s.tick, k), CounterOf(s.world.device.counters, k);
    t.Some? && (LiveAtRead(s.tick, k) ==> k in s.world.stats) ==>
      Along(CounterOf(s.booked, k), d) + Along(At(s.world.stats, k).owed, d) + Along(Stale(s, k, t.value), d)
        + Along(c, d)
      <= Along(CounterOf(s.truth, k), d) + Along(Lesser(t.value, c), d)
  }

  predicate Accounted(s: System, k: string) {
    && Fair(s, k, Uplink) && Fair(s, k, Downlink)
    && FairAfterTick(s, k, Uplink) && FairAfterTick(s, k, Downlink)
  }

  ghost predicate Initial(validKey: string -> bool, s: System) {
    exists claims :: Proper(validKey, claims) && !Clash(claims)
      && s == System(Startup(validKey, claims), Idle, map[], map[])
  }

  lemma InitialState(validKey: string -> bool, s: System, k: string)
    requires Initial(validKey, s)
    ensures Good(validKey, s.world) && Agree(s.world) && Accounted(s, k)
            && CounterOf(s.world.device.counters, k) == ZERO
  {
    var claims :| Proper(validKey, claims) && !Clash(claims)
      && s == System(Startup(validKey, claims), Idle, map[], map[]);
    StartupAgrees(validKey, claims);
    ProperDesired(validKey, claims);
    FreshCounters(DesiredOf(claims));
    StartFair(s, k, Uplink);
    StartFair(s, k, Downlink);
  }

  lemma StartFair(s: System, k: string, d: Direction)
    requires s.world.stats == map[] && s.truth == map[] && s.booked == map[]
             && CounterOf(s.world.device.counters, k) == ZERO
    ensures Fair(s, k, d)
  {}

  lemma FreshCounters(desired: map<string, Peer>)
    requires WellFormed(desired) && DisjointPrefixes(desired)
    ensures Exclusive(Snapshot(desired))
    ensures forall k :: CounterOf(Settle(EMPTY, Snapshot(desired)).counters, k) == ZERO
  {
    SnapshotAgrees(desired);
  }

  lemma MovesKeepGood(validKey: string -> bool, w: World, tick: Tick, step: Step, w': World)
    requires Good(validKey, w) && Moves(validKey, w, tick, step, w')
    ensures Good(validKey, w')
  {
    match step
    case UpdateUsers(claims, ok) => PartialKeepsGood(validKey, w, claims, ok);
    case SyncUsers(claims, ok) => FullKeepsGood(validKey, w, claims, ok);
    case UpdateUsersAndRestart(claims, ok, order, restartOk) =>
      PartialKeepsGood(validKey, w, claims, ok);
      if PartialSync(validKey, w, claims, ok).1.Success? {
        RestartKeepsGood(validKey, PartialSync(validKey, w, claims, ok).0, order, restartOk);
      }
    case RestartAll(order, ok) => RestartKeepsGood(validKey, w, order, ok);
    case _ =>
  }

  // ---- counters across reconciliation ----

  // A reconciliation lets the counter of a peer run on or starts it again, and it marks
  // statistics as deleted only for peers the kernel no longer has.
  ghost predicate Restarts(w: World, w': World) {
    && w'.stats.Keys == w.stats.Keys
    && forall k :: CounterOf(w'.device.counters, k) in {CounterOf(w.device.counters, k), ZERO}
                && (k in w.stats && w'.stats[k] != w.stats[k] ==>
                     w'.stats[k] == w.stats[k].(deleted := true, lastActive := None) && k !in w'.device.counters)
  }

  lemma RestartsTwice(w: World, mid: World, w': World)
    requires Restarts(w, mid) && Restarts(mid, w') && w'.stats == mid.stats
             && (w'.device.counters.Keys <= mid.device.counters.Keys)
    ensures Restarts(w, w')
  {
    forall k ensures CounterOf(w'.device.counters, k) in {CounterOf(w.device.counters, k), ZERO} {
      assert CounterOf(mid.device.counters, k) in {CounterOf(w.device.counters, k), ZERO};
    }
  }

  lemma PartialRestarts(validKey: string -> bool, w: World, claims: map<string, Claim>, ok: bool)
    requires Good(validKey, w) && Proper(validKey, claims)
    ensures Restarts(w, PartialSync(validKey, w, claims, ok).0)
  {
    if PartialSync(validKey, w, claims, ok).1.Success? {
      PartialSucceeded(validKey, w, claims, ok);
      PartialKeepsGood(validKey, w, claims, ok);
      CommitRestarts(validKey, w, DesiredOf(claims), claims.Keys);
    }
  }

  lemma CommitRestarts(validKey: string -> bool, w: World, desired: map<string, Peer>, touched: set<string>)
    requires Good(validKey, w) && Joinable(validKey, w.index.peers, desired, touched)
    requires PlanOf(validKey, w.index.peers, desired, touched).Keys == {} || w.running
    ensures Restarts(w, PartialCommit(validKey, w, desired, touched))
  {
    var peers, gone := w.index.peers, Touched(w.index.peers, touched).Keys - desired.Keys;
    CommitCensus(validKey, w, desired, touched);
    CensusRestarts(w.device.counters, PlanOf(validKey, peers, desired, touched));
    RetiredAreGone(peers, desired, touched, gone);
    CommitParts(validKey, w, desired, touched);
    RetireRestarts(w, PartialCommit(validKey, w, desired, touched), gone);
  }

  lemma CommitParts(validKey: string -> bool, w: World, desired: map<string, Peer>, touched: set<string>)
    requires Joinable(validKey, w.index.peers, desired, touched)
    ensures PartialCommit(validKey, w, desired, touched).stats ==
            Retire(w.stats, Touched(w.index.peers, touched).Keys - desired.Keys)
    ensures PartialCommit(validKey, w, desired, touched).device.counters ==
            Census(w.device.counters, PlanOf(validKey, w.index.peers, desired, touched))
  {}

  lemma RetireRestarts(w: World, w': World, gone: set<string>)
    requires w'.stats == Retire(w.stats, gone) && forall k | k in gone :: k !in w'.device.counters
    requires forall k :: CounterOf(w'.device.counters, k) in {CounterOf(w.device.counters, k), ZERO}
    ensures Restarts(w, w')
  {}

  lemma CensusRestarts(counters: map<string, Counters>, plan: map<string, PeerConfig>)
    ensures forall k :: CounterOf(Census(counters, plan), k) in {CounterOf(counters, k), ZERO}
  {}

  lemma RetiredAreGone(peers: map<string, Peer>, desired: map<string, Peer>, touched: set<string>, gone: set<string>)
    requires gone == Touched(peers, touched).Keys - desired.Keys
    ensures forall k | k in gone :: k !in Joined(peers, desired, touched)
  {}

  lemma FullRestarts(validKey: string -> bool, w: World, claims: map<string, Claim>, ok: bool)
    requires Good(validKey, w) && Proper(validKey, claims)
    ensures Restarts(w, FullSync(validKey, w, claims, ok).0)
  {
    if !Clash(claims) {
      ProperDesired(validKey, claims);
      ReplacedRestarts(w, DesiredOf(claims));
    }
  }

  lemma ReplacedRestarts(w: World, desired: map<string, Peer>)
    requires WellFormed(desired) && DisjointPrefixes(desired)
    ensures Restarts(w, Replaced(w, desired))
  {
    SnapshotAgrees(desired);
  }

  lemma RestartRestarts(validKey: string -> bool, w: World, order: seq<string>, ok: bool)
    requires Good(validKey, w) && Listing(order, w.index.peers.Keys)
    ensures Restarts(w, Restart(w, order, ok).0)
    ensures Restart(w, order, ok).0.device.counters.Keys <= w.device.counters.Keys
            && Restart(w, order, ok).0.stats == w.stats
  {
    RestartKeepsGood(validKey, w, order, ok);
  }

  lemma ReconciliationRestarts(validKey: string -> bool, w: World, tick: Tick, step: Step, w': World)
    requires Good(validKey, w) && Moves(validKey, w, tick, step, w')
    requires step.UpdateUsers? || step.SyncUsers? || step.UpdateUsersAndRestart? || step.RestartAll? || step.Shutdown?
    ensures Restarts(w, w')
  {
    match step
    case UpdateUsers(claims, ok) => PartialRestarts(validKey, w, claims, ok);
    case SyncUsers(claims, ok) => FullRestarts(validKey, w, claims, ok);
    case UpdateUsersAndRestart(claims, ok, order, restartOk) =>
      PartialRestarts(validKey, w, claims, ok);
      PartialKeepsGood(validKey, w, claims, ok);
      var mid := PartialSync(validKey, w, claims, ok);
      if mid.1.Success? {
        RestartRestarts(validKey, mid.0, order, restartOk);
        RestartsTwice(w, mid.0, w');
      }
    case RestartAll(order, ok) => RestartRestarts(validKey, w, order, ok);
    case Shutdown =>
  }

  // ---- fairness is kept by every step, peer by peer ----

  lemma RestartsFair(s: System, w': World, k: string, d: Direction)
    requires Restarts(s.world, w') && Fair(s, k, d) && FairAfterTick(s, k, d)
    ensures Fair(s.(world := w'), k, d) && FairAfterTick(s.(world := w'), k, d)
  {
    assert CounterOf(w'.device.counters, k) in {CounterOf(s.world.device.counters, k), ZERO};
    assert k in w'.stats <==> k in s.world.stats;
  }

  lemma ReadFair(s: System, ks: set<string>, k: string, d: Direction)
    requires Fair(s, k, d) && FairAfterTick(s, k, d)
    ensures var s' := System(s.world.(stats := Settled(s.world.stats, ks)), s.tick, s.truth,
                             BookAll(s.booked, s.world.stats, ks));
            Fair(s', k, d) && FairAfterTick(s', k, d)
  {
    assert At(s.world.stats, k).owed == ZERO || k in s.world.stats;
  }

  lemma FlowFair(s: System, key: string, bytes: Counters, k: string, d: Direction)
    requires Fair(s, k, d) && FairAfterTick(s, k, d) && key in s.world.device.counters
    ensures var s' := System(s.world.(device := s.world.device.(counters :=
                               s.world.device.counters[key := Plus(s.world.device.counters[key], bytes)])),
                             s.tick, s.truth[key := Plus(CounterOf(s.truth, key), bytes)], s.booked);
            Fair(s', k, d) && FairAfterTick(s', k, d)
  {
    if k == key {}
  }

  // Reading the device opens an account for what is going to be applied.
  lemma DeviceReadFair(s: System, handshaken: set<string>, endpoints: map<string, string>, k: string, d: Direction)
    requires Fair(s, k, d) && s.tick.Idle?
    ensures FairAfterTick(s.(tick := Ticked(s.world, s.tick, ReadDevice(handshaken, endpoints))), k, d)
  {}

  lemma EmailsReadFair(s: System, k: string, d: Direction)
    requires FairAfterTick(s, k, d) && s.tick.DeviceRead?
    ensures FairAfterTick(s.(tick := Ticked(s.world, s.tick, ReadEmails)), k, d)
  {}

  // No peer of the tick that was live when the device was read has been forgotten since.
  predicate Remembers(s: System, step: Step, k: string) {
    step.ApplySamples? && Pending(s.tick, k).Some? && LiveAtRead(s.tick, k) ==> k in s.world.stats
  }

  lemma ApplyFair(s: System, now: int, k: string, d: Direction)
    requires s.tick.EmailsRead? && Remembers(s, ApplySamples(now), k) && Fair(s, k, d) && FairAfterTick(s, k, d)
    ensures var observed := s.world.(stats := ObserveEach(s.world.stats, s.tick.samples, now));
            Fair(System(observed, Idle, s.truth, s.booked), k, d)
  {
    if k in s.tick.samples {
      var m, t := At(s.world.stats, k), s.tick.samples[k].traffic;
      assert Along(Observe(m, s.tick.samples[k], now).owed, d) == Along(m.owed, d) + Along(Credit(m, t), d);
    }
  }

  lemma StepFair(validKey: string -> bool, s: System, step: Step, s': System, k: string, d: Direction)
    requires Good(validKey, s.world) && Next(validKey, s, step, s') && Remembers(s, step, k)
    requires Fair(s, k, d) && FairAfterTick(s, k, d)
    ensures Fair(s', k, d) && FairAfterTick(s', k, d)
  {
    match step
    case ReadDevice(handshaken, endpoints) => DeviceReadFair(s, handshaken, endpoints, k, d);
    case ReadEmails => EmailsReadFair(s, k, d);
    case ApplySamples(now) => ApplyFair(s, now, k, d);
    case AbandonTick =>
    case Read(keys) => ReadFair(s, keys, k, d);
    case CleanUp =>
    case Flow(key, bytes) => FlowFair(s, key, bytes, k, d);
    case _ =>
      ReconciliationRestarts(validKey, s.world, s.tick, step, s'.world);
      RestartsFair(s, s'.world, k, d);
  }

  lemma NextKeepsAccounted(validKey: string -> bool, s: System, step: Step, s': System, k: string)
    requires Good(validKey, s.world) && Accounted(s, k) && Next(validKey, s, step, s') && Remembers(s, step, k)
    ensures Accounted(s', k)
  {
    StepFair(validKey, s, step, s', k, Uplink);
    StepFair(validKey, s, step, s', k, Downlink);
  }

  // ---- theorems about runs ----

  ghost predicate Follows(validKey: string -> bool, s: System, step: Step, s': System) {
    Good(validKey, s.world) ==> Next(validKey, s, step, s')
  }

  ghost predicate IsRun(validKey: string -> bool, run: seq<System>, steps: seq<Step>) {
    && |run| == |steps| + 1 && Initial(validKey, run[0])
    && forall i | 0 <= i < |steps| :: Follows(validKey, run[i], steps[i], run[i+1])
  }

  lemma StepOf(validKey: string -> bool, run: seq<System>, steps: seq<Step>, i: nat)
    requires IsRun(validKey, run, steps) && i < |steps| && Good(validKey, run[i].world)
    ensures Next(validKey, run[i], steps[i], run[i+1])
  {
    assert Follows(validKey, run[i], steps[i], run[i+1]);
  }

  lemma EveryStateGood(validKey: string -> bool, run: seq<System>, steps: seq<Step>, i: nat)
    requires IsRun(validKey, run, steps) && i < |run|
    ensures Good(validKey, run[i].world)
  {
    InitialState(validKey, run[0], "");
    GoodAlong(validKey, run, steps, i);
  }

  lemma {:induction false} GoodAlong(validKey: string -> bool, run: seq<System>, steps: seq<Step>, i: nat)
    requires |run| == |steps| + 1 && i < |run| && Good(validKey, run[0].world)
    requires forall j | 0 <= j < |steps| :: Follows(validKey, run[j], steps[j], run[j+1])
    ensures Good(validKey, run[i].world)
  {
    if i > 0 {
      GoodAlong(validKey, run, steps, i - 1);
      assert Follows(validKey, run[i-1], steps[i-1], run[i]);
      NextKeepsGood(validKey, run[i-1], steps[i-1], run[i]);
    }
  }

  lemma NextKeepsGood(validKey: string -> bool, s: System, step: Step, s': System)
    requires Good(validKey, s.world) && Next(validKey, s, step, s')
    ensures Good(validKey, s'.world)
  {
    MovesKeepGood(validKey, s.world, s.tick, step, s'.world);
  }

  // As long as no tick applies a counter of peer k that it read before the peer was forgotten.
  lemma {:induction false} EveryStateAccounted(validKey: string -> bool, run: seq<System>, steps: seq<Step>, i: nat,
                                               k: string)
    requires IsRun(validKey, run, steps) && i < |run|
    requires forall j | 0 <= j < i :: Remembers(run[j], steps[j], k)
    ensures Accounted(run[i], k)
  {
    if i == 0 {
      InitialState(validKey, run[0], k);
    } else {
      EveryStateGood(validKey, run, steps, i - 1);
      EveryStateAccounted(validKey, run, steps, i - 1, k);
      StepOf(validKey, run, steps, i - 1);
      NextKeepsAccounted(validKey, run[i-1], steps[i-1], run[i], k);
    }
  }

  // Without any assumption on the requests: the kernel always has exactly the stored peers,
  // routes prefixes only to peers that hold them, and a restart never meets a peer without prefixes.
  lemma KernelFollowsStore(validKey: string -> bool, run: seq<System>, steps: seq<Step>, i: nat)
    requires IsRun(validKey, run, steps) && i < |run|
    ensures var w := run[i].world;
            && Bijective(w.index)
            && (w.running ==> w.device.counters.Keys == w.index.peers.Keys)
            && RoutesToHolders(w.index.peers, w.device.owner)
            && forall order, ok | Listing(order, w.index.peers.Keys) :: Restart(w, order, ok).1 != Failure(NoAllowedIPs)
  {
    EveryStateGood(validKey, run, steps, i);
  }

  // What has been reported of peer k and what is still owed, against the bytes it really transferred.
  predicate Bounded(s: System, k: string, d: Direction) {
    Along(CounterOf(s.booked, k), d) + Along(At(s.world.stats, k).owed, d) <= Along(CounterOf(s.truth, k), d)
  }

  lemma FairBounds(s: System, k: string, d: Direction)
    requires Fair(s, k, d)
    ensures Bounded(s, k, d)
  {}

  // Nothing of peer k is ever over-reported, whatever restarts its kernel counters went through and however
  // ticks, requests and reads interleave, as long as no tick applies a counter of k that it read
  // before k was forgotten.
  lemma NeverOverReported(validKey: string -> bool, run: seq<System>, steps: seq<Step>, i: nat, k: string, d: Direction)
    requires IsRun(validKey, run, steps) && i < |run|
    requires forall j | 0 <= j < i :: Remembers(run[j], steps[j], k)
    ensures Bounded(run[i], k, d)
  {
    EveryStateAccounted(validKey, run, steps, i, k);
    FairBounds(run[i], k, d);
  }

  // The exact condition for one application of samples: a peer that was forgotten under way is bounded
  // afterwards exactly when its counter fits on top of what is booked already; every other peer always is.
  lemma ApplyBoundedIff(validKey: string -> bool, s: System, now: int, s': System, k: string, d: Direction)
    requires Good(validKey, s.world) && Accounted(s, k) && Next(validKey, s, ApplySamples(now), s')
    ensures Bounded(s', k, d) <==>
            Remembers(s, ApplySamples(now), k) ||
            Along(CounterOf(s.booked, k), d) + Along(Pending(s.tick, k).value, d) <= Along(CounterOf(s.truth, k), d)
  {
    if Remembers(s, ApplySamples(now), k) {
      NextKeepsAccounted(validKey, s, ApplySamples(now), s', k);
      FairBounds(s', k, d);
    } else {
      assert At(s'.world.stats, k) == Observe(UNSEEN, s.tick.samples[k], now);
    }
  }

  // ---- exactness while the kernel counter of a peer is never started again ----

  predicate RunsOn(a: map<string, Counters>, b: map<string, Counters>, k: string) {
    (k in a ==> k in b) && AtMost(CounterOf(a, k), CounterOf(b, k))
  }

  // The counter of peer k that the latest tick before state i has applied.
  function LastApplied(run: seq<System>, steps: seq<Step>, i: nat, k: string): Counters
    requires i < |run| == |steps| + 1
  {
    if i == 0 then ZERO
    else if steps[i-1].ApplySamples? && Pending(run[i-1].tick, k).Some? then Pending(run[i-1].tick, k).value
    else LastApplied(run, steps, i - 1, k)
  }

  // Nothing of peer k has been lost or doubled so far: `last` is the counter applied last.
  predicate Exact(s: System, last: Counters, k: string, d: Direction) {
    var c := CounterOf(s.world.device.counters, k);
    && Along(CounterOf(s.booked, k), d) + Along(At(s.world.stats, k).owed, d) == Along(last, d)
    && Along(CounterOf(s.truth, k), d) == Along(c, d)
  }

  predicate Steady(s: System, last: Counters, k: string) {
    var c := CounterOf(s.world.device.counters, k);
    && Exact(s, last, k, Uplink) && Exact(s, last, k, Downlink)
    && At(s.world.stats, k).seen == last && !At(s.world.stats, k).deleted && AtMost(last, c)
    && (k in s.world.stats ==> k in s.world.device.counters)
    && (Pending(s.tick, k).Some? ==>
         k in s.world.device.counters && AtMost(last, Pending(s.tick, k).value) && AtMost(Pending(s.tick, k).value, c))
  }

  lemma RestartsSteady(s: System, w': World, last: Counters, k: string)
    requires Restarts(s.world, w') && Steady(s, last, k) && RunsOn(s.world.device.counters, w'.device.counters, k)
    ensures Steady(s.(world := w'), last, k)
  {
    assert CounterOf(w'.device.counters, k) in {CounterOf(s.world.device.counters, k), ZERO};
    assert k in w'.stats <==> k in s.world.stats;
  }

  lemma ApplySteady(s: System, now: int, last: Counters, k: string)
    requires Steady(s, last, k) && s.tick.EmailsRead?
    ensures Steady(System(s.world.(stats := ObserveEach(s.world.stats, s.tick.samples, now)), Idle, s.truth, s.booked),
                   if k in s.tick.samples then s.tick.samples[k].traffic else last, k)
  {}

  lemma FlowSteady(s: System, key: string, bytes: Counters, last: Counters, k: string)
    requires Steady(s, last, k) && key in s.world.device.counters
    ensures Steady(System(s.world.(device := s.world.device.(counters :=
                            s.world.device.counters[key := Plus(s.world.device.counters[key], bytes)])),
                          s.tick, s.truth[key := Plus(CounterOf(s.truth, key), bytes)], s.booked), last, k)
  {
    if k == key {}
  }

  lemma ReadSteady(s: System, ks: set<string>, last: Counters, k: string)
    requires Steady(s, last, k)
    ensures Steady(System(s.world.(stats := Settled(s.world.stats, ks)), s.tick, s.truth,
                          BookAll(s.booked, s.world.stats, ks)), last, k)
  {}

  lemma TickSteady(s: System, step: Step, last: Counters, k: string)
    requires Steady(s, last, k) && (step.ReadDevice? || step.ReadEmails? || step.AbandonTick?)
    ensures Steady(s.(tick := Ticked(s.world, s.tick, step)), last, k)
  {}

  lemma CleanUpSteady(s: System, last: Counters, k: string)
    requires Steady(s, last, k)
    ensures Steady(s.(world := s.world.(stats := CleanedUp(s.world.stats))), last, k)
  {}

  lemma StepSteady(validKey: string -> bool, s: System, step: Step, s': System, last: Counters, k: string)
    requires Good(validKey, s.world) && Next(validKey, s, step, s') && Steady(s, last, k)
    requires RunsOn(s.world.device.counters, s'.world.device.counters, k)
    ensures Steady(s', if step.ApplySamples? && Pending(s.tick, k).Some? then Pending(s.tick, k).value else last, k)
  {
    match step
    case ReadDevice(_, _) => TickSteady(s, step, last, k);
    case ReadEmails => TickSteady(s, step, last, k);
    case ApplySamples(now) => ApplySteady(s, now, last, k);
    case AbandonTick => TickSteady(s, step, last, k);
    case Read(keys) => ReadSteady(s, keys, last, k);
    case CleanUp => CleanUpSteady(s, last, k);
    case Flow(key, bytes) => FlowSteady(s, key, bytes, last, k);
    case _ =>
      ReconciliationRestarts(validKey, s.world, s.tick, step, s'.world);
      RestartsSteady(s, s'.world, last, k);
  }

  lemma {:induction false} SteadyRun(validKey: string -> bool, run: seq<System>, steps: seq<Step>, i: nat, k: string)
    requires IsRun(validKey, run, steps) && i < |run|
    requires forall j | 0 <= j < i :: RunsOn(run[j].world.device.counters, run[j+1].world.device.counters, k)
    ensures Steady(run[i], LastApplied(run, steps, i, k), k)
  {
    if i == 0 {
      InitialState(validKey, run[0], k);
    } else {
      EveryStateGood(validKey, run, steps, i - 1);
      SteadyRun(validKey, run, steps, i - 1, k);
      StepOf(validKey, run, steps, i - 1);
      StepSteady(validKey, run[i-1], steps[i-1], run[i], LastApplied(run, steps, i - 1, k), k);
    }
  }

  // In every run in which the kernel counter of peer k never falls and k, once there, is not removed:
  // reported and owed bytes are exactly the counter applied last, and the kernel counter is the true bytes.
  lemma ExactWhileCounterRunsOn(validKey: string -> bool, run: seq<System>, steps: seq<Step>, i: nat, k: string,
                                d: Direction)
    requires IsRun(validKey, run, steps) && i < |run|
    requires forall j | 0 <= j < i :: RunsOn(run[j].world.device.counters, run[j+1].world.device.counters, k)
    ensures Along(CounterOf(run[i].booked, k), d) + Along(At(run[i].world.stats, k).owed, d)
         == Along(LastApplied(run, steps, i, k), d)
    ensures Along(CounterOf(run[i].truth, k), d) == Along(CounterOf(run[i].world.device.counters, k), d)
  {
    SteadyRun(validKey, run, steps, i, k);
    assert Exact(run[i], LastApplied(run, steps, i, k), k, d);
  }

  // ---- agreement of store and kernel ----

  // A request that takes no prefix from users outside it.
  ghost predicate Considerate(validKey: string -> bool, w: World, step: Step) {
    step.UpdateUsers? || step.UpdateUsersAndRestart? ==>
      KeyClash(step.claims) || NoSteal(w.index.peers, DesiredOf(step.claims), step.claims.Keys)
  }

  lemma AgreeMeansDisjoint(w: World)
    requires Agree(w)
    ensures DisjointPrefixes(w.index.peers)
  {}

  lemma RestartKeepsAgree(validKey: string -> bool, w: World, order: seq<string>, ok: bool)
    requires Good(validKey, w) && Agree(w) && Listing(order, w.index.peers.Keys)
    ensures Agree(Restart(w, order, ok).0)
  {
    AgreeMeansDisjoint(w);
    if Restart(w, order, ok).1.Success? { RestartAgreesIff(validKey, w, order, ok); }
  }

  lemma PartialKeepsAgree(validKey: string -> bool, w: World, claims: map<string, Claim>, ok: bool)
    requires Good(validKey, w) && Agree(w) && Proper(validKey, claims)
    requires KeyClash(claims) || NoSteal(w.index.peers, DesiredOf(claims), claims.Keys)
    ensures Agree(PartialSync(validKey, w, claims, ok).0)
  {
    var (w', r) := PartialSync(validKey, w, claims, ok);
    if r.Success? { PartialFromAgreement(validKey, w, claims, ok); } else { PartialFailed(validKey, w, claims, ok); }
  }

  // A rejected, unowned, early or failed request leaves everything as it was.
  lemma PartialFailed(validKey: string -> bool, w: World, claims: map<string, Claim>, ok: bool)
    requires Good(validKey, w) && Proper(validKey, claims)
    ensures PartialSync(validKey, w, claims, ok).1.Failure? ==> PartialSync(validKey, w, claims, ok).0 == w
    ensures Clash(claims) ==> PartialSync(validKey, w, claims, ok).1 == Failure(Refused)
    ensures !Clash(claims) && OwnedElsewhere(w.index.peers, DesiredOf(claims), claims.Keys) ==>
              PartialSync(validKey, w, claims, ok).1 == Failure(KeyOwned)
  {}

  lemma UpdateAndRestartKeepsAgree(validKey: string -> bool, w: World, claims: map<string, Claim>, ok: bool,
                                   order: seq<string>, restartOk: bool)
    requires Good(validKey, w) && Agree(w) && Proper(validKey, claims)
    requires KeyClash(claims) || NoSteal(w.index.peers, DesiredOf(claims), claims.Keys)
    requires PartialSync(validKey, w, claims, ok).1.Success? ==>
               Listing(order, PartialSync(validKey, w, claims, ok).0.index.peers.Keys)
    ensures Agree(ThenRestart(PartialSync(validKey, w, claims, ok), order, restartOk).0)
  {
    PartialKeepsAgree(validKey, w, claims, ok);
    PartialKeepsGood(validKey, w, claims, ok);
    var mid := PartialSync(validKey, w, claims, ok);
    if mid.1.Success? { RestartKeepsAgree(validKey, mid.0, order, restartOk); }
  }

  lemma MovesKeepAgree(validKey: string -> bool, w: World, tick: Tick, step: Step, w': World)
    requires Good(validKey, w) && Moves(validKey, w, tick, step, w') && Considerate(validKey, w, step)
    requires w.running ==> Agree(w)
    ensures w'.running ==> w.running && Agree(w')
  {
    if w.running {
      match step
      case UpdateUsers(claims, ok) => PartialKeepsAgree(validKey, w, claims, ok);
      case SyncUsers(claims, ok) => FullKeepsAgree(validKey, w, claims, ok);
      case UpdateUsersAndRestart(claims, ok, order, restartOk) =>
        UpdateAndRestartKeepsAgree(validKey, w, claims, ok, order, restartOk);
      case RestartAll(order, ok) => RestartKeepsAgree(validKey, w, order, ok);
      case Shutdown =>
      case _ => AgreeFrame(w, w');
    } else {
      StaysStopped(validKey, w, tick, step, w');
    }
  }

  lemma FullKeepsAgree(validKey: string -> bool, w: World, claims: map<string, Claim>, ok: bool)
    requires Good(validKey, w) && Agree(w) && Proper(validKey, claims)
    ensures Agree(FullSync(validKey, w, claims, ok).0)
  {
    FullCases(validKey, w, claims, ok);
    if FullSync(validKey, w, claims, ok).1.Success? { FullAgreesIff(validKey, w, claims, ok); }
  }

  lemma AgreeFrame(w: World, w': World)
    requires Agree(w) && w'.index == w.index && w'.device.owner == w.device.owner
    requires w'.device.counters.Keys == w.device.counters.Keys
    ensures Agree(w')
  {}

  lemma StaysStopped(validKey: string -> bool, w: World, tick: Tick, step: Step, w': World)
    requires Good(validKey, w) && Moves(validKey, w, tick, step, w') && !w.running
    ensures !w'.running
  {
    match step
    case UpdateUsers(claims, ok) => PartialRunning(validKey, w, claims, ok);
    case SyncUsers(claims, ok) => FullCases(validKey, w, claims, ok);
    case UpdateUsersAndRestart(claims, ok, order, restartOk) => PartialRunning(validKey, w, claims, ok);
    case _ =>
  }

  lemma PartialRunning(validKey: string -> bool, w: World, claims: map<string, Claim>, ok: bool)
    requires Good(validKey, w) && Proper(validKey, claims)
    ensures PartialSync(validKey, w, claims, ok).0.running == w.running
  {
    var (w', r) := PartialSync(validKey, w, claims, ok);
    if r.Success? { PartialSucceeded(validKey, w, claims, ok); } else { PartialFailed(validKey, w, claims, ok); }
  }

  lemma NextKeepsAgree(validKey: string -> bool, s: System, step: Step, s': System)
    requires Good(validKey, s.world) && Next(validKey, s, step, s') && Considerate(validKey, s.world, step)
    requires s.world.running ==> Agree(s.world)
    ensures s'.world.running ==> Agree(s'.world)
  {
    MovesKeepAgree(validKey, s.world, s.tick, step, s'.world);
  }

  // In every run of considerate requests, kernel calls failing or succeeding, the kernel has
  // the stored peers and routes exactly their prefixes for as long as the backend runs.
  lemma StoreAndKernelAgree(validKey: string -> bool, run: seq<System>, steps: seq<Step>, i: nat)
    requires IsRun(validKey, run, steps) && i < |run|
    requires forall j | 0 <= j < i :: Considerate(validKey, run[j].world, steps[j])
    ensures run[i].world.running ==> Agree(run[i].world) && DisjointPrefixes(run[i].world.index.peers)
  {
    AgreesSoFar(validKey, run, steps, i);
    if run[i].world.running { AgreeMeansDisjoint(run[i].world); }
  }

  lemma {:induction false} AgreesSoFar(validKey: string -> bool, run: seq<System>, steps: seq<Step>, i: nat)
    requires IsRun(validKey, run, steps) && i < |run|
    requires forall j | 0 <= j < i :: Considerate(validKey, run[j].world, steps[j])
    ensures run[i].world.running ==> Agree(run[i].world)
  {
    if i == 0 {
      InitialState(validKey, run[0], "");
    } else {
      AgreesSoFar(validKey, run, steps, i - 1);
      EveryStateGood(validKey, run, steps, i - 1);
      StepOf(validKey, run, steps, i - 1);
      NextKeepsAgree(validKey, run[i-1], steps[i-1], run[i]);
    }
  }
}
