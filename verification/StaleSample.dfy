// Why the bound on reports needs its condition: a tick that applies a counter it read before the
// peer was removed and its statistics entry, read once more, was forgotten
// (node-main/backend/wireguard/jobs.go updateConnectedPeers, node-main/pkg/stats/tracker.go).
module StaleSample {
  import opened Traffic
  import opened Claims
  import opened StatsTracker
  import opened Reconcile
  import opened Backend
  import opened LostPrefix

  lemma Appended(validKey: string -> bool, run: seq<System>, steps: seq<Step>, step: Step, s: System)
    requires IsRun(validKey, run, steps) && Follows(validKey, run[|steps|], step, s)
    ensures IsRun(validKey, run + [s], steps + [step])
  {
    var more, all := run + [s], steps + [step];
    forall i | 0 <= i < |all| ensures Follows(validKey, more[i], all[i], more[i+1]) {
      AppendedAt(validKey, run, steps, step, s, i);
    }
  }

  lemma AppendedAt(validKey: string -> bool, run: seq<System>, steps: seq<Step>, step: Step, s: System, i: nat)
    requires |run| == |steps| + 1 && i <= |steps| && Follows(validKey, run[|steps|], step, s)
    requires i < |steps| ==> Follows(validKey, run[i], steps[i], run[i+1])
    ensures Follows(validKey, (run + [s])[i], (steps + [step])[i], (run + [s])[i+1])
  {
    if i < |steps| {
      assert (run + [s])[i] == run[i] && (run + [s])[i+1] == run[i+1] && (steps + [step])[i] == steps[i];
    }
  }

  // A run goes on by one more step.
  lemma RunGoesOn(validKey: string -> bool, run: seq<System>, steps: seq<Step>, step: Step, s: System)
    returns (run': seq<System>, steps': seq<Step>)
    requires IsRun(validKey, run, steps) && Good(validKey, run[|steps|].world) && Next(validKey, run[|steps|], step, s)
    ensures IsRun(validKey, run', steps') && run'[|steps'|] == s && Good(validKey, s.world)
  {
    NextKeepsGood(validKey, run[|steps|], step, s);
    Appended(validKey, run, steps, step, s);
    run', steps' := run + [s], steps + [step];
  }

  // A tick without interruption up to the samples.
  function Prepared(s: System, k: string): System {
    var read := s.(tick := Ticked(s.world, s.tick, ReadDevice({k}, map[])));
    read.(tick := Ticked(read.world, read.tick, ReadEmails))
  }

  function Finished(s: System, now: int): System
    requires s.tick.EmailsRead?
  {
    System(s.world.(stats := ObserveEach(s.world.stats, s.tick.samples, now)), Idle, s.truth, s.booked)
  }

  lemma TickStep(validKey: string -> bool, s: System, step: Step)
    requires Good(validKey, s.world)
    requires (step.ReadDevice? && s.tick.Idle?) || (step.ReadEmails? && s.tick.DeviceRead?)
    ensures Next(validKey, s, step, s.(tick := Ticked(s.world, s.tick, step)))
  {}

  lemma PreparedRun(validKey: string -> bool, run: seq<System>, steps: seq<Step>, k: string)
    returns (run': seq<System>, steps': seq<Step>)
    requires IsRun(validKey, run, steps) && run[|steps|].tick.Idle?
    ensures IsRun(validKey, run', steps') && run'[|steps'|] == Prepared(run[|steps|], k)
  {
    EveryStateGood(validKey, run, steps, |steps|);
    var s := run[|steps|];
    var read := s.(tick := Ticked(s.world, s.tick, ReadDevice({k}, map[])));
    TickStep(validKey, s, ReadDevice({k}, map[]));
    run', steps' := RunGoesOn(validKey, run, steps, ReadDevice({k}, map[]), read);
    TickStep(validKey, read, ReadEmails);
    run', steps' := RunGoesOn(validKey, run', steps', ReadEmails, Prepared(s, k));
  }

  lemma FinishStep(validKey: string -> bool, s: System, now: int)
    requires Good(validKey, s.world) && s.tick.EmailsRead?
    ensures Next(validKey, s, ApplySamples(now), Finished(s, now))
  {}

  lemma FinishedRun(validKey: string -> bool, run: seq<System>, steps: seq<Step>, now: int)
    returns (run': seq<System>, steps': seq<Step>)
    requires IsRun(validKey, run, steps) && run[|steps|].tick.EmailsRead?
    ensures IsRun(validKey, run', steps') && run'[|steps'|] == Finished(run[|steps|], now)
  {
    EveryStateGood(validKey, run, steps, |steps|);
    FinishStep(validKey, run[|steps|], now);
    run', steps' := RunGoesOn(validKey, run, steps, ApplySamples(now), Finished(run[|steps|], now));
  }

  // The request that removes peer k, and then a resetting read of k.
  ghost function Removed(validKey: string -> bool, s: System, claims: map<string, Claim>): System
    requires Good(validKey, s.world) && Proper(validKey, claims)
  {
    s.(world := PartialSync(validKey, s.world, claims, true).0)
  }

  function ReadOff(s: System, k: string): System {
    System(s.world.(stats := Settled(s.world.stats, {k})), s.tick, s.truth, BookAll(s.booked, s.world.stats, {k}))
  }

  ghost predicate Removes(validKey: string -> bool, w: World, claims: map<string, Claim>, k: string)
    requires Good(validKey, w) && Proper(validKey, claims)
  {
    && PartialSync(validKey, w, claims, true).1.Success? && !KeyClash(claims) && k !in DesiredOf(claims)
    && k in w.index.peers && w.index.peers[k].email in claims
  }

  lemma RemovalStep(validKey: string -> bool, s: System, claims: map<string, Claim>)
    requires Good(validKey, s.world) && Proper(validKey, claims)
    ensures Next(validKey, s, UpdateUsers(claims, true), Removed(validKey, s, claims))
  {}

  lemma ReadStep(validKey: string -> bool, s: System, k: string)
    requires Good(validKey, s.world)
    ensures Next(validKey, s, Read({k}), ReadOff(s, k))
  {}

  lemma RemovedRun(validKey: string -> bool, run: seq<System>, steps: seq<Step>, claims: map<string, Claim>, k: string)
    returns (run': seq<System>, steps': seq<Step>)
    requires IsRun(validKey, run, steps) && Good(validKey, run[|steps|].world) && Proper(validKey, claims)
    ensures IsRun(validKey, run', steps') && run'[|steps'|] == ReadOff(Removed(validKey, run[|steps|], claims), k)
  {
    var gone := Removed(validKey, run[|steps|], claims);
    RemovalStep(validKey, run[|steps|], claims);
    run', steps' := RunGoesOn(validKey, run, steps, UpdateUsers(claims, true), gone);
    ReadStep(validKey, gone, k);
    run', steps' := RunGoesOn(validKey, run', steps', Read({k}), ReadOff(gone, k));
  }

  // The bytes booked and owed for k.
  function Reported(s: System, k: string, d: Direction): nat {
    Along(CounterOf(s.booked, k), d) + Along(At(s.world.stats, k).owed, d)
  }

  lemma RemovalForgets(validKey: string -> bool, s: System, claims: map<string, Claim>, k: string, d: Direction)
    requires Good(validKey, s.world) && Proper(validKey, claims) && Removes(validKey, s.world, claims, k)
    ensures var t := ReadOff(Removed(validKey, s, claims), k);
            && t.tick == s.tick && t.truth == s.truth && k !in t.world.stats
            && Along(CounterOf(t.booked, k), d) == Reported(s, k, d)
  {
    var w := s.world;
    PartialSucceeded(validKey, w, claims, true);
    CommitParts(validKey, w, DesiredOf(claims), claims.Keys);
    assert k in Touched(w.index.peers, claims.Keys);
    RetiredForgets(s, Removed(validKey, s, claims), Touched(w.index.peers, claims.Keys).Keys - DesiredOf(claims).Keys,
      k, d);
  }

  lemma RetiredForgets(s: System, gone: System, ks: set<string>, k: string, d: Direction)
    requires k in ks && gone.world.stats == Retire(s.world.stats, ks) && gone.booked == s.booked
    ensures k !in ReadOff(gone, k).world.stats
    ensures Along(CounterOf(ReadOff(gone, k).booked, k), d) == Reported(s, k, d)
  {}

  lemma PreparedSample(s: System, k: string)
    requires s.tick.Idle? && k in s.world.device.counters && k in s.world.index.peers
    ensures var t := Prepared(s, k);
            && t.tick.EmailsRead? && k in t.tick.samples && t.tick.samples[k].traffic == s.world.device.counters[k]
            && t.world == s.world && t.truth == s.truth && t.booked == s.booked
  {}

  // The state after a tick with the request and the read between its halves.
  ghost function Interrupted(validKey: string -> bool, s: System, claims: map<string, Claim>, k: string): System
    requires Good(validKey, s.world) && Proper(validKey, claims)
  {
    ReadOff(Removed(validKey, Prepared(s, k), claims), k)
  }

  lemma InterruptedRun(validKey: string -> bool, run: seq<System>, steps: seq<Step>, claims: map<string, Claim>,
                       k: string)
    returns (run': seq<System>, steps': seq<Step>)
    requires IsRun(validKey, run, steps) && run[|steps|].tick.Idle?
    requires Good(validKey, run[|steps|].world) && Proper(validKey, claims)
    ensures IsRun(validKey, run', steps') && run'[|steps'|] == Interrupted(validKey, run[|steps|], claims, k)
  {
    run', steps' := PreparedRun(validKey, run, steps, k);
    run', steps' := RemovedRun(validKey, run', steps', claims, k);
  }

  lemma CountedAgain(validKey: string -> bool, s: System, claims: map<string, Claim>, k: string, now: int, d: Direction)
    requires Good(validKey, s.world) && Proper(validKey, claims) && Removes(validKey, s.world, claims, k)
    requires s.tick.Idle? && k in s.world.device.counters
    ensures Interrupted(validKey, s, claims, k).tick.EmailsRead?
    ensures var t := Finished(Interrupted(validKey, s, claims, k), now);
            && t.truth == s.truth && t.tick.Idle?
            && Reported(t, k, d) == Reported(s, k, d) + Along(s.world.device.counters[k], d)
  {
    PreparedSample(s, k);
    RemovalForgets(validKey, Prepared(s, k), claims, k, d);
    var t := Interrupted(validKey, s, claims, k);
    assert At(Finished(t, now).world.stats, k) == Observe(UNSEEN, t.tick.samples[k], now);
  }

  // From every reachable state in which no tick is under way and a request can remove peer k: when the request and a
  // resetting read come between the two halves of a tick, the kernel counter of k is reported
  // once more in full.
  lemma StaleSampleCountsAgain(validKey: string -> bool, run: seq<System>, steps: seq<Step>, claims: map<string, Claim>,
                               k: string, now: int, d: Direction)
    returns (run': seq<System>, steps': seq<Step>)
    requires IsRun(validKey, run, steps) && run[|steps|].tick.Idle? && k in run[|steps|].world.device.counters
    requires Good(validKey, run[|steps|].world) && Proper(validKey, claims)
    requires Removes(validKey, run[|steps|].world, claims, k)
    ensures IsRun(validKey, run', steps')
    ensures Reported(run'[|steps'|], k, d) ==
            Reported(run[|steps|], k, d) + Along(run[|steps|].world.device.counters[k], d)
    ensures run'[|steps'|].truth == run[|steps|].truth
  {
    var s := run[|steps|];
    CountedAgain(validKey, s, claims, k, now, d);
    run', steps' := InterruptedRun(validKey, run, steps, claims, k);
    run', steps' := FinishedRun(validKey, run', steps', now);
  }

  // ---- the shortest such run from startup ----

  ghost function Flowed(s: System, k: string, bytes: Counters): System
    requires k in s.world.device.counters
  {
    var counters := s.world.device.counters;
    s.(world := s.world.(device := s.world.device.(counters := counters[k := Plus(counters[k], bytes)])),
       truth := s.truth[k := Plus(CounterOf(s.truth, k), bytes)])
  }

  // A first tick after some traffic accounts for all of it.
  lemma FirstTick(s: System, k: string, bytes: Counters, now: int, d: Direction)
    requires s.tick.Idle? && s.truth == map[] && s.booked == map[] && s.world.stats == map[]
    requires k in s.world.device.counters && s.world.device.counters[k] == ZERO && k in s.world.index.peers
    ensures Prepared(Flowed(s, k, bytes), k).tick.EmailsRead?
    ensures var t := Finished(Prepared(Flowed(s, k, bytes), k), now);
            && t.world.index == s.world.index && t.world.running == s.world.running && t.tick.Idle?
            && k in t.world.device.counters && Along(t.world.device.counters[k], d) == Along(bytes, d)
            && Reported(t, k, d) == Along(bytes, d) == Along(CounterOf(t.truth, k), d)
  {
    PreparedSample(Flowed(s, k, bytes), k);
  }

  lemma ObservedRun(validKey: string -> bool, s: System, k: string, bytes: Counters, now: int)
    returns (run: seq<System>, steps: seq<Step>)
    requires IsRun(validKey, [s], []) && s.tick.Idle? && k in s.world.device.counters
    requires Prepared(Flowed(s, k, bytes), k).tick.EmailsRead?
    ensures IsRun(validKey, run, steps) && run[|steps|] == Finished(Prepared(Flowed(s, k, bytes), k), now)
  {
    EveryStateGood(validKey, [s], [], 0);
    FlowStep(validKey, s, k, bytes);
    run, steps := RunGoesOn(validKey, [s], [], Flow(k, bytes), Flowed(s, k, bytes));
    run, steps := PreparedRun(validKey, run, steps, k);
    run, steps := FinishedRun(validKey, run, steps, now);
  }

  lemma FlowStep(validKey: string -> bool, s: System, k: string, bytes: Counters)
    requires Good(validKey, s.world) && k in s.world.device.counters
    ensures Next(validKey, s, Flow(k, bytes), Flowed(s, k, bytes))
  {}

  // The input: one user with one prefix transfers some bytes and is seen by a tick; the next tick is cut in
  // two by the removal of the user and a resetting read. The user is then reported twice what it transferred.
  lemma OverReportingRun(validKey: string -> bool, net: Prefix, bytes: Counters, d: Direction)
    returns (run: seq<System>, steps: seq<Step>)
    requires validKey("U") && Along(bytes, d) > 0
    ensures IsRun(validKey, run, steps) && !Bounded(run[|steps|], "U", d)
    ensures Reported(run[|steps|], "U", d) == 2 * Along(bytes, d)
    ensures Along(CounterOf(run[|steps|].truth, "U"), d) == Along(bytes, d)
  {
    var u := Peer("u", "U", [net]);
    var s := StartOf(validKey, u);
    FirstTick(s, "U", bytes, 0, d);
    run, steps := ObservedRun(validKey, s, "U", bytes, 0);
    run, steps := LeavesTwice(validKey, run, steps, u, d);
  }

  lemma LeavesTwice(validKey: string -> bool, run: seq<System>, steps: seq<Step>, u: Peer, d: Direction)
    returns (run': seq<System>, steps': seq<Step>)
    requires IsRun(validKey, run, steps) && run[|steps|].tick.Idle? && u.key in run[|steps|].world.device.counters
    requires run[|steps|].world.running && run[|steps|].world.index.peers == map[u.key := u]
    ensures IsRun(validKey, run', steps') && run'[|steps'|].truth == run[|steps|].truth
    ensures Reported(run'[|steps'|], u.key, d) ==
            Reported(run[|steps|], u.key, d) + Along(run[|steps|].world.device.counters[u.key], d)
  {
    EveryStateGood(validKey, run, steps, |steps|);
    var claims := Leaving(validKey, run[|steps|].world, u);
    run', steps' := StaleSampleCountsAgain(validKey, run, steps, claims, u.key, 1, d);
  }

  lemma StartOf(validKey: string -> bool, u: Peer) returns (s: System)
    requires validKey(u.key) && u.allowedIPs != []
    ensures IsRun(validKey, [s], []) && s.tick.Idle? && s.truth == map[] && s.booked == map[] && s.world.stats == map[]
    ensures s.world.running && s.world.index.peers == map[u.key := u]
    ensures u.key in s.world.device.counters && s.world.device.counters[u.key] == ZERO
  {
    var claims := Solo(u, true);
    SoloDesired(validKey, u, true);
    StartupAgrees(validKey, claims);
    SnapshotAgrees(DesiredOf(claims));
    s := System(Startup(validKey, claims), Idle, map[], map[]);
  }

  lemma Leaving(validKey: string -> bool, w: World, u: Peer) returns (claims: map<string, Claim>)
    requires Good(validKey, w) && w.running && w.index.peers == map[u.key := u]
    ensures Proper(validKey, claims) && Removes(validKey, w, claims, u.key)
  {
    var withdrawn := u.(allowedIPs := []);
    claims := Solo(withdrawn, false);
    SoloDesired(validKey, withdrawn, false);
    SoloSync(validKey, w, withdrawn, false);
  }
}
