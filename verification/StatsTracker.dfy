// Per-peer traffic accounting between kernel counters and reports
// (node-main/pkg/stats/tracker.go, buildDeltaStats in interface_counters.go).
module StatsTracker {
  import opened Prelude
  import opened Traffic

  // One tracked peer, as stored. `lastActive` is None for the zero time.
  datatype Entry = Entry(email: string, currentRx: int, currentTx: int, baseRx: int, baseTx: int,
                         lastDeltaRx: int, lastDeltaTx: int, lastActive: Option<int>,
                         endpointIP: string, isDeleted: bool)

  datatype Sample = Sample(publicKey: string, email: string, traffic: Counters, endpointIP: string)

  datatype Stat = Stat(name: string, direction: Direction, link: string, value: int)

  // ---- what an entry means: the counter last seen and the bytes still owed to a report ----

  datatype Meter = Meter(email: string, seen: Counters, owed: Counters, deleted: bool,
                         lastActive: Option<int>, endpointIP: string)

  // The inductive invariant of an entry.
  predicate Faithful(e: Entry) {
    && 0 <= e.currentRx && 0 <= e.currentTx
    && e.baseRx <= e.currentRx && e.baseTx <= e.currentTx
    && e.lastDeltaRx == (if e.isDeleted then e.currentRx - e.baseRx else 0)
    && e.lastDeltaTx == (if e.isDeleted then e.currentTx - e.baseTx else 0)
  }

  function MeterOf(e: Entry): Meter
    requires Faithful(e)
  {
    Meter(e.email, Counters(e.currentRx, e.currentTx),
          Counters(e.currentRx - e.baseRx, e.currentTx - e.baseTx), e.isDeleted, e.lastActive, e.endpointIP)
  }

  predicate AllFaithful(stats: map<string, Entry>) {
    forall k | k in stats :: Faithful(stats[k])
  }

  function MetersOf(stats: map<string, Entry>): map<string, Meter>
    requires AllFaithful(stats)
  {
    map k | k in stats :: MeterOf(stats[k])
  }

  lemma MetersOneMore(stats: map<string, Entry>, k: string, e: Entry)
    requires AllFaithful(stats) && Faithful(e)
    ensures AllFaithful(stats[k := e]) && MetersOf(stats[k := e]) == MetersOf(stats)[k := MeterOf(e)]
  {}

  const UNSEEN := Meter("", ZERO, ZERO, false, None, "")

  // The bytes a sample adds: its growth over the counter last seen. Nothing is added by a sample
  // below that counter in either direction, nor by the first one after the removal of a peer
  // that still owes bytes.
  function Credit(m: Meter, t: Counters): Counters {
    if (m.deleted && m.owed != ZERO) || t.rx < m.seen.rx || t.tx < m.seen.tx then ZERO
    else Counters(t.rx - m.seen.rx, t.tx - m.seen.tx)
  }

  function Observe(m: Meter, s: Sample, now: int): Meter {
    var credit := Credit(m, s.traffic);
    Meter(s.email, s.traffic, Counters(m.owed.rx + credit.rx, m.owed.tx + credit.tx), false,
          if s.traffic.rx > m.seen.rx || s.traffic.tx > m.seen.tx then Some(now) else m.lastActive, s.endpointIP)
  }

  function At(ms: map<string, Meter>, k: string): Meter { if k in ms then ms[k] else UNSEEN }

  function ObserveAt(ms: map<string, Meter>, s: Sample, now: int): map<string, Meter> {
    ms[s.publicKey := Observe(At(ms, s.publicKey), s, now)]
  }

  function ObserveAll(ms: map<string, Meter>, samples: seq<Sample>, now: int): map<string, Meter> {
    if samples == [] then ms
    else ObserveAt(ObserveAll(ms, samples[..|samples| - 1], now), samples[|samples| - 1], now)
  }

  // After a resetting read of the peers `ks`: nothing is owed, and deleted peers are forgotten.
  function Settled(ms: map<string, Meter>, ks: set<string>): map<string, Meter> {
    map k | k in ms && !(k in ks && ms[k].deleted) :: if k in ks then ms[k].(owed := ZERO) else ms[k]
  }

  function MarkDeleted(ms: map<string, Meter>, k: string): map<string, Meter> {
    if k in ms then ms[k := ms[k].(deleted := true, lastActive := None)] else ms
  }

  function CleanedUp(ms: map<string, Meter>): map<string, Meter> {
    map k | k in ms && !(ms[k].deleted && ms[k].owed == ZERO) :: ms[k]
  }

  // ---- reports ----

  // What one line books for a peer in one direction.
  function Share(st: Stat, link: string, d: Direction): int {
    if st.link == link && st.direction == d then st.value else 0
  }

  // The bytes a report books for one peer in one direction.
  function Total(stats: seq<Stat>, link: string, d: Direction): int {
    if stats == [] then 0 else Total(stats[..|stats| - 1], link, d) + Share(stats[|stats| - 1], link, d)
  }

  lemma {:induction false} TotalSum(a: seq<Stat>, b: seq<Stat>, link: string, d: Direction)
    ensures Total(a + b, link, d) == Total(a, link, d) + Total(b, link, d)
  {
    if b == [] {
      assert a + b == a;
    } else {
      var n := |b| - 1;
      assert (a + b)[..|a + b| - 1] == a + b[..n];
      TotalSum(a, b[..n], link, d);
    }
  }

  function NonNegative(v: int): nat { if v > 0 then v else 0 }

  lemma TotalOfOne(st: Stat)
    ensures forall k, d :: Total([st], k, d) == Share(st, k, d)
  {
    assert [st][..0] == [];
  }

  lemma TotalOfTwo(a: Stat, b: Stat)
    ensures forall k, d :: Total([a, b], k, d) == Share(a, k, d) + Share(b, k, d)
  {
    assert [a, b][..1] == [a];
    TotalOfOne(a);
  }

  // Zero values are left out of the report.
  method BuildDeltaStats(name: string, link: string, rx: int, tx: int) returns (stats: seq<Stat>)
    ensures Total(stats, link, Uplink) == NonNegative(tx) && Total(stats, link, Downlink) == NonNegative(rx)
    ensures forall other, d | other != link :: Total(stats, other, d) == 0
    ensures forall st | st in stats :: st.name == name && st.link == link && st.value > 0
  {
    if rx == 0 && tx == 0 { return []; }
    stats := [];
    if tx > 0 {
      var uplink := Stat(name, Uplink, link, tx);
      TotalOfOne(uplink);
      stats := [uplink];
    }
    if rx > 0 {
      var downlink := Stat(name, Downlink, link, rx);
      if tx > 0 {
        TotalOfTwo(stats[0], downlink);
        assert stats + [downlink] == [stats[0], downlink];
      } else {
        TotalOfOne(downlink);
        assert stats + [downlink] == [downlink];
      }
      stats := stats + [downlink];
    }
  }

  // Every line of a report names a peer and carries the email it has at that moment.
  ghost predicate Labelled(stats: seq<Stat>, ms: map<string, Meter>) {
    forall st | st in stats :: st.link in ms && st.name == ms[st.link].email && st.value > 0
  }

  ghost predicate Reports(stats: seq<Stat>, ms: map<string, Meter>, ks: set<string>) {
    forall k, d :: Total(stats, k, d) == if k in ks && k in ms then Along(ms[k].owed, d) else 0
  }

  ghost predicate ReportsTimes(stats: seq<Stat>, ms: map<string, Meter>, ks: multiset<string>) {
    forall k, d :: Total(stats, k, d) == if k in ms then ks[k] * Along(ms[k].owed, d) else 0
  }

  // The first half of applySampleLocked after the lookup of the entry: a deleted entry that comes
  // back gets its pending delta restored.
  method Revive(found: Entry, sample: Sample) returns (entry: Entry, readded: bool)
    requires Faithful(found)
    ensures readded <==> found.isDeleted && MeterOf(found).owed != ZERO
    ensures entry == found.(email := sample.email, isDeleted := false, lastDeltaRx := 0, lastDeltaTx := 0,
                            baseRx := if readded then sample.traffic.rx - (found.currentRx - found.baseRx)
                                      else found.baseRx,
                            baseTx := if readded then sample.traffic.tx - (found.currentTx - found.baseTx)
                                      else found.baseTx)
  {
    entry := found.(email := sample.email, isDeleted := false);
    readded := false;
    if entry.lastDeltaRx != 0 || entry.lastDeltaTx != 0 {
      entry := entry.(baseRx := sample.traffic.rx - entry.lastDeltaRx, baseTx := sample.traffic.tx - entry.lastDeltaTx,
                      lastDeltaRx := 0, lastDeltaTx := 0);
      readded := true;
    }
  }

  // applySampleLocked after the lookup of the entry. When either counter has fallen, or a deleted peer comes
  // back that still owes bytes, the pending bytes of both directions stay as they are; otherwise
  // each direction gains exactly what its counter grew.
  method UpdateEntry(found: Entry, sample: Sample, activeAt: int) returns (entry: Entry)
    requires Faithful(found)
    ensures Faithful(entry) && MeterOf(entry) == Observe(MeterOf(found), sample, activeAt)
    ensures entry.email == sample.email && entry.endpointIP == sample.endpointIP && !entry.isDeleted
    ensures entry.currentRx == sample.traffic.rx && entry.currentTx == sample.traffic.tx
    ensures var pendingRx, pendingTx := found.currentRx - found.baseRx, found.currentTx - found.baseTx;
            if sample.traffic.rx < found.currentRx || sample.traffic.tx < found.currentTx
               || (found.isDeleted && (pendingRx != 0 || pendingTx != 0))
            then entry.currentRx - entry.baseRx == pendingRx && entry.currentTx - entry.baseTx == pendingTx
            else && entry.currentRx - entry.baseRx == pendingRx + (sample.traffic.rx - found.currentRx)
                 && entry.currentTx - entry.baseTx == pendingTx + (sample.traffic.tx - found.currentTx)
    ensures entry.lastActive == if sample.traffic.rx > found.currentRx || sample.traffic.tx > found.currentTx
                                then Some(activeAt) else found.lastActive
  {
    var rx, tx := sample.traffic.rx, sample.traffic.tx;
    var readded;
    entry, readded := Revive(found, sample);

    if entry.currentRx == rx && entry.currentTx == tx {
      return entry.(endpointIP := sample.endpointIP);
    }

    // Kernel counters went back: rebase so that the pending bytes survive.
    if !readded && (rx < entry.currentRx || tx < entry.currentTx) {
      var pendingRx := entry.currentRx - entry.baseRx;
      var pendingTx := entry.currentTx - entry.baseTx;
      if pendingRx < 0 { pendingRx := 0; }
      if pendingTx < 0 { pendingTx := 0; }
      entry := entry.(baseRx := rx - pendingRx, baseTx := tx - pendingTx);
    }

    if rx > entry.currentRx || tx > entry.currentTx {
      entry := entry.(lastActive := Some(activeAt));
    }
    entry := entry.(currentRx := rx, currentTx := tx, endpointIP := sample.endpointIP);
  }

  lemma ObserveForgetsEmail(a: Meter, b: Meter, s: Sample, now: int)
    requires a.(email := s.email) == b.(email := s.email)
    ensures Observe(a, s, now) == Observe(b, s, now)
  {}

  class Tracker {
    var stats: map<string, Entry>

    ghost predicate Valid()
      reads this
    {
      AllFaithful(stats)
    }

    ghost function Meters(): map<string, Meter>
      requires Valid()
      reads this
    {
      MetersOf(stats)
    }

    constructor ()
      ensures Valid() && Meters() == map[]
    {
      stats := map[];
    }

    method ApplySample(sample: Sample, activeAt: int)
      requires Valid()
      modifies this
      ensures Valid() && Meters() == ObserveAt(old(Meters()), sample, activeAt)
      ensures stats.Keys == old(stats).Keys + {sample.publicKey}
      ensures forall k | k in old(stats) && k != sample.publicKey :: stats[k] == old(stats)[k]
      // A peer that was not tracked owes its whole counter.
      ensures sample.publicKey !in old(stats) ==>
                var e := stats[sample.publicKey];
                e.currentRx - e.baseRx == sample.traffic.rx && e.currentTx - e.baseTx == sample.traffic.tx
    {
      var entry := Entry(sample.email, 0, 0, 0, 0, 0, 0, None, "", false);
      if sample.publicKey in stats { entry := stats[sample.publicKey]; }
      ghost var found := entry;
      assert sample.publicKey !in stats ==> MeterOf(found) == UNSEEN.(email := sample.email);
      entry := UpdateEntry(entry, sample, activeAt);
      MetersOneMore(stats, sample.publicKey, entry);
      ObserveForgetsEmail(MeterOf(found), At(Meters(), sample.publicKey), sample, activeAt);
      stats := stats[sample.publicKey := entry];
    }

    method UpdateStatsBatch(samples: seq<Sample>, now: int)
      requires Valid()
      modifies this
      ensures Valid() && Meters() == ObserveAll(old(Meters()), samples, now)
    {
      for i := 0 to |samples|
        invariant Valid() && Meters() == ObserveAll(old(Meters()), samples[..i], now)
      {
        assert samples[..i+1][..i] == samples[..i];
        ApplySample(samples[i], now);
      }
      assert samples[..|samples|] == samples;
    }

    // The loop body shared by both reads.
    method ReadOne(key: string, reset: bool) returns (lines: seq<Stat>)
      requires Valid() && key in stats
      modifies this
      ensures Valid() && Meters() == if reset then Settled(old(Meters()), {key}) else old(Meters())
      ensures Labelled(lines, old(Meters())) && Reports(lines, old(Meters()), {key})
      ensures Total(lines, key, Downlink) == old(stats)[key].currentRx - old(stats)[key].baseRx
      ensures Total(lines, key, Uplink) == old(stats)[key].currentTx - old(stats)[key].baseTx
      ensures !reset ==> stats == old(stats)
      ensures reset ==> stats.Keys == old(stats).Keys - (if old(stats)[key].isDeleted then {key} else {})
      ensures reset ==> forall k | k in stats :: stats[k] == if k != key then old(stats)[k] else
                old(stats)[k].(baseRx := old(stats)[k].currentRx, baseTx := old(stats)[k].currentTx)
    {
      var entry := stats[key];
      lines := BuildDeltaStats(entry.email, key, entry.currentRx - entry.baseRx, entry.currentTx - entry.baseTx);
      if reset {
        entry := entry.(baseRx := entry.currentRx, baseTx := entry.currentTx);
        stats := if entry.isDeleted then stats - {key} else stats[key := entry];
      }
    }

    // A resetting read books exactly the owed bytes of the requested peers, each peer once;
    // a plain read changes nothing and repeats a peer as often as it is requested.
    method GetStats(keys: seq<string>, reset: bool) returns (response: seq<Stat>)
      requires Valid()
      modifies this
      ensures Valid() && Meters() == if reset then Settled(old(Meters()), Elems(keys)) else old(Meters())
      ensures Labelled(response, old(Meters()))
      ensures if reset then Reports(response, old(Meters()), Elems(keys))
              else ReportsTimes(response, old(Meters()), multiset(keys))
    {
      response := [];
      ghost var before := Meters();
      for i := 0 to |keys|
        invariant Valid() && ReadSoFar(reset, response, before, Meters(), keys[..i])
      {
        ghost var was := Meters();
        assert keys[..i+1] == keys[..i] + [keys[i]];
        if keys[i] in stats {
          var lines := ReadOne(keys[i], reset);
          ReadHit(reset, response, lines, before, was, keys[..i], keys[i]);
          response := response + lines;
        } else {
          ReadMiss(reset, response, before, was, keys[..i], keys[i]);
        }
      }
      assert keys[..|keys|] == keys;
    }

    // Every tracked peer, in the order of the map.
    method GetUsersStats(reset: bool) returns (response: seq<Stat>)
      requires Valid()
      modifies this
      ensures Valid() && Meters() == if reset then Settled(old(Meters()), old(Meters()).Keys) else old(Meters())
      ensures Labelled(response, old(Meters())) && Reports(response, old(Meters()), old(Meters()).Keys)
    {
      var order := AnyOrder(stats.Keys);
      response := [];
      ghost var before := Meters();
      for i := 0 to |order|
        invariant Valid() && Labelled(response, before)
        invariant Meters() == if reset then Settled(before, Elems(order[..i])) else before
        invariant Reports(response, before, Elems(order[..i]))
      {
        ElemsPrefix(order, i);
        ghost var now := Meters();
        ghost var sofar := response;
        assert order[i] in before && order[i] in now && now[order[i]] == before[order[i]];
        var lines := ReadOne(order[i], reset);
        response := response + lines;
        SettledOneMore(before, Elems(order[..i]), order[i]);
        ReportsOneMore(sofar, lines, before, now, Elems(order[..i]), order[i]);
      }
      assert order[..|order|] == order;
    }

    method RemoveStats(publicKey: string)
      requires Valid()
      modifies this
      ensures Valid() && Meters() == MarkDeleted(old(Meters()), publicKey)
      ensures stats.Keys == old(stats).Keys
      ensures forall k | k in stats :: stats[k] == if k != publicKey then old(stats)[k] else
                old(stats)[k].(isDeleted := true, lastActive := None,
                               lastDeltaRx := old(stats)[k].currentRx - old(stats)[k].baseRx,
                               lastDeltaTx := old(stats)[k].currentTx - old(stats)[k].baseTx)
    {
      if publicKey !in stats { return; }
      var entry := stats[publicKey];
      entry := entry.(lastDeltaRx := entry.currentRx - entry.baseRx, lastDeltaTx := entry.currentTx - entry.baseTx,
                      isDeleted := true, lastActive := None);
      stats := stats[publicKey := entry];
    }

    method CleanupDeletedEntries()
      requires Valid()
      modifies this
      ensures Valid() && Meters() == CleanedUp(old(Meters()))
      ensures forall k :: k in stats <==>
                && k in old(stats)
                && !(old(stats)[k].isDeleted && old(stats)[k].currentRx == old(stats)[k].baseRx
                     && old(stats)[k].currentTx == old(stats)[k].baseTx)
      ensures forall k | k in stats :: stats[k] == old(stats)[k]
    {
      var order := AnyOrder(stats.Keys);
      ghost var before := stats;
      for i := 0 to |order|
        invariant stats == map k | k in before && !(k in Elems(order[..i]) && Spent(before[k])) :: before[k]
      {
        ElemsPrefix(order, i);
        var entry := stats[order[i]];
        if entry.isDeleted && entry.currentRx == entry.baseRx && entry.currentTx == entry.baseTx {
          stats := stats - {order[i]};
        }
      }
      assert order[..|order|] == order;
    }
  }

  predicate Spent(e: Entry) { e.isDeleted && e.currentRx == e.baseRx && e.currentTx == e.baseTx }

  lemma SettledOneMore(ms: map<string, Meter>, ks: set<string>, k: string)
    ensures Settled(Settled(ms, ks), {k}) == Settled(ms, ks + {k})
  {}

  lemma SettledAbsent(ms: map<string, Meter>, ks: set<string>, k: string)
    requires k !in Settled(ms, ks)
    ensures Settled(ms, ks + {k}) == Settled(ms, ks)
    ensures k in ms ==> k in ks
  {}

  lemma ReportsOneMore(sofar: seq<Stat>, lines: seq<Stat>, before: map<string, Meter>, now: map<string, Meter>,
                       ks: set<string>, k: string)
    requires now == Settled(before, ks) || (now == before && k !in ks)
    requires Reports(sofar, before, ks) && Reports(lines, now, {k})
    ensures Reports(sofar + lines, before, ks + {k})
  {
    forall j, d
      ensures Total(sofar + lines, j, d) == if j in ks + {k} && j in before then Along(before[j].owed, d) else 0
    {
      TotalSum(sofar, lines, j, d);
    }
  }

  lemma ReportsTimesOneMore(sofar: seq<Stat>, lines: seq<Stat>, ms: map<string, Meter>, ks: multiset<string>, k: string)
    requires ReportsTimes(sofar, ms, ks) && Reports(lines, ms, {k}) && k in ms
    ensures ReportsTimes(sofar + lines, ms, ks + multiset{k})
  {
    forall j, d
      ensures Total(sofar + lines, j, d) == if j in ms then (ks + multiset{k})[j] * Along(ms[j].owed, d) else 0
    {
      TotalSum(sofar, lines, j, d);
    }
  }

  // Where a read of the peers `keys` stands: what was reported and what the meters are now.
  ghost predicate ReadSoFar(reset: bool, response: seq<Stat>, before: map<string, Meter>, now: map<string, Meter>,
                            keys: seq<string>) {
    && Labelled(response, before)
    && (reset ==> now == Settled(before, Elems(keys)) && Reports(response, before, Elems(keys)))
    && (!reset ==> now == before && ReportsTimes(response, before, multiset(keys)))
  }

  lemma ReadHit(reset: bool, response: seq<Stat>, lines: seq<Stat>, before: map<string, Meter>, was: map<string, Meter>,
                keys: seq<string>, k: string)
    requires ReadSoFar(reset, response, before, was, keys) && k in was
    requires Labelled(lines, was) && Reports(lines, was, {k})
    ensures ReadSoFar(reset, response + lines, before, if reset then Settled(was, {k}) else was, keys + [k])
  {
    assert Elems(keys + [k]) == Elems(keys) + {k};
    if reset {
      SettledOneMore(before, Elems(keys), k);
      ReportsOneMore(response, lines, before, was, Elems(keys), k);
    } else {
      ReportsTimesOneMore(response, lines, before, multiset(keys), k);
    }
  }

  lemma ReadMiss(reset: bool, response: seq<Stat>, before: map<string, Meter>, was: map<string, Meter>,
                 keys: seq<string>, k: string)
    requires ReadSoFar(reset, response, before, was, keys) && k !in was
    ensures ReadSoFar(reset, response, before, was, keys + [k])
  {
    assert Elems(keys + [k]) == Elems(keys) + {k};
    if reset { SettledAbsent(before, Elems(keys), k); }
  }

  // ---- conservation over whole runs ----

  // Everything the tracker is asked to do; plain reads change nothing.
  datatype Event =
    | Sampled(samples: seq<Sample>, now: int)
    | ReadKeys(keys: seq<string>)
    | ReadAll
    | Removed(key: string)
    | Cleanup

  function Step(ms: map<string, Meter>, ev: Event): map<string, Meter> {
    match ev
    case Sampled(samples, now) => ObserveAll(ms, samples, now)
    case ReadKeys(keys) => Settled(ms, Elems(keys))
    case ReadAll => Settled(ms, ms.Keys)
    case Removed(key) => MarkDeleted(ms, key)
    case Cleanup => CleanedUp(ms)
  }

  function Owed(ms: map<string, Meter>, k: string, d: Direction): nat { Along(At(ms, k).owed, d) }

  // What the resetting read of this event books for peer k in direction d.
  function Booked(ms: map<string, Meter>, ev: Event, k: string, d: Direction): nat {
    match ev
    case ReadKeys(keys) => if k in keys then Owed(ms, k, d) else 0
    case ReadAll => Owed(ms, k, d)
    case _ => 0
  }

  function CreditFor(ms: map<string, Meter>, s: Sample, k: string, d: Direction): nat {
    if s.publicKey == k then Along(Credit(At(ms, k), s.traffic), d) else 0
  }

  // The growth the samples of a batch show for peer k.
  function Growth(ms: map<string, Meter>, samples: seq<Sample>, now: int, k: string, d: Direction): nat {
    if samples == [] then 0
    else
      var n := |samples| - 1;
      Growth(ms, samples[..n], now, k, d) + CreditFor(ObserveAll(ms, samples[..n], now), samples[n], k, d)
  }

  function Grown(ms: map<string, Meter>, ev: Event, k: string, d: Direction): nat {
    match ev
    case Sampled(samples, now) => Growth(ms, samples, now, k, d)
    case _ => 0
  }

  function Run(evs: seq<Event>): map<string, Meter> {
    if evs == [] then map[] else Step(Run(evs[..|evs| - 1]), evs[|evs| - 1])
  }

  function BookedOver(evs: seq<Event>, k: string, d: Direction): nat {
    if evs == [] then 0
    else BookedOver(evs[..|evs| - 1], k, d) + Booked(Run(evs[..|evs| - 1]), evs[|evs| - 1], k, d)
  }

  function GrownOver(evs: seq<Event>, k: string, d: Direction): nat {
    if evs == [] then 0
    else GrownOver(evs[..|evs| - 1], k, d) + Grown(Run(evs[..|evs| - 1]), evs[|evs| - 1], k, d)
  }

  lemma ObserveOwes(ms: map<string, Meter>, s: Sample, now: int, k: string, d: Direction)
    ensures Owed(ObserveAt(ms, s, now), k, d) == Owed(ms, k, d) + CreditFor(ms, s, k, d)
  {
    if s.publicKey == k { OwnSample(ms, s, now); } else { OtherSample(ms, s, now, k); }
  }

  lemma OwnSample(ms: map<string, Meter>, s: Sample, now: int)
    ensures At(ObserveAt(ms, s, now), s.publicKey) == Observe(At(ms, s.publicKey), s, now)
  {}

  lemma OtherSample(ms: map<string, Meter>, s: Sample, now: int, k: string)
    requires s.publicKey != k
    ensures At(ObserveAt(ms, s, now), k) == At(ms, k)
  {}

  lemma {:induction false} BatchOwes(ms: map<string, Meter>, samples: seq<Sample>, now: int, k: string, d: Direction)
    ensures Owed(ObserveAll(ms, samples, now), k, d) == Owed(ms, k, d) + Growth(ms, samples, now, k, d)
  {
    if samples != [] {
      var n := |samples| - 1;
      BatchOwes(ms, samples[..n], now, k, d);
      ObserveOwes(ObserveAll(ms, samples[..n], now), samples[n], now, k, d);
    }
  }

  lemma StepConserves(ms: map<string, Meter>, ev: Event, k: string, d: Direction)
    ensures Booked(ms, ev, k, d) + Owed(Step(ms, ev), k, d) == Owed(ms, k, d) + Grown(ms, ev, k, d)
  {
    if ev.Sampled? { BatchOwes(ms, ev.samples, ev.now, k, d); }
  }

  // Per peer, the bytes booked by resetting reads plus those still owed are exactly the growth
  // counted, over any interleaving of samples, rollbacks, reads, removals, re-adds and cleanups.
  lemma {:induction false} Conservation(evs: seq<Event>, k: string, d: Direction)
    ensures BookedOver(evs, k, d) + Owed(Run(evs), k, d) == GrownOver(evs, k, d)
  {
    if evs != [] {
      var n := |evs| - 1;
      Conservation(evs[..n], k, d);
      StepConserves(Run(evs[..n]), evs[n], k, d);
    }
  }

  // ---- runs in which peer k is never removed and its counters never go back ----

  function Last(samples: seq<Sample>, from: Counters, k: string): Counters {
    if samples == [] then from
    else if samples[|samples| - 1].publicKey == k then samples[|samples| - 1].traffic
    else Last(samples[..|samples| - 1], from, k)
  }

  predicate Climbing(samples: seq<Sample>, from: Counters, k: string) {
    samples == [] ||
    (var n := |samples| - 1;
     Climbing(samples[..n], from, k) &&
     (samples[n].publicKey == k ==> AtMost(Last(samples[..n], from, k), samples[n].traffic)))
  }

  function LastOver(evs: seq<Event>, k: string): Counters {
    if evs == [] then ZERO
    else
      var n := |evs| - 1;
      if evs[n].Sampled? then Last(evs[n].samples, LastOver(evs[..n], k), k) else LastOver(evs[..n], k)
  }

  predicate Undisturbed(evs: seq<Event>, k: string) {
    evs == [] ||
    (var n := |evs| - 1;
     Undisturbed(evs[..n], k) &&
     (evs[n].Sampled? ==> Climbing(evs[n].samples, LastOver(evs[..n], k), k)) &&
     (evs[n].Removed? ==> evs[n].key != k))
  }

  lemma {:induction false} ClimbingBatch(ms: map<string, Meter>, samples: seq<Sample>, now: int, k: string,
                                         d: Direction)
    requires Climbing(samples, At(ms, k).seen, k) && !At(ms, k).deleted
    ensures !At(ObserveAll(ms, samples, now), k).deleted
    ensures At(ObserveAll(ms, samples, now), k).seen == Last(samples, At(ms, k).seen, k)
    ensures Along(At(ms, k).seen, d) + Growth(ms, samples, now, k, d) == Along(Last(samples, At(ms, k).seen, k), d)
  {
    if samples != [] {
      var n := |samples| - 1;
      var mid := ObserveAll(ms, samples[..n], now);
      ClimbingBatch(ms, samples[..n], now, k, d);
      if samples[n].publicKey == k { OwnSample(mid, samples[n], now); } else { OtherSample(mid, samples[n], now, k); }
    }
  }

  lemma UndisturbedStep(ms: map<string, Meter>, ev: Event, last: Counters, k: string, d: Direction)
    requires At(ms, k).seen == last && !At(ms, k).deleted
    requires ev.Sampled? ==> Climbing(ev.samples, last, k)
    requires ev.Removed? ==> ev.key != k
    ensures !At(Step(ms, ev), k).deleted
    ensures At(Step(ms, ev), k).seen == if ev.Sampled? then Last(ev.samples, last, k) else last
    ensures Along(last, d) + Grown(ms, ev, k, d) == Along(At(Step(ms, ev), k).seen, d)
  {
    if ev.Sampled? { ClimbingBatch(ms, ev.samples, ev.now, k, d); }
  }

  // Nothing is lost in such a run: booked plus owed is the last counter sampled.
  lemma {:induction false} ExactWhenUndisturbed(evs: seq<Event>, k: string, d: Direction)
    requires Undisturbed(evs, k)
    ensures BookedOver(evs, k, d) + Owed(Run(evs), k, d) == Along(LastOver(evs, k), d)
    ensures At(Run(evs), k).seen == LastOver(evs, k) && !At(Run(evs), k).deleted
  {
    if evs != [] {
      var n := |evs| - 1;
      ExactWhenUndisturbed(evs[..n], k, d);
      StepConserves(Run(evs[..n]), evs[n], k, d);
      UndisturbedStep(Run(evs[..n]), evs[n], LastOver(evs[..n], k), k, d);
    }
  }
}
