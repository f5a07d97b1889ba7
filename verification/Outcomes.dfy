// When the write paths of the backend are accepted, which error they report otherwise, and what
// each of them leaves behind, in terms of the request and the fields of the state
// (node-main/backend/wireguard/user_partial_sync.go, user_full_sync.go, wireguard.go).
module Outcomes {
  import opened Prelude
  import opened Claims
  import opened Traffic
  import opened KernelDevice
  import opened SyncDiffs
  import opened Reconcile
  import opened Backend

  // ---- partial reconciliation ----

  // The kernel has to be told about peer k: it is new or comes with other prefixes.
  predicate Sent(peers: map<string, Peer>, desired: map<string, Peer>, k: string) {
    k in desired && (k !in peers || peers[k].allowedIPs != desired[k].allowedIPs)
  }

  // The stored peer k belongs to a user of the request that no longer has it.
  predicate Gone(peers: map<string, Peer>, emails: set<string>, desired: map<string, Peer>, k: string) {
    k in peers && peers[k].email in emails && k !in desired
  }

  // Which requests are accepted, and which error the others meet.
  lemma PartialOutcome(validKey: string -> bool, w: World, claims: map<string, Claim>, kernelOk: bool)
    requires Good(validKey, w) && Proper(validKey, claims)
    ensures PartialSync(validKey, w, claims, kernelOk).1 == Failure(Refused) <==> exists e, f :: Collide(claims, e, f)
    ensures PartialSync(validKey, w, claims, kernelOk).1.Failure? ==>
              PartialSync(validKey, w, claims, kernelOk).0 == w
    ensures (forall e, f :: !Collide(claims, e, f)) ==>
              && !KeyClash(claims)
              && var r := PartialSync(validKey, w, claims, kernelOk).1;
                 var peers, desired := w.index.peers, DesiredOf(claims);
                 var taken := exists k :: k in desired && k in peers && peers[k].email !in claims;
                 var needed := exists k :: Sent(peers, desired, k) || Gone(peers, claims.Keys, desired, k);
                 && (r == Failure(KeyOwned) <==> taken)
                 && (r == Failure(NotStarted) <==> !taken && needed && !w.running)
                 && (r == Failure(KernelFailed) <==> !taken && needed && w.running && !kernelOk)
                 && (r == Success <==> !taken && (!needed || (w.running && kernelOk)))
  {
    ClashIff(claims);
    if !Clash(claims) {
      ProperDesired(validKey, claims);
      var peers, desired := w.index.peers, DesiredOf(claims);
      OwnedIff(validKey, peers, desired, claims.Keys);
      if !OwnedElsewhere(peers, desired, claims.Keys) { NeededIff(validKey, peers, desired, claims.Keys); }
    }
  }

  lemma OwnedIff(validKey: string -> bool, peers: map<string, Peer>, desired: map<string, Peer>, emails: set<string>)
    requires forall k | k in desired :: desired[k].email in emails
    ensures OwnedElsewhere(peers, desired, emails) <==>
            exists k :: k in desired && k in peers && peers[k].email !in emails
  {}

  lemma NeededIff(validKey: string -> bool, peers: map<string, Peer>, desired: map<string, Peer>, emails: set<string>)
    requires WellFormed(desired) && !OwnedElsewhere(peers, desired, emails) && forall k | k in peers :: validKey(k)
    requires forall k | k in desired :: desired[k].email in emails
    ensures PlanOf(validKey, peers, desired, emails).Keys != {} <==>
            exists k :: Sent(peers, desired, k) || Gone(peers, emails, desired, k)
  {
    var existing, plan := Touched(peers, emails), PlanOf(validKey, peers, desired, emails);
    forall k ensures k in plan.Keys <==> Sent(peers, desired, k) || Gone(peers, emails, desired, k) {
      PlannedIff(validKey, peers, desired, emails, k);
    }
  }

  lemma PlannedIff(validKey: string -> bool, peers: map<string, Peer>, desired: map<string, Peer>,
                   emails: set<string>, k: string)
    requires WellFormed(desired) && !OwnedElsewhere(peers, desired, emails) && forall k | k in peers :: validKey(k)
    requires forall k | k in desired :: desired[k].email in emails
    ensures k in PlanOf(validKey, peers, desired, emails) <==>
            Sent(peers, desired, k) || Gone(peers, emails, desired, k)
    ensures var existing := Touched(peers, emails);
            && (Updated(existing, desired, k) || Added(existing, desired, k) <==> Sent(peers, desired, k))
            && (Added(existing, desired, k) <==> k in desired && k !in peers)
            && (Dropped(validKey, existing, desired, k) <==> Gone(peers, emails, desired, k))
  {
    assert k in desired && k in peers ==> k in Touched(peers, emails);
  }

  // The state after success: in the store the users of the request have exactly the desired peers and
  // all others are as before; the kernel routes what was sent to its new peer, no longer
  // routes anything to a peer that is gone or was sent other prefixes, and keeps the rest; counters go on,
  // new peers start at zero; the statistics of the peers that are gone are marked.
  lemma PartialState(validKey: string -> bool, w: World, claims: map<string, Claim>, kernelOk: bool)
    requires Good(validKey, w) && Proper(validKey, claims)
    requires PartialSync(validKey, w, claims, kernelOk).1.Success?
    ensures !KeyClash(claims)
    ensures var w', peers, desired := PartialSync(validKey, w, claims, kernelOk).0, w.index.peers, DesiredOf(claims);
            && w'.running == w.running
            && (forall k :: k in w'.index.peers <==> k in desired || (k in peers && peers[k].email !in claims))
            && (forall k | k in w'.index.peers ::
                 w'.index.peers[k] == if k in desired then desired[k] else peers[k])
            && (w.running ==> forall k :: k in w'.device.counters <==> k in w'.index.peers)
            && (forall k | k in w'.device.counters ::
                 w'.device.counters[k] == if k in w.device.counters then w.device.counters[k] else ZERO)
            && (forall k :: k in w'.stats <==> k in w.stats)
            && (forall k | k in w.stats :: w'.stats[k] ==
                 if Gone(peers, claims.Keys, desired, k) then w.stats[k].(deleted := true, lastActive := None)
                 else w.stats[k])
    ensures forall k, p :: RoutedTo(PartialSync(validKey, w, claims, kernelOk).0, p, k) <==>
              RoutedAfter(w, claims.Keys, DesiredOf(claims), p, k)
  {
    PartialSucceeded(validKey, w, claims, kernelOk);
    var desired := DesiredOf(claims);
    ProperDesired(validKey, claims);
    OwnedIff(validKey, w.index.peers, desired, claims.Keys);
    CommitCensus(validKey, w, desired, claims.Keys);
    CommitFields(validKey, w, desired, claims.Keys);
    forall k, p ensures RoutedTo(PartialSync(validKey, w, claims, kernelOk).0, p, k) <==>
                          RoutedAfter(w, claims.Keys, desired, p, k)
    {
      CommitRoutes(validKey, w, desired, claims.Keys, p, k);
    }
  }

  predicate RoutedTo(w: World, p: Prefix, k: string) { p in w.device.owner && w.device.owner[p] == k }

  // Prefix p belongs to peer k of the request that the kernel is told about, or to nobody it is told
  // about, and was routed to k before, which neither leaves nor changes its prefixes.
  ghost predicate RoutedAfter(w: World, emails: set<string>, desired: map<string, Peer>, p: Prefix, k: string) {
    || (Sent(w.index.peers, desired, k) && p in desired[k].allowedIPs)
    || (&& RoutedTo(w, p, k) && !Gone(w.index.peers, emails, desired, k) && !Sent(w.index.peers, desired, k)
        && forall j :: !(Sent(w.index.peers, desired, j) && p in desired[j].allowedIPs))
  }

  lemma CommitFields(validKey: string -> bool, w: World, desired: map<string, Peer>, emails: set<string>)
    requires Good(validKey, w) && Joinable(validKey, w.index.peers, desired, emails)
    ensures var w', peers := PartialCommit(validKey, w, desired, emails), w.index.peers;
            && w'.running == w.running && w'.index.peers == Joined(peers, desired, emails)
            && (forall k | k in w'.device.counters ::
                 w'.device.counters[k] == if k in w.device.counters then w.device.counters[k] else ZERO)
            && w'.stats == Retire(w.stats, Touched(peers, emails).Keys - desired.Keys)
  {
    CommitParts(validKey, w, desired, emails);
  }

  lemma CommitRoutes(validKey: string -> bool, w: World, desired: map<string, Peer>, emails: set<string>,
                     p: Prefix, k: string)
    requires Good(validKey, w) && Joinable(validKey, w.index.peers, desired, emails)
    ensures RoutedTo(PartialCommit(validKey, w, desired, emails), p, k) <==> RoutedAfter(w, emails, desired, p, k)
  {
    var existing := Touched(w.index.peers, emails);
    var plan := PlanFor(validKey, existing, desired);
    PlanExclusive(validKey, existing, desired);
    SettledOwner(w.device, plan, k, p);
    forall j ensures Gives(plan, j, p) <==> Sent(w.index.peers, desired, j) && p in desired[j].allowedIPs {
      PlanGives(validKey, existing, desired, j, p);
      PlannedIff(validKey, w.index.peers, desired, emails, j);
    }
    PlanGives(validKey, existing, desired, k, p);
    PlannedIff(validKey, w.index.peers, desired, emails, k);
    if RoutedTo(w, p, k) { assert Holds(w.index.peers, k, p); }
  }

  // ---- full synchronisation ----

  lemma FullOutcome(validKey: string -> bool, w: World, claims: map<string, Claim>, kernelOk: bool)
    requires Good(validKey, w) && Proper(validKey, claims)
    ensures FullSync(validKey, w, claims, kernelOk).1 == Failure(Refused) <==> exists e, f :: Collide(claims, e, f)
    ensures FullSync(validKey, w, claims, kernelOk).1.Failure? ==> FullSync(validKey, w, claims, kernelOk).0 == w
    ensures (forall e, f :: !Collide(claims, e, f)) ==>
              && !KeyClash(claims)
              && var r, same := FullSync(validKey, w, claims, kernelOk).1, w.index.peers == DesiredOf(claims);
                 && (r == Failure(NotStarted) <==> !same && !w.running)
                 && (r == Failure(KernelFailed) <==> !same && w.running && !kernelOk)
                 && (r == Success <==> same || (w.running && kernelOk))
  {
    ClashIff(claims);
    FullCases(validKey, w, claims, kernelOk);
  }

  // The state after success: nothing has happened if the store held the desired peers; otherwise store and
  // kernel have exactly these, with fresh counters, and the statistics of the others are marked.
  lemma FullState(validKey: string -> bool, w: World, claims: map<string, Claim>, kernelOk: bool)
    requires Good(validKey, w) && Proper(validKey, claims)
    requires FullSync(validKey, w, claims, kernelOk).1.Success?
    ensures !KeyClash(claims)
    ensures var w', desired := FullSync(validKey, w, claims, kernelOk).0, DesiredOf(claims);
            && w'.running == w.running && w'.index.peers == desired
            && (w.index.peers == desired ==> w' == w)
            && (w.index.peers != desired ==>
                 && (forall k :: k in w'.device.counters <==> k in desired)
                 && (forall k | k in desired :: w'.device.counters[k] == ZERO)
                 && (forall k, p :: RoutedTo(w', p, k) <==> k in desired && p in desired[k].allowedIPs)
                 && (forall k :: k in w'.stats <==> k in w.stats)
                 && (forall k | k in w.stats :: w'.stats[k] ==
                      if k in w.index.peers && k !in desired then w.stats[k].(deleted := true, lastActive := None)
                      else w.stats[k]))
  {
    FullCases(validKey, w, claims, kernelOk);
    var w', desired := FullSync(validKey, w, claims, kernelOk).0, DesiredOf(claims);
    if w.index.peers != desired { SnapshotFields(w', desired); }
  }

  lemma SnapshotFields(w: World, desired: map<string, Peer>)
    requires WellFormed(desired) && DisjointPrefixes(desired)
    requires Exclusive(Snapshot(desired)) ==> w.device == Settle(EMPTY, Snapshot(desired))
    ensures forall k :: k in w.device.counters <==> k in desired
    ensures forall k | k in desired :: w.device.counters[k] == ZERO
    ensures forall k, p :: RoutedTo(w, p, k) <==> k in desired && p in desired[k].allowedIPs
  {
    SnapshotAgrees(desired);
    forall k, p ensures RoutedTo(w, p, k) <==> k in desired && p in desired[k].allowedIPs {
      assert Holds(desired, k, p) <==> RoutedTo(w, p, k);
    }
  }

  // ---- restart ----

  // A restart succeeds exactly in a running backend whose kernel accepts, and tells which is missing.
  lemma RestartOutcome(validKey: string -> bool, w: World, order: seq<string>, kernelOk: bool)
    requires Good(validKey, w) && Listing(order, w.index.peers.Keys)
    ensures Restart(w, order, kernelOk).1 == Success <==> w.running && kernelOk
    ensures Restart(w, order, kernelOk).1 == Failure(NotStarted) <==> !w.running
    ensures Restart(w, order, kernelOk).1 == Failure(KernelFailed) <==> w.running && !kernelOk
    ensures !(w.running && kernelOk) ==> Restart(w, order, kernelOk).0 == w
  {}

  // The last peer of the order that holds the prefix.
  predicate LastHolder(peers: map<string, Peer>, order: seq<string>, i: int, p: Prefix)
    requires forall j | 0 <= j < |order| :: order[j] in peers
  {
    && 0 <= i < |order| && p in peers[order[i]].allowedIPs
    && forall j | i < j < |order| :: p !in peers[order[j]].allowedIPs
  }

  // The state after success: the store and the statistics are untouched, every stored peer is in the kernel with a
  // fresh counter, and each prefix is routed to the peer sent last among those that hold it.
  lemma RestartState(validKey: string -> bool, w: World, order: seq<string>, kernelOk: bool)
    requires Good(validKey, w) && Listing(order, w.index.peers.Keys) && w.running && kernelOk
    ensures forall j | 0 <= j < |order| :: order[j] in w.index.peers
    ensures var w' := Restart(w, order, kernelOk).0;
            && w' == w.(device := w'.device)
            && (forall k :: k in w'.device.counters <==> k in w.index.peers)
            && (forall k | k in w.index.peers :: w'.device.counters[k] == ZERO)
            && (forall k, p :: RoutedTo(w', p, k) <==>
                  exists i :: LastHolder(w.index.peers, order, i, p) && order[i] == k)
  {
    var w', peers := Restart(w, order, kernelOk).0, w.index.peers;
    RestartOutcome(validKey, w, order, kernelOk);
    RestartKeepsGood(validKey, w, order, kernelOk);
    RestartItems(peers, order);
    var cs := RestartConfigs(InOrder(peers, order));
    forall k, p ensures RoutedTo(w', p, k) <==> exists i :: LastHolder(peers, order, i, p) && order[i] == k {
      LastSentRoutes(peers, order, cs, p);
      if i :| LastHolder(peers, order, i, p) {
        forall j | LastHolder(peers, order, j, p) ensures j == i {}
      }
    }
  }

  lemma LastOfMore(peers: map<string, Peer>, order: seq<string>, i: int, p: Prefix)
    requires order != [] && forall j | 0 <= j < |order| :: order[j] in peers
    ensures var n := |order| - 1;
            LastHolder(peers, order, i, p) <==>
            if p in peers[order[n]].allowedIPs then i == n else LastHolder(peers, order[..n], i, p)
  {}

  lemma {:induction false} LastSentRoutes(peers: map<string, Peer>, order: seq<string>, cs: seq<PeerConfig>, p: Prefix)
    requires |cs| == |order| && forall j | 0 <= j < |order| :: order[j] in peers
    requires forall j | 0 <= j < |order| :: cs[j] == PeerConfig(order[j], peers[order[j]].allowedIPs, false, false)
    ensures p in ApplyConfigs(EMPTY, cs).owner ==> exists i :: LastHolder(peers, order, i, p)
    ensures forall i :: LastHolder(peers, order, i, p) ==>
              p in ApplyConfigs(EMPTY, cs).owner && ApplyConfigs(EMPTY, cs).owner[p] == order[i]
  {
    if order != [] {
      var n := |order| - 1;
      LastSentRoutes(peers, order[..n], cs[..n], p);
      forall i ensures LastHolder(peers, order, i, p) <==>
                 if p in peers[order[n]].allowedIPs then i == n else LastHolder(peers, order[..n], i, p)
      {
        LastOfMore(peers, order, i, p);
      }
      assert LastHolder(peers, order, n, p) <==> p in peers[order[n]].allowedIPs;
      assert ApplyConfigs(EMPTY, cs) == ApplyConfig(ApplyConfigs(EMPTY, cs[..n]), cs[n]);
    }
  }

  // An update with restart succeeds exactly if the update does and the running kernel accepts the restart.
  lemma UpdateAndRestartOutcome(validKey: string -> bool, w: World, claims: map<string, Claim>, kernelOk: bool,
                                order: seq<string>, restartOk: bool)
    requires Good(validKey, w) && Proper(validKey, claims)
    requires PartialSync(validKey, w, claims, kernelOk).1.Success? ==>
               Listing(order, PartialSync(validKey, w, claims, kernelOk).0.index.peers.Keys)
    ensures ThenRestart(PartialSync(validKey, w, claims, kernelOk), order, restartOk).1 == Success <==>
              PartialSync(validKey, w, claims, kernelOk).1 == Success && w.running && restartOk
    ensures PartialSync(validKey, w, claims, kernelOk).1.Failure? ==>
              ThenRestart(PartialSync(validKey, w, claims, kernelOk), order, restartOk) ==
              (w, PartialSync(validKey, w, claims, kernelOk).1)
    // When only the restart fails, the update remains.
    ensures PartialSync(validKey, w, claims, kernelOk).1.Success? && !(w.running && restartOk) ==>
              ThenRestart(PartialSync(validKey, w, claims, kernelOk), order, restartOk) ==
              (PartialSync(validKey, w, claims, kernelOk).0, Failure(if w.running then KernelFailed else NotStarted))
  {
    PartialOutcome(validKey, w, claims, kernelOk);
    if PartialSync(validKey, w, claims, kernelOk).1.Success? {
      PartialKeepsGood(validKey, w, claims, kernelOk);
      PartialSucceeded(validKey, w, claims, kernelOk);
      RestartOutcome(validKey, PartialSync(validKey, w, claims, kernelOk).0, order, restartOk);
    }
  }

  // ---- startup ----

  // Startup leaves exactly the desired peers in store and kernel, with fresh counters and no statistics.
  lemma StartupState(validKey: string -> bool, claims: map<string, Claim>)
    requires Proper(validKey, claims) && !Clash(claims)
    ensures var w, desired := Startup(validKey, claims), DesiredOf(claims);
            && w.running && w.index.peers == desired && w.stats == map[]
            && (forall k :: k in w.device.counters <==> k in desired)
            && (forall k | k in desired :: w.device.counters[k] == ZERO)
            && (forall k, p :: RoutedTo(w, p, k) <==> k in desired && p in desired[k].allowedIPs)
  {
    ProperDesired(validKey, claims);
    SnapshotFields(Startup(validKey, claims), DesiredOf(claims));
  }

  // ---- a key swap inside a request that does not cover the store ----

  function Holding(a: Prefix, b: Prefix, c: Prefix): map<string, Claim> {
    map["u" := Claim(Peer("u", "U", [a]), true), "v" := Claim(Peer("v", "V", [b]), true),
        "w" := Claim(Peer("w", "W", [c]), true)]
  }

  function Swapping(a: Prefix, b: Prefix): map<string, Claim> {
    map["u" := Claim(Peer("u", "V", [a]), true), "v" := Claim(Peer("v", "U", [b]), true)]
  }

  lemma HoldingDesired(validKey: string -> bool, a: Prefix, b: Prefix, c: Prefix)
    requires validKey("U") && validKey("V") && validKey("W") && a != b && b != c && a != c
    ensures Proper(validKey, Holding(a, b, c)) && !Clash(Holding(a, b, c))
    ensures DesiredOf(Holding(a, b, c)) ==
            map["U" := Peer("u", "U", [a]), "V" := Peer("v", "V", [b]), "W" := Peer("w", "W", [c])]
  {
    var m := Holding(a, b, c);
    var d := DesiredOf(m);
    assert Wants(m, "u", "U") && Wants(m, "v", "V") && Wants(m, "w", "W");
    assert forall k | k in d :: Wants(m, d[k].email, k);
  }

  lemma SwappingDesired(validKey: string -> bool, a: Prefix, b: Prefix)
    requires validKey("U") && validKey("V") && a != b
    ensures Proper(validKey, Swapping(a, b)) && !Clash(Swapping(a, b))
    ensures DesiredOf(Swapping(a, b)) == map["V" := Peer("u", "V", [a]), "U" := Peer("v", "U", [b])]
  {
    var m := Swapping(a, b);
    var d := DesiredOf(m);
    assert Wants(m, "u", "V") && Wants(m, "v", "U");
    assert forall k | k in d :: Wants(m, d[k].email, k);
  }

  // Users u and v exchange their keys while w is not in the request: accepted, each prefix stays with its
  // user and is routed to the user's new key, and w is left alone.
  lemma KeysSwapped(validKey: string -> bool, a: Prefix, b: Prefix, c: Prefix) returns (w: World)
    requires validKey("U") && validKey("V") && validKey("W") && a != b && b != c && a != c
    ensures Good(validKey, w) && w.running && Proper(validKey, Swapping(a, b))
    ensures w.index.peers == map["U" := Peer("u", "U", [a]), "V" := Peer("v", "V", [b]), "W" := Peer("w", "W", [c])]
    ensures PartialSync(validKey, w, Swapping(a, b), true).1 == Success
    ensures var w' := PartialSync(validKey, w, Swapping(a, b), true).0;
            && w'.index.peers == map["U" := Peer("v", "U", [b]), "V" := Peer("u", "V", [a]), "W" := Peer("w", "W", [c])]
            && RoutedTo(w', a, "V") && RoutedTo(w', b, "U") && RoutedTo(w', c, "W")
  {
    HoldingDesired(validKey, a, b, c);
    StartupAgrees(validKey, Holding(a, b, c));
    StartupState(validKey, Holding(a, b, c));
    w := Startup(validKey, Holding(a, b, c));
    SwapAccepted(validKey, w, a, b, c);
    SwapStored(validKey, w, a, b, c);
  }

  lemma SwapAccepted(validKey: string -> bool, w: World, a: Prefix, b: Prefix, c: Prefix)
    requires validKey("U") && validKey("V") && a != b && Good(validKey, w) && w.running
    requires w.index.peers == map["U" := Peer("u", "U", [a]), "V" := Peer("v", "V", [b]), "W" := Peer("w", "W", [c])]
    ensures Proper(validKey, Swapping(a, b)) && PartialSync(validKey, w, Swapping(a, b), true).1 == Success
  {
    SwappingDesired(validKey, a, b);
    ClashIff(Swapping(a, b));
    PartialOutcome(validKey, w, Swapping(a, b), true);
    NobodyElse(w.index.peers, DesiredOf(Swapping(a, b)), Swapping(a, b), a, b, c);
  }

  lemma NobodyElse(peers: map<string, Peer>, desired: map<string, Peer>, claims: map<string, Claim>,
                   a: Prefix, b: Prefix, c: Prefix)
    requires peers == map["U" := Peer("u", "U", [a]), "V" := Peer("v", "V", [b]), "W" := Peer("w", "W", [c])]
    requires desired.Keys == {"U", "V"} && claims == Swapping(a, b)
    ensures !exists k :: k in desired && k in peers && peers[k].email !in claims
  {}

  lemma SwapStored(validKey: string -> bool, w: World, a: Prefix, b: Prefix, c: Prefix)
    requires validKey("U") && validKey("V") && a != b && b != c && a != c && Good(validKey, w) && RoutedTo(w, c, "W")
    requires w.index.peers == map["U" := Peer("u", "U", [a]), "V" := Peer("v", "V", [b]), "W" := Peer("w", "W", [c])]
    requires Proper(validKey, Swapping(a, b)) && PartialSync(validKey, w, Swapping(a, b), true).1 == Success
    ensures var w' := PartialSync(validKey, w, Swapping(a, b), true).0;
            && w'.index.peers == map["U" := Peer("v", "U", [b]), "V" := Peer("u", "V", [a]), "W" := Peer("w", "W", [c])]
            && RoutedTo(w', a, "V") && RoutedTo(w', b, "U") && RoutedTo(w', c, "W")
  {
    var desired := SwapFacts(validKey, w, a, b);
    var w' := PartialSync(validKey, w, Swapping(a, b), true).0;
    SwapPeers(w.index.peers, w'.index.peers, desired, a, b, c);
    SwapRoutes(w, w', a, b, c);
  }

  lemma SwapFacts(validKey: string -> bool, w: World, a: Prefix, b: Prefix) returns (desired: map<string, Peer>)
    requires validKey("U") && validKey("V") && a != b && Good(validKey, w)
    requires Proper(validKey, Swapping(a, b)) && PartialSync(validKey, w, Swapping(a, b), true).1 == Success
    ensures desired == map["V" := Peer("u", "V", [a]), "U" := Peer("v", "U", [b])]
    ensures var w', peers := PartialSync(validKey, w, Swapping(a, b), true).0, w.index.peers;
            && (forall k :: k in w'.index.peers <==> k in desired || (k in peers && peers[k].email !in Swapping(a, b)))
            && (forall k | k in w'.index.peers :: w'.index.peers[k] == if k in desired then desired[k] else peers[k])
            && (forall k, p :: RoutedTo(w', p, k) <==> RoutedAfter(w, {"u", "v"}, desired, p, k))
  {
    SwappingDesired(validKey, a, b);
    desired := DesiredOf(Swapping(a, b));
    PartialState(validKey, w, Swapping(a, b), true);
    assert Swapping(a, b).Keys == {"u", "v"};
  }

  lemma SwapPeers(peers: map<string, Peer>, after: map<string, Peer>, desired: map<string, Peer>,
                  a: Prefix, b: Prefix, c: Prefix)
    requires peers == map["U" := Peer("u", "U", [a]), "V" := Peer("v", "V", [b]), "W" := Peer("w", "W", [c])]
    requires desired == map["V" := Peer("u", "V", [a]), "U" := Peer("v", "U", [b])]
    requires forall k :: k in after <==> k in desired || (k in peers && peers[k].email !in Swapping(a, b))
    requires forall k | k in after :: after[k] == if k in desired then desired[k] else peers[k]
    ensures after == map["U" := Peer("v", "U", [b]), "V" := Peer("u", "V", [a]), "W" := Peer("w", "W", [c])]
  {}

  lemma SwapRoutes(w: World, w': World, a: Prefix, b: Prefix, c: Prefix)
    requires a != b && b != c && a != c && RoutedTo(w, c, "W")
    requires w.index.peers == map["U" := Peer("u", "U", [a]), "V" := Peer("v", "V", [b]), "W" := Peer("w", "W", [c])]
    requires var desired := map["V" := Peer("u", "V", [a]), "U" := Peer("v", "U", [b])];
             forall k, p :: RoutedTo(w', p, k) <==> RoutedAfter(w, {"u", "v"}, desired, p, k)
    ensures RoutedTo(w', a, "V") && RoutedTo(w', b, "U") && RoutedTo(w', c, "W")
  {
    var desired := map["V" := Peer("u", "V", [a]), "U" := Peer("v", "U", [b])];
    assert RoutedAfter(w, {"u", "v"}, desired, a, "V");
    assert RoutedAfter(w, {"u", "v"}, desired, b, "U");
    assert RoutedAfter(w, {"u", "v"}, desired, c, "W");
  }
}
