// From a user list to the peers it asks for: normalizeUsers and collectDesiredPeers
// (node-main/backend/wireguard/user_common.go).
module DesiredPeers {
  import opened Prelude
  import opened Cidr
  import opened Claims

  datatype Wireguard = Wireguard(publicKey: string, peerIps: seq<string>)

  // `wireguard` is None when the user has no proxies or no WireGuard proxy.
  datatype User = User(email: string, inbounds: seq<string>, wireguard: Option<Wireguard>)

  // The interface configuration together with the two parsers of the Go libraries:
  // whether wgtypes.ParseKey accepts a key, and what net.ParseCIDR makes of a text.
  datatype Config = Config(interfaceName: string, networks: seq<ValidPrefix>, privateKeyOk: bool,
                           validKey: string -> bool, parseCIDR: string -> Option<ValidPrefix>)

  type ValidPrefix = p: Prefix | Valid(p) witness Prefix(V4, 0, 32)

  datatype CollectError = DuplicatePrefix | DuplicateKey

  datatype Collected = Wanted(peers: map<string, Peer>) | Rejected(error: CollectError)

  function UserEmail(u: User): string { u.email }

  // ---- normalizeUsers ----

  predicate Usable(u: Option<User>) {
    u.Some? && u.value.email != "" && u.value.wireguard.Some? && Normal(u.value)
  }

  predicate Normal(u: User) {
    u.email != "" && u.wireguard.Some? && u.wireguard.value.publicKey != "" && u.wireguard.value.peerIps != []
  }

  predicate AllNormal(m: map<string, User>) {
    forall e | e in m :: Normal(m[e]) && m[e].email == e
  }

  // For every email the last usable user of the request.
  function LastByEmail(users: seq<Option<User>>): (m: map<string, User>)
    ensures AllNormal(m)
  {
    if users == [] then map[]
    else
      var m := LastByEmail(users[..|users| - 1]);
      var u := users[|users| - 1];
      if Usable(u) then m[u.value.email := u.value] else m
  }

  predicate IsLastUsable(users: seq<Option<User>>, i: nat) {
    i < |users| && Usable(users[i]) &&
    forall j | i < j < |users| :: Usable(users[j]) ==> users[j].value.email != users[i].value.email
  }

  lemma StillLast(users: seq<Option<User>>, i: nat)
    requires users != [] && IsLastUsable(users[..|users| - 1], i)
    requires Usable(users[|users| - 1]) ==> users[|users| - 1].value.email != users[i].value.email
    ensures IsLastUsable(users, i) && users[..|users| - 1][i] == users[i]
  {
    var before := users[..|users| - 1];
    assert forall j | 0 <= j < |before| :: before[j] == users[j];
  }

  lemma {:induction false} LastByEmailMeaning(users: seq<Option<User>>, e: string)
    ensures e in LastByEmail(users) <==> exists i | 0 <= i < |users| :: Usable(users[i]) && users[i].value.email == e
    ensures e in LastByEmail(users) ==>
              exists i | 0 <= i < |users| :: IsLastUsable(users, i) && users[i].value == LastByEmail(users)[e]
  {
    if users != [] {
      var n := |users| - 1;
      var before := users[..n];
      LastByEmailMeaning(before, e);
      if Usable(users[n]) && users[n].value.email == e {
        assert IsLastUsable(users, n);
      } else if e in LastByEmail(before) {
        var i :| 0 <= i < n && IsLastUsable(before, i) && before[i].value == LastByEmail(before)[e];
        StillLast(users, i);
        assert IsLastUsable(users, i) && users[i].value == LastByEmail(users)[e];
      } else {
        forall i | 0 <= i < |users| && Usable(users[i]) ensures users[i].value.email != e {
          if i < n { assert before[i] == users[i]; }
        }
      }
    }
  }

  // The result lists the last usable user of every email, in no particular order.
  method NormalizeUsers(users: seq<Option<User>>) returns (normalized: seq<User>)
    ensures DistinctBy(normalized, UserEmail)
    ensures IndexBy(normalized, UserEmail) == LastByEmail(users)
  {
    var lastByEmail: map<string, User> := map[];
    for i := 0 to |users|
      invariant lastByEmail == LastByEmail(users[..i])
    {
      assert users[..i+1][..i] == users[..i];
      var user := users[i];
      if user.None? || user.value.email == "" || user.value.wireguard.None?
         || user.value.wireguard.value.publicKey == "" || |user.value.wireguard.value.peerIps| == 0 {
        continue;
      }
      lastByEmail := lastByEmail[user.value.email := user.value];
    }
    assert users[..|users|] == users;
    normalized := UsersInOrder(lastByEmail);
  }

  // The values of the map as a slice.
  method UsersInOrder(m: map<string, User>) returns (us: seq<User>)
    requires AllNormal(m)
    ensures DistinctBy(us, UserEmail) && IndexBy(us, UserEmail) == m
  {
    var order := AnyOrder(m.Keys);
    us := [];
    for i := 0 to |order|
      invariant Gathered(us, UserEmail, m, Elems(order[..i]))
    {
      ElemsPrefix(order, i);
      GatherHit(us, m[order[i]], UserEmail, m, Elems(order[..i]));
      us := us + [m[order[i]]];
    }
    assert order[..|order|] == order;
    GatherAll(us, UserEmail, m, m.Keys);
  }

  // ---- the peers a normalised request asks for, independent of its order ----

  predicate Included(cfg: Config, u: User)
    requires Normal(u)
  {
    cfg.interfaceName in u.inbounds && cfg.validKey(u.wireguard.value.publicKey)
  }

  // The prefix a text contributes: none when it lies outside the interface networks.
  ghost function PrefixOf(cfg: Config, net: ValidPrefix): seq<Prefix> {
    if Allowed(net, cfg.networks) then [Canonical(net)] else []
  }

  // The canonical prefixes read before the first text that does not parse,
  // leaving out those outside the interface networks.
  ghost function Recorded(cfg: Config, ips: seq<string>): seq<Prefix> {
    if ips == [] then [] else
      match cfg.parseCIDR(ips[0])
      case None => []
      case Some(net) => PrefixOf(cfg, net) + Recorded(cfg, ips[1..])
  }

  ghost predicate AllParse(cfg: Config, ips: seq<string>) {
    forall i | 0 <= i < |ips| :: cfg.parseCIDR(ips[i]).Some?
  }

  // The prefixes the user occupies in the duplicate check, even when the user is quarantined later.
  ghost function Occupies(cfg: Config, u: User): seq<Prefix>
    requires Normal(u)
  {
    if Included(cfg, u) then Recorded(cfg, u.wireguard.value.peerIps) else []
  }

  ghost function ClaimOf(cfg: Config, u: User): Claim
    requires Normal(u)
  {
    var occupied := Occupies(cfg, u);
    Claim(Peer(u.email, u.wireguard.value.publicKey, occupied),
          Included(cfg, u) && AllParse(cfg, u.wireguard.value.peerIps) && occupied != [])
  }

  ghost function ClaimsOf(cfg: Config, m: map<string, User>): (c: map<string, Claim>)
    requires AllNormal(m)
    ensures ByEmail(c) && c.Keys == m.Keys
    ensures forall e | e in c :: c[e].survives ==> c[e].peer.allowedIPs != [] && cfg.validKey(c[e].peer.key)
  {
    map e | e in m :: ClaimOf(cfg, m[e])
  }

  // ---- collectDesiredPeers ----

  datatype Scan = Scanned(seen: map<Prefix, string>, allowed: seq<Prefix>, hasInvalidIP: bool) | Duplicate

  // The inner loop before text i: what was taken so far and how it is marked.
  ghost predicate Scanning(cfg: Config, email: string, ips: seq<string>, i: nat, seen0: map<Prefix, string>,
                           seen: map<Prefix, string>, allowed: seq<Prefix>) {
    && i <= |ips| && (forall j | 0 <= j < i :: cfg.parseCIDR(ips[j]).Some?)
    && Recorded(cfg, ips) == allowed + Recorded(cfg, ips[i..])
    && (forall p | p in allowed :: p in seen0 ==> seen0[p] == email)
    && seen == Mark(seen0, allowed, email)
  }

  // Reading one more text extends what was taken by at most one canonical prefix.
  lemma RecordedStep(cfg: Config, ips: seq<string>, i: nat, taken: seq<Prefix>)
    requires i < |ips| && Recorded(cfg, ips) == taken + Recorded(cfg, ips[i..])
    ensures cfg.parseCIDR(ips[i]).None? ==> Recorded(cfg, ips) == taken
    ensures cfg.parseCIDR(ips[i]).Some? ==>
              Recorded(cfg, ips) == (taken + PrefixOf(cfg, cfg.parseCIDR(ips[i]).value)) + Recorded(cfg, ips[i+1..])
  {
    assert ips[i..][1..] == ips[i+1..];
    if cfg.parseCIDR(ips[i]).Some? {
      var here, rest := PrefixOf(cfg, cfg.parseCIDR(ips[i]).value), Recorded(cfg, ips[i+1..]);
      assert taken + (here + rest) == (taken + here) + rest;
    }
  }

  lemma MarkOneMore(seen: map<Prefix, string>, ps: seq<Prefix>, p: Prefix, email: string)
    ensures Mark(seen, ps + [p], email) == Mark(seen, ps, email)[p := email]
  {}

  lemma MarkNothing(seen: map<Prefix, string>, email: string)
    ensures Mark(seen, [], email) == seen
  {}

  lemma MarkedElsewhere(seen: map<Prefix, string>, ps: seq<Prefix>, p: Prefix, email: string)
    requires p in Mark(seen, ps, email) && Mark(seen, ps, email)[p] != email
    ensures p in seen && seen[p] == Mark(seen, ps, email)[p]
  {}

  lemma ScanSkip(cfg: Config, email: string, ips: seq<string>, i: nat, seen0: map<Prefix, string>,
                 seen: map<Prefix, string>, allowed: seq<Prefix>)
    requires i < |ips| && Scanning(cfg, email, ips, i, seen0, seen, allowed)
    requires cfg.parseCIDR(ips[i]).Some? && !Allowed(cfg.parseCIDR(ips[i]).value, cfg.networks)
    ensures Scanning(cfg, email, ips, i + 1, seen0, seen, allowed)
  {
    RecordedStep(cfg, ips, i, allowed);
    assert allowed + [] == allowed;
  }

  lemma ScanTake(cfg: Config, email: string, ips: seq<string>, i: nat, seen0: map<Prefix, string>,
                 seen: map<Prefix, string>, allowed: seq<Prefix>, p: Prefix)
    requires i < |ips| && Scanning(cfg, email, ips, i, seen0, seen, allowed)
    requires cfg.parseCIDR(ips[i]).Some? && PrefixOf(cfg, cfg.parseCIDR(ips[i]).value) == [p]
    ensures p in seen && seen[p] != email ==> p in seen0 && seen0[p] != email && p in Recorded(cfg, ips)
    ensures !(p in seen && seen[p] != email) ==>
            Scanning(cfg, email, ips, i + 1, seen0, seen[p := email], allowed + [p])
  {
    RecordedStep(cfg, ips, i, allowed);
    if p in seen && seen[p] != email {
      MarkedElsewhere(seen0, allowed, p, email);
      assert p in allowed + [p];
    } else {
      MarkOneMore(seen0, allowed, p, email);
      assert p in seen0 ==> p in seen;
    }
  }

  lemma ScanEnd(cfg: Config, email: string, ips: seq<string>, i: nat, seen0: map<Prefix, string>,
                seen: map<Prefix, string>, allowed: seq<Prefix>)
    requires Scanning(cfg, email, ips, i, seen0, seen, allowed)
    requires i == |ips| || cfg.parseCIDR(ips[i]).None?
    ensures Recorded(cfg, ips) == allowed && seen == Mark(seen0, Recorded(cfg, ips), email)
    ensures forall p | p in Recorded(cfg, ips) :: p in seen0 ==> seen0[p] == email
    ensures AllParse(cfg, ips) <==> i == |ips|
  {
    if i < |ips| { RecordedStep(cfg, ips, i, allowed); } else { assert allowed + [] == allowed; }
  }

  // The inner loop over one user's peer IPs.
  method ScanPeerIps(cfg: Config, email: string, ips: seq<string>, seen0: map<Prefix, string>) returns (r: Scan)
    ensures r.Duplicate? <==> Contested(seen0, Recorded(cfg, ips), email)
    ensures r.Scanned? ==> r.hasInvalidIP == !AllParse(cfg, ips)
    ensures r.Scanned? ==> r.seen == Mark(seen0, Recorded(cfg, ips), email)
    ensures r.Scanned? ==> r.allowed == Recorded(cfg, ips)
  {
    var seen, allowed := seen0, [];
    assert ips[0..] == ips;
    for i := 0 to |ips|
      invariant Scanning(cfg, email, ips, i, seen0, seen, allowed)
    {
      var parsed := cfg.parseCIDR(ips[i]);
      if parsed.None? {
        ScanEnd(cfg, email, ips, i, seen0, seen, allowed);
        return Scanned(seen, allowed, true);
      }
      var ok := PeerIPAllowedOnInterface(parsed.value, cfg.networks);
      if !ok {
        ScanSkip(cfg, email, ips, i, seen0, seen, allowed);
        continue;
      }
      var canonical := Canonical(parsed.value);
      ScanTake(cfg, email, ips, i, seen0, seen, allowed, canonical);
      if canonical in seen && seen[canonical] != email {
        return Duplicate;
      }
      seen := seen[canonical := email];
      allowed := allowed + [canonical];
    }
    ScanEnd(cfg, email, ips, |ips|, seen0, seen, allowed);
    r := Scanned(seen, allowed, false);
  }

  datatype Visit = Visited(seen: map<Prefix, string>, desired: map<string, Peer>) | Refused(error: CollectError)

  // The body of the outer loop.
  method VisitUser(cfg: Config, user: User, seen: map<Prefix, string>, desired: map<string, Peer>,
                   ghost before: map<string, Claim>) returns (r: Visit)
    requires Normal(user) && user.email !in before && Progress(before, seen, desired)
    ensures r.Refused? ==> Clash(before[user.email := ClaimOf(cfg, user)])
    ensures r.Visited? ==> Progress(before[user.email := ClaimOf(cfg, user)], r.seen, r.desired)
  {
    var wg := user.wireguard.value;
    VisitCases(before, ClaimOf(cfg, user), seen, desired);
    if cfg.interfaceName !in user.inbounds || !cfg.validKey(wg.publicKey) {
      MarkNothing(seen, user.email);
      return Visited(seen, desired);
    }
    var scan := ScanPeerIps(cfg, user.email, wg.peerIps, seen);
    if scan.Duplicate? {
      return Refused(DuplicatePrefix);
    }
    if scan.hasInvalidIP || |scan.allowed| == 0 {
      return Visited(scan.seen, desired);
    }
    if wg.publicKey in desired && desired[wg.publicKey].email != user.email {
      return Refused(DuplicateKey);
    }
    r := Visited(scan.seen, desired[wg.publicKey := Peer(user.email, wg.publicKey, scan.allowed)]);
  }

  ghost function EmailsUpTo(users: seq<User>, n: nat): set<string>
    requires n <= |users|
  {
    if n == 0 then {} else EmailsUpTo(users, n - 1) + {users[n - 1].email}
  }

  // Normal users, each with an email that none before has.
  ghost predicate Fresh(users: seq<User>, n: nat)
    requires n <= |users|
  {
    n == 0 || (Fresh(users, n - 1) && Normal(users[n - 1]) && users[n - 1].email !in EmailsUpTo(users, n - 1))
  }

  ghost function ClaimsUpTo(cfg: Config, users: seq<User>, n: nat): (c: map<string, Claim>)
    requires n <= |users| && Fresh(users, n)
    ensures c.Keys == EmailsUpTo(users, n)
  {
    if n == 0 then map[] else ClaimsUpTo(cfg, users, n - 1)[users[n - 1].email := ClaimOf(cfg, users[n - 1])]
  }

  lemma {:induction false} FreshPrefix(users: seq<User>, i: nat, n: nat)
    requires i <= n <= |users| && Fresh(users, n)
    ensures Fresh(users, i)
  {
    if i < n { FreshPrefix(users, i, n - 1); }
  }

  lemma {:induction false} ClaimsGrow(cfg: Config, users: seq<User>, i: nat, n: nat)
    requires i <= n <= |users| && Fresh(users, n)
    ensures Fresh(users, i)
    ensures forall e | e in ClaimsUpTo(cfg, users, i) ::
              e in ClaimsUpTo(cfg, users, n) && ClaimsUpTo(cfg, users, n)[e] == ClaimsUpTo(cfg, users, i)[e]
  {
    if i < n { ClaimsGrow(cfg, users, i, n - 1); }
  }

  lemma ClashRemains(cfg: Config, users: seq<User>, i: nat)
    requires i <= |users| && Fresh(users, |users|)
    ensures Fresh(users, i)
    ensures Clash(ClaimsUpTo(cfg, users, i)) ==> Clash(ClaimsUpTo(cfg, users, |users|))
  {
    ClaimsGrow(cfg, users, i, |users|);
    if Clash(ClaimsUpTo(cfg, users, i)) { ClashGrows(ClaimsUpTo(cfg, users, i), ClaimsUpTo(cfg, users, |users|)); }
  }

  // The outer loop.
  method CollectInOrder(cfg: Config, users: seq<User>) returns (r: Collected)
    requires Fresh(users, |users|)
    ensures r.Rejected? <==> Clash(ClaimsUpTo(cfg, users, |users|))
    ensures r.Wanted? ==> r.peers == DesiredOf(ClaimsUpTo(cfg, users, |users|))
  {
    var desired: map<string, Peer> := map[];
    var seen: map<Prefix, string> := map[];
    for i := 0 to |users|
      invariant Fresh(users, i) && Progress(ClaimsUpTo(cfg, users, i), seen, desired)
    {
      FreshPrefix(users, i + 1, |users|);
      var visit := VisitUser(cfg, users[i], seen, desired, ClaimsUpTo(cfg, users, i));
      if visit.Refused? {
        ClashRemains(cfg, users, i + 1);
        return Rejected(visit.error);
      }
      seen, desired := visit.seen, visit.desired;
    }
    SeenMeansNoClash(ClaimsUpTo(cfg, users, |users|), seen);
    r := Wanted(desired);
  }

  lemma {:induction false} EmailsUpToMeaning(users: seq<User>, n: nat, e: string)
    requires n <= |users|
    ensures e in EmailsUpTo(users, n) <==> exists i :: 0 <= i < n && users[i].email == e
  {
    if n > 0 {
      EmailsUpToMeaning(users, n - 1, e);
      if users[n - 1].email == e { assert e in EmailsUpTo(users, n); }
    }
  }

  lemma {:induction false} DistinctIsFresh(users: seq<User>, n: nat)
    requires DistinctBy(users, UserEmail) && (forall u | u in users :: Normal(u)) && n <= |users|
    ensures Fresh(users, n)
  {
    if n > 0 {
      DistinctIsFresh(users, n - 1);
      EmailsUpToMeaning(users, n - 1, users[n - 1].email);
      forall i | 0 <= i < n - 1 ensures users[i].email != users[n - 1].email {
        assert UserEmail(users[i]) != UserEmail(users[n - 1]);
      }
    }
  }

  lemma {:induction false} ClaimsUpToAt(cfg: Config, users: seq<User>, n: nat, i: nat)
    requires i < n <= |users| && Fresh(users, n)
    ensures Normal(users[i]) && users[i].email in ClaimsUpTo(cfg, users, n)
    ensures ClaimsUpTo(cfg, users, n)[users[i].email] == ClaimOf(cfg, users[i])
  {
    if i < n - 1 { ClaimsUpToAt(cfg, users, n - 1, i); }
  }

  lemma ListedNormal(users: seq<User>, m: map<string, User>)
    requires DistinctBy(users, UserEmail) && m == IndexBy(users, UserEmail) && AllNormal(m)
    ensures Fresh(users, |users|)
  {
    IndexByElements(users, UserEmail);
    forall u | u in users ensures Normal(u) { assert m[UserEmail(u)] == u; }
    DistinctIsFresh(users, |users|);
  }

  // Two maps say the same about email e.
  predicate SameAt(a: map<string, Claim>, b: map<string, Claim>, e: string) {
    (e in a <==> e in b) && (e in a && e in b ==> a[e] == b[e])
  }

  lemma SameMap(a: map<string, Claim>, b: map<string, Claim>)
    requires forall e :: SameAt(a, b, e)
    ensures a == b
  {
    assert forall e :: e in a <==> e in b by {
      forall e ensures e in a <==> e in b { assert SameAt(a, b, e); }
    }
    forall e | e in a ensures a[e] == b[e] { assert SameAt(a, b, e); }
  }

  lemma ListedAt(cfg: Config, users: seq<User>, m: map<string, User>, e: string)
    requires DistinctBy(users, UserEmail) && m == IndexBy(users, UserEmail) && AllNormal(m) && Fresh(users, |users|)
    ensures SameAt(ClaimsUpTo(cfg, users, |users|), ClaimsOf(cfg, m), e)
  {
    EmailsUpToMeaning(users, |users|, e);
    IndexByElements(users, UserEmail);
    if e in m {
      var i :| 0 <= i < |users| && users[i] == m[e];
      assert users[i].email == e;
      ClaimsUpToAt(cfg, users, |users|, i);
    }
    if e in EmailsUpTo(users, |users|) {
      var i :| 0 <= i < |users| && users[i].email == e;
      assert UserEmail(users[i]) in m;
    }
  }

  // A request listed by distinct emails, read from the front.
  lemma AllListed(cfg: Config, users: seq<User>, m: map<string, User>)
    requires DistinctBy(users, UserEmail) && m == IndexBy(users, UserEmail) && AllNormal(m)
    ensures Fresh(users, |users|) && ClaimsUpTo(cfg, users, |users|) == ClaimsOf(cfg, m)
  {
    ListedNormal(users, m);
    var a, b := ClaimsUpTo(cfg, users, |users|), ClaimsOf(cfg, m);
    forall e ensures SameAt(a, b, e) { ListedAt(cfg, users, m, e); }
    SameMap(a, b);
  }

  // Every order of the request gives the same answer: a rejection exactly when two users
  // clash, and otherwise the same map.
  method CollectDesiredPeers(cfg: Config, users: seq<User>, ghost m: map<string, User>) returns (r: Collected)
    requires DistinctBy(users, UserEmail) && m == IndexBy(users, UserEmail) && AllNormal(m)
    ensures r.Rejected? <==> Clash(ClaimsOf(cfg, m))
    ensures r.Wanted? ==> r.peers == DesiredOf(ClaimsOf(cfg, m))
  {
    AllListed(cfg, users, m);
    r := CollectInOrder(cfg, users);
  }
}
