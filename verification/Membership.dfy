// Which users of a request become peers of the interface, with which prefixes, and which of them
// exclude each other, in terms of the users themselves (node-main/backend/wireguard/user_common.go).
module Membership {
  import opened Prelude
  import opened Cidr
  import opened Claims
  import opened DesiredPeers

  // A request keeps, for every email, the last of its users with this email that has a key and
  // prefix texts; an entry without an email, a WireGuard proxy, a key or a text counts as absent.
  lemma KeptUsers(users: seq<Option<User>>, e: string)
    ensures e in LastByEmail(users) <==> e != "" && exists i | 0 <= i < |users| ::
              && users[i].Some? && users[i].value.email == e && users[i].value.wireguard.Some?
              && users[i].value.wireguard.value.publicKey != "" && users[i].value.wireguard.value.peerIps != []
    ensures e in LastByEmail(users) ==> exists i | 0 <= i < |users| ::
              && users[i] == Some(LastByEmail(users)[e])
              && forall j | i < j < |users| && users[j].Some? && users[j].value.email == e ::
                   users[j].value.wireguard.None? || users[j].value.wireguard.value.publicKey == "" ||
                   users[j].value.wireguard.value.peerIps == []
  {
    LastByEmailMeaning(users, e);
    if e in LastByEmail(users) {
      var i :| 0 <= i < |users| && IsLastUsable(users, i) && users[i].value == LastByEmail(users)[e];
      assert users[i] == Some(LastByEmail(users)[e]);
      forall j | i < j < |users| && users[j].Some? && users[j].value.email == e
        ensures users[j].value.wireguard.None? || users[j].value.wireguard.value.publicKey == "" ||
                users[j].value.wireguard.value.peerIps == []
      {
        assert !Usable(users[j]);
      }
    }
    if i :| 0 <= i < |users| && users[i].Some? && users[i].value.email == e && Usable(users[i]) {}
  }

  // Text i of the user is read, lies in the networks of the interface and stands for prefix p.
  predicate ReadsAt(cfg: Config, ips: seq<string>, i: nat, p: Prefix) {
    && i < |ips| && (forall h | 0 <= h <= i :: cfg.parseCIDR(ips[h]).Some?)
    && Allowed(cfg.parseCIDR(ips[i]).value, cfg.networks) && Canonical(cfg.parseCIDR(ips[i]).value) == p
  }

  // The recorded prefixes are those of the texts up to the first that does not parse.
  lemma {:induction false} RecordedIff(cfg: Config, ips: seq<string>, p: Prefix)
    ensures p in Recorded(cfg, ips) <==> exists i :: ReadsAt(cfg, ips, i, p)
  {
    if ips != [] && cfg.parseCIDR(ips[0]).Some? {
      RecordedIff(cfg, ips[1..], p);
      FirstRead(cfg, ips, p);
      if i: nat :| ReadsAt(cfg, ips, i, p) {
        if i > 0 { ReadsShifted(cfg, ips, i - 1, p); }
      }
      if i: nat :| ReadsAt(cfg, ips[1..], i, p) { ReadsShifted(cfg, ips, i, p); }
    }
  }

  lemma FirstRead(cfg: Config, ips: seq<string>, p: Prefix)
    requires ips != [] && cfg.parseCIDR(ips[0]).Some?
    ensures ReadsAt(cfg, ips, 0, p) <==> p in PrefixOf(cfg, cfg.parseCIDR(ips[0]).value)
    ensures p in Recorded(cfg, ips) <==> ReadsAt(cfg, ips, 0, p) || p in Recorded(cfg, ips[1..])
  {}

  lemma ReadsShifted(cfg: Config, ips: seq<string>, i: nat, p: Prefix)
    requires ips != [] && cfg.parseCIDR(ips[0]).Some?
    ensures ReadsAt(cfg, ips, i + 1, p) <==> ReadsAt(cfg, ips[1..], i, p)
  {
    if i + 1 < |ips| {
      forall h | 0 <= h <= i ensures ips[1..][h] == ips[h + 1] {}
      if ReadsAt(cfg, ips[1..], i, p) {
        forall h | 0 <= h <= i + 1 ensures cfg.parseCIDR(ips[h]).Some? {
          if h > 0 { assert ips[1..][h - 1] == ips[h]; }
        }
      }
    }
  }

  // A user becomes a peer of the interface under key k if and only if the interface is among its
  // inbounds, k is its key and parses, all its texts parse, and one of them lies in the networks.
  lemma MemberIff(cfg: Config, m: map<string, User>, e: string, k: string)
    requires AllNormal(m) && !KeyClash(ClaimsOf(cfg, m))
    ensures var d := DesiredOf(ClaimsOf(cfg, m));
            k in d && d[k].email == e <==>
              && e in m && cfg.interfaceName in m[e].inbounds
              && k == m[e].wireguard.value.publicKey && cfg.validKey(k)
              && (forall i | 0 <= i < |m[e].wireguard.value.peerIps| ::
                   cfg.parseCIDR(m[e].wireguard.value.peerIps[i]).Some?)
              && (exists i | 0 <= i < |m[e].wireguard.value.peerIps| ::
                   Allowed(cfg.parseCIDR(m[e].wireguard.value.peerIps[i]).value, cfg.networks))
  {
    var claims := ClaimsOf(cfg, m);
    var d := DesiredOf(claims);
    if e in m {
      SurvivesIff(cfg, m[e]);
      if claims[e].survives { assert Wants(claims, e, claims[e].peer.key); }
    }
    if k in d { assert Wants(claims, d[k].email, k); }
  }

  lemma SurvivesIff(cfg: Config, u: User)
    requires Normal(u)
    ensures ClaimOf(cfg, u).survives <==>
              && cfg.interfaceName in u.inbounds && cfg.validKey(u.wireguard.value.publicKey)
              && (forall i | 0 <= i < |u.wireguard.value.peerIps| ::
                   cfg.parseCIDR(u.wireguard.value.peerIps[i]).Some?)
              && (exists i | 0 <= i < |u.wireguard.value.peerIps| ::
                   Allowed(cfg.parseCIDR(u.wireguard.value.peerIps[i]).value, cfg.networks))
  {
    var ips := u.wireguard.value.peerIps;
    if AllParse(cfg, ips) {
      if Recorded(cfg, ips) != [] {
        RecordedIff(cfg, ips, Recorded(cfg, ips)[0]);
      }
      if i :| 0 <= i < |ips| && Allowed(cfg.parseCIDR(ips[i]).value, cfg.networks) {
        RecordedIff(cfg, ips, Canonical(cfg.parseCIDR(ips[i]).value));
        assert ReadsAt(cfg, ips, i, Canonical(cfg.parseCIDR(ips[i]).value));
      }
    }
  }

  // The prefixes of a peer: the canonical forms of its texts inside the networks, in the order of the texts.
  lemma MemberPrefixes(cfg: Config, m: map<string, User>, k: string) returns (at: seq<nat>)
    requires AllNormal(m) && !KeyClash(ClaimsOf(cfg, m)) && k in DesiredOf(ClaimsOf(cfg, m))
    ensures DesiredOf(ClaimsOf(cfg, m))[k].email in m
    ensures var peer := DesiredOf(ClaimsOf(cfg, m))[k];
            var ips := m[peer.email].wireguard.value.peerIps;
            && (forall i | 0 <= i < |ips| :: cfg.parseCIDR(ips[i]).Some?)
            && |at| == |peer.allowedIPs| && (forall i, j | 0 <= i < j < |at| :: at[i] < at[j])
            && (forall j | 0 <= j < |at| ::
                 at[j] < |ips| && peer.allowedIPs[j] == Canonical(cfg.parseCIDR(ips[at[j]]).value))
            && (forall i | 0 <= i < |ips| :: i in at <==> Allowed(cfg.parseCIDR(ips[i]).value, cfg.networks))
  {
    var claims := ClaimsOf(cfg, m);
    var peer := DesiredOf(claims)[k];
    assert Wants(claims, peer.email, k);
    var ips := m[peer.email].wireguard.value.peerIps;
    at := InNetworks(cfg, ips, 0);
    RecordedAt(cfg, ips, 0);
    assert ips[0..] == ips;
    RisingPositions(cfg, ips, 0);
    forall i | 0 <= i < |ips| ensures i in at <==> Allowed(cfg.parseCIDR(ips[i]).value, cfg.networks) {
      AllPositions(cfg, ips, 0, i);
    }
  }

  // The positions, from n on, of the texts inside the networks.
  ghost function InNetworks(cfg: Config, ips: seq<string>, n: nat): (at: seq<nat>)
    requires AllParse(cfg, ips) && n <= |ips|
    ensures forall j | 0 <= j < |at| :: n <= at[j] < |ips|
    decreases |ips| - n
  {
    if n == |ips| then []
    else if Allowed(cfg.parseCIDR(ips[n]).value, cfg.networks) then [n] + InNetworks(cfg, ips, n + 1)
    else InNetworks(cfg, ips, n + 1)
  }

  lemma {:induction false} RecordedAt(cfg: Config, ips: seq<string>, n: nat)
    requires AllParse(cfg, ips) && n <= |ips|
    ensures |InNetworks(cfg, ips, n)| == |Recorded(cfg, ips[n..])|
    ensures forall j | 0 <= j < |InNetworks(cfg, ips, n)| ::
              Recorded(cfg, ips[n..])[j] == Canonical(cfg.parseCIDR(ips[InNetworks(cfg, ips, n)[j]]).value)
    decreases |ips| - n
  {
    if n < |ips| {
      RecordedAt(cfg, ips, n + 1);
      assert ips[n..][0] == ips[n] && ips[n..][1..] == ips[n+1..];
    }
  }

  lemma {:induction false} RisingPositions(cfg: Config, ips: seq<string>, n: nat)
    requires AllParse(cfg, ips) && n <= |ips|
    ensures forall i, j | 0 <= i < j < |InNetworks(cfg, ips, n)| ::
              InNetworks(cfg, ips, n)[i] < InNetworks(cfg, ips, n)[j]
    decreases |ips| - n
  {
    if n < |ips| { RisingPositions(cfg, ips, n + 1); }
  }

  lemma {:induction false} AllPositions(cfg: Config, ips: seq<string>, n: nat, i: nat)
    requires AllParse(cfg, ips) && n <= i < |ips|
    ensures i in InNetworks(cfg, ips, n) <==> Allowed(cfg.parseCIDR(ips[i]).value, cfg.networks)
    decreases |ips| - n
  {
    if n < i { AllPositions(cfg, ips, n + 1, i); }
  }

  // Two users of the request exclude each other if and only if both are users of the interface whose
  // keys parse, and either a text that is read of the one stands for the same prefix as
  // a text that is read of the other, or both become peers with the same key.
  lemma CollideIff(cfg: Config, m: map<string, User>, e: string, f: string)
    requires AllNormal(m)
    ensures Collide(ClaimsOf(cfg, m), e, f) <==>
              && e in m && f in m && e != f
              && cfg.interfaceName in m[e].inbounds && cfg.validKey(m[e].wireguard.value.publicKey)
              && cfg.interfaceName in m[f].inbounds && cfg.validKey(m[f].wireguard.value.publicKey)
              && ((exists i, j, p ::
                    && ReadsAt(cfg, m[e].wireguard.value.peerIps, i, p)
                    && ReadsAt(cfg, m[f].wireguard.value.peerIps, j, p))
                  || (&& m[e].wireguard.value.publicKey == m[f].wireguard.value.publicKey
                      && AllRead(cfg, m[e].wireguard.value.peerIps) && AllRead(cfg, m[f].wireguard.value.peerIps)))
  {
    if e in m && f in m {
      SurvivesIff(cfg, m[e]);
      SurvivesIff(cfg, m[f]);
      forall p ensures p in Occupies(cfg, m[e]) && p in Occupies(cfg, m[f]) ==>
        exists i, j ::
          ReadsAt(cfg, m[e].wireguard.value.peerIps, i, p) && ReadsAt(cfg, m[f].wireguard.value.peerIps, j, p)
      {
        RecordedIff(cfg, m[e].wireguard.value.peerIps, p);
        RecordedIff(cfg, m[f].wireguard.value.peerIps, p);
      }
      if i, j, p :| ReadsAt(cfg, m[e].wireguard.value.peerIps, i, p)
                    && ReadsAt(cfg, m[f].wireguard.value.peerIps, j, p) {
        RecordedIff(cfg, m[e].wireguard.value.peerIps, p);
        RecordedIff(cfg, m[f].wireguard.value.peerIps, p);
      }
    }
  }

  // All texts parse and one of them lies in the networks.
  predicate AllRead(cfg: Config, ips: seq<string>) {
    && (forall i | 0 <= i < |ips| :: cfg.parseCIDR(ips[i]).Some?)
    && (exists i | 0 <= i < |ips| :: Allowed(cfg.parseCIDR(ips[i]).value, cfg.networks))
  }

  // A user of other interfaces only gets no peer and excludes nobody.
  lemma OutsidersDoNotCount(cfg: Config, m: map<string, User>, e: string)
    requires AllNormal(m) && e in m && cfg.interfaceName !in m[e].inbounds
    ensures forall f :: !Collide(ClaimsOf(cfg, m), e, f) && !Collide(ClaimsOf(cfg, m), f, e)
    ensures !KeyClash(ClaimsOf(cfg, m)) ==>
              forall k | k in DesiredOf(ClaimsOf(cfg, m)) :: DesiredOf(ClaimsOf(cfg, m))[k].email != e
  {
    forall f ensures !Collide(ClaimsOf(cfg, m), e, f) && !Collide(ClaimsOf(cfg, m), f, e) {
      CollideIff(cfg, m, e, f);
      CollideIff(cfg, m, f, e);
    }
    if !KeyClash(ClaimsOf(cfg, m)) {
      forall k | k in DesiredOf(ClaimsOf(cfg, m)) ensures DesiredOf(ClaimsOf(cfg, m))[k].email != e {
        MemberIff(cfg, m, e, k);
      }
    }
  }
}
