// Address prefixes and the check that keeps a peer's allowed IPs inside the
// address ranges of the interface (node-main/backend/wireguard/user_common.go).
module Cidr {

  datatype Family = V4 | V6

  // A network as Go's net.ParseCIDR returns it: the family is the length of the
  // byte slice, `addr` is the masked address read as a number, `len` the number of leading ones.
  datatype Prefix = Prefix(family: Family, addr: nat, len: nat)

  function Width(f: Family): nat { if f == V4 then 32 else 128 }

  function Pow2(n: nat): (p: nat)
    ensures p > 0
  { if n == 0 then 1 else 2 * Pow2(n - 1) }

  // Number of addresses a prefix of length `len` spans.
  function Span(f: Family, len: nat): (n: nat)
    requires len <= Width(f)
    ensures n > 0
  { Pow2(Width(f) - len) }

  predicate Valid(p: Prefix) {
    p.len <= Width(p.family) && p.addr < Pow2(Width(p.family)) && p.addr % Span(p.family, p.len) == 0
  }

  // An IPv4-mapped IPv6 address, ::ffff:a.b.c.d (section 2.5.5.2 of RFC 4291).
  predicate Mapped(f: Family, addr: nat) { f == V6 && addr / Pow2(32) == 0xFFFF }

  // net.IP.To4 reads a mapped address as the IPv4 address it embeds.
  function To4(f: Family, addr: nat): (Family, nat) {
    if Mapped(f, addr) then (V4, addr % Pow2(32)) else (f, addr)
  }

  // The network that net.IPNet.String prints; a mapped network prints as IPv4.
  function Canonical(p: Prefix): Prefix
    requires Valid(p)
  {
    if Mapped(p.family, p.addr) then
      MappedIsLong(p);
      Prefix(V4, p.addr % Pow2(32), p.len - 96)
    else p
  }

  // net.IPNet.Contains: both sides go through To4, families must then agree,
  // and the bits under the mask must be equal.
  predicate Contains(pool: Prefix, f: Family, addr: nat)
    requires Valid(pool)
  {
    var net := Canonical(pool);
    var (g, a) := To4(f, addr);
    CanonicalValid(pool);
    g == net.family && a / Span(g, net.len) == net.addr / Span(g, net.len)
  }

  // peerIPAllowedOnInterface.
  method PeerIPAllowedOnInterface(peerNet: Prefix, ifaceNets: seq<Prefix>) returns (allowed: bool)
    requires Valid(peerNet) && forall q | q in ifaceNets :: Valid(q)
    ensures allowed <==> Allowed(peerNet, ifaceNets)
  {
    if |ifaceNets| == 0 { return true; }
    for i := 0 to |ifaceNets|
      invariant forall j | 0 <= j < i :: !(Within(peerNet, ifaceNets[j]) && !HiddenByMapping(peerNet, ifaceNets[j]))
    {
      var pool := ifaceNets[i];
      AcceptedIffWithin(peerNet, pool);
      if peerNet.family != pool.family { continue; }
      if !Contains(pool, peerNet.family, peerNet.addr) { continue; }
      if peerNet.len >= pool.len { return true; }
    }
    return false;
  }

  // The whole address range of p lies inside the range of q.
  predicate Within(p: Prefix, q: Prefix)
    requires Valid(p) && Valid(q)
  {
    p.family == q.family && q.addr <= p.addr && p.addr + Span(p.family, p.len) <= q.addr + Span(q.family, q.len)
  }

  // A mapped peer prefix is compared as IPv4, so an IPv6 pool shorter than /96 never matches it.
  predicate HiddenByMapping(p: Prefix, q: Prefix) {
    Mapped(p.family, p.addr) && q.len < 96
  }

  // Which peer prefixes the interface serves.
  predicate Allowed(p: Prefix, nets: seq<Prefix>)
    requires Valid(p) && forall q | q in nets :: Valid(q)
  {
    nets == [] || exists i | 0 <= i < |nets| :: Within(p, nets[i]) && !HiddenByMapping(p, nets[i])
  }

  // ---- arithmetic of powers of two ----

  lemma {:induction false} Pow2Add(a: nat, b: nat)
    ensures Pow2(a + b) == Pow2(a) * Pow2(b)
  {
    if a > 0 {
      Pow2Add(a - 1, b);
      assert Pow2(a + b) == 2 * (Pow2(a - 1) * Pow2(b)) == Pow2(a) * Pow2(b);
    }
  }

  lemma MulSign(s: nat, d: int)
    requires s > 0
    ensures d >= 1 ==> s * d >= s
    ensures d <= -1 ==> s * d <= 0 - s
  {
    assert s * (d - 1) == s * d - s && s * (d + 1) == s * d + s;
  }

  lemma DivideUnique(a: nat, s: nat, q: nat, r: nat)
    requires s > 0 && a == s * q + r && r < s
    ensures a / s == q && a % s == r
  {
    assert s * (a / s - q) == s * (a / s) - s * q == r - a % s;
    MulSign(s, a / s - q);
  }

  // The remainder of a multiple of s modulo s * c is again a multiple of s, at least s below s * c.
  lemma LowMultiple(a: nat, s: nat, c: nat)
    requires s > 0 && c > 0 && a % s == 0
    ensures s * c > 0
    ensures (a % (s * c)) % s == 0 && a % (s * c) + s <= s * c
  {
    MulSign(s, c);
    var h, d := a / (s * c), a / s - c * (a / (s * c));
    var low := a % (s * c);
    LowIsProduct(a, s, c, h, low, d);
    MulSign(s, d);
    DivideUnique(low, s, d, 0);
    MulSign(s, c - d);
    assert s * (c - d) == s * c - s * d;
  }

  lemma LowIsProduct(a: nat, s: nat, c: nat, h: nat, low: nat, d: int)
    requires s > 0 && a % s == 0 && a == (s * c) * h + low && d == a / s - c * h
    ensures low == s * d
  {
    assert a == s * (a / s);
    assert s * (a / s - c * h) == s * (a / s) - s * (c * h);
    assert (s * c) * h == s * (c * h);
  }

  // Dividing both prefixes by the span of the shorter mask decides containment of the ranges.
  lemma QuotientDecidesRange(a: nat, s: nat, c: nat, b: nat)
    requires s > 0 && c > 0 && a % s == 0 && b % (s * c) == 0
    ensures s * c > 0
    ensures a / (s * c) == b / (s * c) <==> b <= a && a + s <= b + s * c
  {
    var big := s * c;
    assert b == big * (b / big) && a == big * (a / big) + a % big;
    LowMultiple(a, s, c);
    if b <= a && a + s <= b + big {
      DivideUnique(a, big, b / big, a - b);
    }
  }

  lemma SpanSplit(f: Family, shorter: nat, longer: nat)
    requires shorter <= longer <= Width(f)
    ensures Span(f, shorter) == Span(f, longer) * Pow2(longer - shorter)
  {
    Pow2Add(Width(f) - longer, longer - shorter);
  }

  lemma {:induction false} Pow2Grows(a: nat, b: nat)
    requires a < b
    ensures Pow2(a) < Pow2(b)
  {
    if a + 1 < b { Pow2Grows(a, b - 1); }
  }

  lemma SameLengthQuotient(p: Prefix, q: Prefix)
    requires Valid(p) && Valid(q) && p.family == q.family
    ensures p.len >= q.len && p.addr / Span(q.family, q.len) == q.addr / Span(q.family, q.len) <==> Within(p, q)
  {
    if p.len >= q.len {
      SpanSplit(p.family, q.len, p.len);
      QuotientDecidesRange(p.addr, Span(p.family, p.len), Pow2(p.len - q.len), q.addr);
    } else {
      Pow2Grows(Width(p.family) - q.len, Width(p.family) - p.len);
    }
  }

  // ---- mapped networks ----

  // With h = a / (2 * n) and a multiple of 2 * n, the quotient by n is even.
  lemma EvenQuotient(a: nat, n: nat, c: nat)
    requires n > 0 && c > 0 && a % (2 * n * c) == 0
    ensures (a / n) % 2 == 0
  {
    var k := a / (2 * n * c);
    assert a == 2 * n * c * k == n * (2 * (c * k));
    DivideUnique(a, n, 2 * (c * k), 0);
  }

  // A masked mapped address keeps all sixteen ones, so its mask has at least 96 bits.
  lemma MappedIsLong(p: Prefix)
    requires Valid(p) && Mapped(p.family, p.addr)
    ensures p.len >= 96
  {
    if p.len < 96 {
      var n, rest := 32, 95 - p.len;
      Pow2Add(n + 1, rest);
      EvenQuotient(p.addr, Pow2(n), Pow2(rest));
    }
  }

  // How the part of an address below 2^32 behaves under a mask of at least 96 bits.
  lemma LowBits(addr: nat, len: nat)
    requires 96 <= len <= 128 && addr % Span(V6, len) == 0
    ensures addr % Pow2(32) < Pow2(32)
    ensures Span(V6, len) == Span(V4, len - 96)
    ensures (addr % Pow2(32)) % Span(V6, len) == 0 && addr % Pow2(32) + Span(V6, len) <= Pow2(32)
  {
    Pow2Add(128 - len, len - 96);
    LowMultiple(addr, Span(V6, len), Pow2(len - 96));
  }

  lemma CanonicalValid(p: Prefix)
    requires Valid(p)
    ensures Valid(Canonical(p)) && (Mapped(p.family, p.addr) ==> Canonical(p).family == V4)
  {
    if Mapped(p.family, p.addr) {
      MappedIsLong(p);
      LowBits(p.addr, p.len);
    }
  }

  // Two ranges that agree above n compare like their parts below n.
  lemma ShiftRange(a: nat, b: nat, n: nat, s: nat, t: nat)
    requires n > 0 && a / n == b / n
    ensures b <= a && a + s <= b + t <==> b % n <= a % n && a % n + s <= b % n + t
  {
    assert a == n * (a / n) + a % n && b == n * (b / n) + b % n;
  }

  // A range inside [b, b + t) that does not cross the next multiple of n shares b's quotient.
  lemma SameHigh(a: nat, b: nat, n: nat, s: nat, t: nat)
    requires n > 0 && s > 0 && b <= a && a + s <= b + t && b % n + t <= n
    ensures a / n == b / n
  {
    assert b == n * (b / n) + b % n;
    DivideUnique(a, n, b / n, a - n * (b / n));
  }

  // Removing the common prefix ::ffff from two mapped networks preserves containment.
  lemma MappedQuotient(p: Prefix, q: Prefix)
    requires Valid(p) && Valid(q) && Mapped(p.family, p.addr) && Mapped(q.family, q.addr)
    ensures Valid(Canonical(p)) && Valid(Canonical(q))
    ensures Within(p, q) <==> Within(Canonical(p), Canonical(q))
  {
    CanonicalValid(p);
    CanonicalValid(q);
    MappedIsLong(p);
    MappedIsLong(q);
    LowBits(p.addr, p.len);
    LowBits(q.addr, q.len);
    ShiftRange(p.addr, q.addr, Pow2(32), Span(V6, p.len), Span(V6, q.len));
  }

  // A range inside a mapped network consists of mapped addresses; a mapped range inside
  // an unmapped network forces that network to be shorter than /96.
  lemma MappedContainment(p: Prefix, q: Prefix)
    requires Valid(p) && Valid(q) && p.family == q.family == V6 && Within(p, q)
    ensures Mapped(V6, q.addr) ==> Mapped(V6, p.addr)
    ensures Mapped(V6, p.addr) && !Mapped(V6, q.addr) ==> q.len < 96
  {
    if Mapped(V6, q.addr) { MappedIsLong(q); }
    if q.len >= 96 {
      LowBits(q.addr, q.len);
      SameHigh(p.addr, q.addr, Pow2(32), Span(V6, p.len), Span(V6, q.len));
    }
  }

  // The three tests of the loop body accept a pool exactly when the peer's whole range
  // lies inside it and the pool is not hidden by the To4 conversion.
  lemma AcceptedIffWithin(p: Prefix, q: Prefix)
    requires Valid(p) && Valid(q)
    ensures p.family == q.family && Contains(q, p.family, p.addr) && p.len >= q.len
       <==> Within(p, q) && !HiddenByMapping(p, q)
  {
    if p.family == q.family {
      var mp, mq := Mapped(p.family, p.addr), Mapped(q.family, q.addr);
      SameLengthQuotient(p, q);
      CanonicalValid(p);
      CanonicalValid(q);
      if mp { MappedIsLong(p); }
      if mq { MappedIsLong(q); }
      if Within(p, q) && p.family == V6 { MappedContainment(p, q); }
      if mp && mq {
        MappedQuotient(p, q);
        SameLengthQuotient(Canonical(p), Canonical(q));
      }
    }
  }

  // For IPv4 and for unmapped IPv6 prefixes the documented rule holds as stated:
  // accepted iff there are no interface prefixes or some interface prefix covers the whole range.
  lemma AllowedIffCovered(p: Prefix, nets: seq<Prefix>)
    requires Valid(p) && forall q | q in nets :: Valid(q)
    ensures !Mapped(p.family, p.addr) ==>
              (Allowed(p, nets) <==> nets == [] || exists q :: q in nets && Within(p, q))
    ensures Mapped(p.family, p.addr) ==>
              (Allowed(p, nets) <==> nets == [] || exists q :: q in nets && q.len >= 96 && Within(p, q))
  {
    if q :| q in nets && Within(p, q) && !HiddenByMapping(p, q) {
      var i :| 0 <= i < |nets| && nets[i] == q;
      assert Within(p, nets[i]);
    }
  }

  lemma Pow2Doubled(n: nat, v: nat)
    requires Pow2(n) == v
    ensures Pow2(2 * n) == v * v
  {
    Pow2Add(n, n);
  }

  lemma Pow2Values()
    ensures Pow2(32) == 0x1_0000_0000
    ensures Pow2(128) == 0x1_0000_0000_0000_0000 * 0x1_0000_0000_0000_0000
  {
    Pow2Doubled(8, 0x100);
    Pow2Doubled(16, 0x1_0000);
    Pow2Doubled(32, 0x1_0000_0000);
    Pow2Doubled(64, 0x1_0000_0000_0000_0000);
  }

  // ::ffff:10.0.0.2/128 lies inside ::/0, yet an interface serving ::/0 refuses it.
  lemma MappedPeerRefused(p: Prefix, pool: Prefix)
    requires p == Prefix(V6, 0xFFFF_0A00_0002, 128) && pool == Prefix(V6, 0, 0)
    ensures Valid(p) && Valid(pool) && Within(p, pool) && !Allowed(p, [pool])
  {
    Pow2Values();
  }
}
