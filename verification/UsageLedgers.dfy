// Booking node measurements into the user, admin and node-user ledgers
// (panel-main/app/jobs/record_usages.py).
module UsageLedgers {
  import opened Prelude

  datatype Param = Param(uid: int, value: int)

  // The measurements of one node with its usage coefficient.
  datatype Chunk = Chunk(node: int, params: seq<Param>, coeff: real)

  // Python's int(): truncation toward zero. The coefficient is an exact real here.
  function Trunc(x: real): int { if x >= 0.0 then x.Floor else -((-x).Floor) }

  function Charge(p: Param, coeff: real): int { Trunc(p.value as real * coeff) }

  // A charge is the product cut off toward zero, whatever the signs.
  lemma ChargeCutsOff(p: Param, coeff: real)
    ensures var x, charge := p.value as real * coeff, Charge(p, coeff);
            && (x >= 0.0 ==> 0 <= charge && charge as real <= x < charge as real + 1.0)
            && (x <= 0.0 ==> charge <= 0 && charge as real - 1.0 < x <= charge as real)
  {}

  // ---- dictionaries that accumulate ----

  function Lookup<K>(m: map<K, int>, k: K): int { if k in m then m[k] else 0 }

  // `m[k] += v` on a defaultdict.
  function Bump<K>(m: map<K, int>, k: K, v: int): map<K, int> { m[k := Lookup(m, k) + v] }

  function BumpAll<K>(m: map<K, int>, es: seq<(K, int)>): map<K, int> {
    if es == [] then m else Bump(BumpAll(m, es[..|es| - 1]), es[|es| - 1].0, es[|es| - 1].1)
  }

  function Tally<K>(es: seq<(K, int)>): map<K, int> { BumpAll(map[], es) }

  function SumFor<K(==)>(es: seq<(K, int)>, k: K): int {
    if es == [] then 0 else SumFor(es[..|es| - 1], k) + if es[|es| - 1].0 == k then es[|es| - 1].1 else 0
  }

  predicate Mentions<K(==)>(es: seq<(K, int)>, k: K) { exists i | 0 <= i < |es| :: es[i].0 == k }

  // Order-free meaning of accumulation.
  lemma {:induction false} BumpAllAt<K>(m: map<K, int>, es: seq<(K, int)>, k: K)
    ensures k in BumpAll(m, es) <==> k in m || Mentions(es, k)
    ensures Lookup(BumpAll(m, es), k) == Lookup(m, k) + SumFor(es, k)
  {
    if es != [] {
      var n := |es| - 1;
      BumpAllAt(m, es[..n], k);
      assert Mentions(es, k) <==> Mentions(es[..n], k) || es[n].0 == k by {
        if Mentions(es[..n], k) {
          var i :| 0 <= i < n && es[..n][i].0 == k;
          assert es[i].0 == k;
        }
        if Mentions(es, k) {
          var i :| 0 <= i < |es| && es[i].0 == k;
          if i < n { assert es[..n][i].0 == k; }
        }
      }
    }
  }

  lemma SameLookups<K>(a: map<K, int>, b: map<K, int>)
    requires forall k :: (k in a <==> k in b) && Lookup(a, k) == Lookup(b, k)
    ensures a == b
  {
    forall k | k in a ensures k in b && a[k] == b[k] { assert Lookup(a, k) == Lookup(b, k); }
    forall k | k in b ensures k in a {}
  }

  lemma {:induction false} SumForConcat<K>(a: seq<(K, int)>, b: seq<(K, int)>, k: K)
    ensures SumFor(a + b, k) == SumFor(a, k) + SumFor(b, k)
    ensures Mentions(a + b, k) <==> Mentions(a, k) || Mentions(b, k)
  {
    if Mentions(a, k) {
      var i :| 0 <= i < |a| && a[i].0 == k;
      assert (a + b)[i].0 == k;
    }
    if Mentions(b, k) {
      var i :| 0 <= i < |b| && b[i].0 == k;
      assert (a + b)[|a| + i].0 == k;
    }
    if b == [] {
      assert a + b == a;
    } else {
      var n := |b| - 1;
      assert (a + b)[..|a + b| - 1] == a + b[..n];
      SumForConcat(a, b[..n], k);
    }
  }

  // ---- chunked computation ----

  function Entries(params: seq<Param>, coeff: real): seq<(int, int)> {
    seq(|params|, i requires 0 <= i < |params| => (params[i].uid, Charge(params[i], coeff)))
  }

  function AllEntries(chunks: seq<Chunk>): seq<(int, int)> {
    if chunks == [] then []
    else AllEntries(chunks[..|chunks| - 1]) + Entries(chunks[|chunks| - 1].params, chunks[|chunks| - 1].coeff)
  }

  function Sum(ms: seq<map<int, int>>, k: int): int {
    if ms == [] then 0 else Sum(ms[..|ms| - 1], k) + Lookup(ms[|ms| - 1], k)
  }

  predicate InSome(ms: seq<map<int, int>>, k: int) { exists i | 0 <= i < |ms| :: k in ms[i] }

  // What merging dictionaries has to yield.
  ghost predicate IsMerged(ms: seq<map<int, int>>, m: map<int, int>) {
    forall k :: (k in m <==> InSome(ms, k)) && Lookup(m, k) == Sum(ms, k)
  }

  method AddParams(usage: map<int, int>, params: seq<Param>, coeff: real) returns (out: map<int, int>)
    ensures out == BumpAll(usage, Entries(params, coeff))
  {
    out := usage;
    ghost var es := Entries(params, coeff);
    for i := 0 to |params|
      invariant out == BumpAll(usage, es[..i])
    {
      assert es[..i+1][..i] == es[..i];
      out := Bump(out, params[i].uid, Charge(params[i], coeff));
    }
    assert es[..|params|] == es;
  }

  method ProcessNodeChunk(chunk: Chunk) returns (usage: map<int, int>)
    ensures usage == Tally(Entries(chunk.params, chunk.coeff))
  {
    usage := AddParams(map[], chunk.params, chunk.coeff);
  }

  // The synchronous fallback: one dictionary over all chunks.
  method ProcessUsageSync(chunks: seq<Chunk>) returns (usage: map<int, int>)
    ensures usage == Tally(AllEntries(chunks))
  {
    usage := map[];
    for i := 0 to |chunks|
      invariant usage == Tally(AllEntries(chunks[..i]))
    {
      assert chunks[..i+1][..i] == chunks[..i];
      BumpAllConcat(map[], AllEntries(chunks[..i]), Entries(chunks[i].params, chunks[i].coeff));
      usage := AddParams(usage, chunks[i].params, chunks[i].coeff);
    }
    assert chunks[..|chunks|] == chunks;
  }

  lemma {:induction false} BumpAllConcat<K>(m: map<K, int>, a: seq<(K, int)>, b: seq<(K, int)>)
    ensures BumpAll(m, a + b) == BumpAll(BumpAll(m, a), b)
  {
    if b == [] {
      assert a + b == a;
    } else {
      assert (a + b)[..|a + b| - 1] == a + b[..|b| - 1];
      BumpAllConcat(m, a, b[..|b| - 1]);
    }
  }

  // One dictionary after the other, each in its own order.
  method MergeUsageDicts(dicts: seq<map<int, int>>) returns (merged: map<int, int>)
    ensures IsMerged(dicts, merged)
  {
    merged := map[];
    for i := 0 to |dicts|
      invariant IsMerged(dicts[..i], merged)
    {
      ghost var before := merged;
      merged := AddDict(merged, dicts[i]);
      MergedOneMore(dicts, i, before, merged);
    }
    assert dicts[..|dicts|] == dicts;
  }

  method AddDict(start: map<int, int>, d: map<int, int>) returns (merged: map<int, int>)
    ensures forall k :: (k in merged <==> k in start || k in d) && Lookup(merged, k) == Lookup(start, k) + Lookup(d, k)
  {
    var order := AnyOrder(d.Keys);
    merged := start;
    for i := 0 to |order|
      invariant forall k :: (k in merged <==> k in start || k in Elems(order[..i]))
      invariant forall k :: Lookup(merged, k) == Lookup(start, k) + if k in Elems(order[..i]) then d[k] else 0
    {
      ElemsPrefix(order, i);
      merged := Bump(merged, order[i], d[order[i]]);
    }
    assert order[..|order|] == order;
  }

  lemma MergedOneMore(dicts: seq<map<int, int>>, i: nat, before: map<int, int>, after: map<int, int>)
    requires i < |dicts| && IsMerged(dicts[..i], before)
    requires forall k ::
               && (k in after <==> k in before || k in dicts[i])
               && Lookup(after, k) == Lookup(before, k) + Lookup(dicts[i], k)
    ensures IsMerged(dicts[..i+1], after)
  {
    assert dicts[..i+1][..i] == dicts[..i];
    forall k ensures k in after <==> InSome(dicts[..i+1], k) {
      if InSome(dicts[..i], k) {
        var j :| 0 <= j < i && k in dicts[..i][j];
        assert k in dicts[..i+1][j];
      }
      if k in dicts[i] { assert k in dicts[..i+1][i]; }
      if InSome(dicts[..i+1], k) {
        var j :| 0 <= j < i + 1 && k in dicts[..i+1][j];
        if j < i { assert k in dicts[..i][j]; }
      }
    }
  }

  // `tasks = [run(chunk) for chunk in chunks]`; gather keeps the order.
  method ProcessAll(chunks: seq<Chunk>) returns (results: seq<map<int, int>>)
    ensures |results| == |chunks|
    ensures forall i | 0 <= i < |chunks| :: results[i] == Tally(Entries(chunks[i].params, chunks[i].coeff))
  {
    results := [];
    for i := 0 to |chunks|
      invariant |results| == i
      invariant forall j | 0 <= j < i :: results[j] == Tally(Entries(chunks[j].params, chunks[j].coeff))
    {
      var one := ProcessNodeChunk(chunks[i]);
      results := results + [one];
    }
  }

  // Merging in groups of `size`, then merging the group results.
  method MergeInGroups(dicts: seq<map<int, int>>, size: nat) returns (merged: map<int, int>)
    requires size > 0
    ensures IsMerged(dicts, merged)
  {
    var partial: seq<map<int, int>> := [];
    var start := 0;
    while start < |dicts|
      invariant 0 <= start <= |dicts|
      invariant forall k ::
                  && (InSome(partial, k) <==> InSome(dicts[..start], k))
                  && Sum(partial, k) == Sum(dicts[..start], k)
    {
      var end := if start + size <= |dicts| then start + size else |dicts|;
      var group := MergeUsageDicts(dicts[start..end]);
      GroupJoins(dicts, start, end, partial, group);
      partial := partial + [group];
      start := end;
    }
    assert dicts[..|dicts|] == dicts;
    merged := MergeUsageDicts(partial);
  }

  lemma GroupJoins(dicts: seq<map<int, int>>, start: nat, end: nat, partial: seq<map<int, int>>, group: map<int, int>)
    requires start <= end <= |dicts| && IsMerged(dicts[start..end], group)
    requires forall k ::
               && (InSome(partial, k) <==> InSome(dicts[..start], k))
               && Sum(partial, k) == Sum(dicts[..start], k)
    ensures forall k ::
              && (InSome(partial + [group], k) <==> InSome(dicts[..end], k))
              && Sum(partial + [group], k) == Sum(dicts[..end], k)
  {
    assert dicts[..end] == dicts[..start] + dicts[start..end];
    forall k
      ensures InSome(partial + [group], k) <==> InSome(dicts[..end], k)
      ensures Sum(partial + [group], k) == Sum(dicts[..end], k)
    {
      SumConcat(dicts[..start], dicts[start..end], k);
      SumConcat(partial, [group], k);
      assert Sum([group], k) == Lookup(group, k) by { assert [group][..0] == []; }
      assert InSome([group], k) <==> k in group by { assert [group][0] == group; }
    }
  }

  lemma {:induction false} SumConcat(a: seq<map<int, int>>, b: seq<map<int, int>>, k: int)
    ensures Sum(a + b, k) == Sum(a, k) + Sum(b, k)
    ensures InSome(a + b, k) <==> InSome(a, k) || InSome(b, k)
  {
    if InSome(a, k) {
      var i :| 0 <= i < |a| && k in a[i];
      assert k in (a + b)[i];
    }
    if InSome(b, k) {
      var i :| 0 <= i < |b| && k in b[i];
      assert k in (a + b)[|a| + i];
    }
    if b == [] {
      assert a + b == a;
    } else {
      assert (a + b)[..|a + b| - 1] == a + b[..|b| - 1];
      SumConcat(a, b[..|b| - 1], k);
    }
  }

  lemma InSomeLast(ms: seq<map<int, int>>, k: int)
    requires ms != []
    ensures InSome(ms, k) <==> InSome(ms[..|ms| - 1], k) || k in ms[|ms| - 1]
  {
    var n := |ms| - 1;
    if InSome(ms[..n], k) {
      var i :| 0 <= i < n && k in ms[..n][i];
      assert k in ms[i];
    }
    if InSome(ms, k) {
      var i :| 0 <= i <= n && k in ms[i];
      assert i < n ==> k in ms[..n][i];
    }
  }

  // The merged per-chunk dictionaries are the dictionary of all entries.
  lemma {:induction false} ChunksSum(chunks: seq<Chunk>, results: seq<map<int, int>>, k: int)
    requires |results| == |chunks|
    requires forall i | 0 <= i < |chunks| :: results[i] == Tally(Entries(chunks[i].params, chunks[i].coeff))
    ensures Sum(results, k) == SumFor(AllEntries(chunks), k)
    ensures InSome(results, k) <==> Mentions(AllEntries(chunks), k)
  {
    if chunks != [] {
      var n := |chunks| - 1;
      var last := Entries(chunks[n].params, chunks[n].coeff);
      ChunksSum(chunks[..n], results[..n], k);
      SumForConcat(AllEntries(chunks[..n]), last, k);
      BumpAllAt(map[], last, k);
      InSomeLast(results, k);
    }
  }

  // calculate_users_usage: whatever the size of the input, the number of chunks and the
  // state of the thread pool, the result is the sequential accumulation over all measurements.
  method CalculateUsersUsage(chunks: seq<Chunk>, poolOk: bool) returns (usage: map<int, int>)
    ensures usage == Tally(AllEntries(chunks))
  {
    var total := 0;
    for i := 0 to |chunks| {
      total := total + |chunks[i].params|;
    }
    if total < 1000 || !poolOk {
      usage := ProcessUsageSync(chunks);
      return;
    }
    var results := ProcessAll(chunks);
    if |results| > 4 {
      usage := MergeInGroups(results, if |results| / 4 > 1 then |results| / 4 else 1);
    } else {
      usage := MergeUsageDicts(results);
    }
    forall k
      ensures k in usage <==> k in Tally(AllEntries(chunks))
      ensures Lookup(usage, k) == Lookup(Tally(AllEntries(chunks)), k)
    {
      ChunksSum(chunks, results, k);
      BumpAllAt(map[], AllEntries(chunks), k);
    }
    SameLookups(usage, Tally(AllEntries(chunks)));
  }

  // ---- truncation ----

  function TotalOf(params: seq<Param>, uid: int): int {
    if params == [] then 0
    else
      var last := params[|params| - 1];
      TotalOf(params[..|params| - 1], uid) + if last.uid == uid then last.value else 0
  }

  function CountOf(params: seq<Param>, uid: int): nat {
    if params == [] then 0 else CountOf(params[..|params| - 1], uid) + if params[|params| - 1].uid == uid then 1 else 0
  }

  // The exact charge, before truncation.
  function ExactOf(params: seq<Param>, c: real, uid: int): real {
    if params == [] then 0.0
    else ExactOf(params[..|params| - 1], c, uid) +
         if params[|params| - 1].uid == uid then c * params[|params| - 1].value as real else 0.0
  }

  lemma {:induction false} ExactIsProduct(params: seq<Param>, c: real, uid: int)
    ensures ExactOf(params, c, uid) == c * TotalOf(params, uid) as real
  {
    if params != [] {
      var n := |params| - 1;
      ExactIsProduct(params[..n], c, uid);
      if params[n].uid == uid { Distribute(c, TotalOf(params[..n], uid), params[n].value); }
    }
  }

  // n measurements of a node are booked within (c * total - n, c * total]: truncation loses
  // less than one unit per measurement and never adds any.
  lemma BookedWithinTruncation(params: seq<Param>, c: real, uid: int)
    requires c >= 0.0 && forall i | 0 <= i < |params| :: params[i].value >= 0
    ensures SumFor(Entries(params, c), uid) as real <= c * TotalOf(params, uid) as real
    ensures CountOf(params, uid) == 0 ==> SumFor(Entries(params, c), uid) == 0
    ensures CountOf(params, uid) > 0 ==>
              SumFor(Entries(params, c), uid) as real > c * TotalOf(params, uid) as real - CountOf(params, uid) as real
  {
    ExactIsProduct(params, c, uid);
    BookedNearExact(params, c, uid);
  }

  // `booked` misses `exact` by less than one unit for each of `count` measurements.
  predicate Near(booked: int, exact: real, count: nat) {
    && booked as real <= exact
    && (if count == 0 then exact == 0.0 && booked == 0 else booked as real > exact - count as real)
  }

  lemma NearOneMore(booked: int, exact: real, count: nat, charge: int, x: real)
    requires Near(booked, exact, count) && x - 1.0 < charge as real <= x
    ensures Near(booked + charge, exact + x, count + 1)
  {
    assert (booked + charge) as real == booked as real + charge as real;
    assert (count + 1) as real == count as real + 1.0;
  }

  lemma {:induction false} BookedNearExact(params: seq<Param>, c: real, uid: int)
    requires c >= 0.0 && forall i | 0 <= i < |params| :: params[i].value >= 0
    ensures Near(SumFor(Entries(params, c), uid), ExactOf(params, c, uid), CountOf(params, uid))
  {
    if params != [] {
      var n := |params| - 1;
      BookedNearExact(params[..n], c, uid);
      SumForLast(params, c, uid);
      TruncationLoss(params[n].value, c);
      if params[n].uid == uid {
        NearOneMore(SumFor(Entries(params[..n], c), uid), ExactOf(params[..n], c, uid), CountOf(params[..n], uid),
                    Charge(params[n], c), c * params[n].value as real);
      }
    }
  }

  lemma SumForLast(params: seq<Param>, c: real, uid: int)
    requires params != []
    ensures var n := |params| - 1;
            SumFor(Entries(params, c), uid) ==
            SumFor(Entries(params[..n], c), uid) + if params[n].uid == uid then Charge(params[n], c) else 0
  {
    assert Entries(params, c)[..|params| - 1] == Entries(params[..|params| - 1], c);
  }

  lemma TruncationLoss(v: int, c: real)
    requires c >= 0.0 && v >= 0
    ensures c * v as real - 1.0 < Trunc(v as real * c) as real <= c * v as real
  {
    assert v as real * c == c * v as real;
    assert c * v as real >= 0.0;
  }

  lemma Distribute(c: real, a: int, b: int)
    ensures c * (a + b) as real == c * a as real + c * b as real
  {
    assert (a + b) as real == a as real + b as real;
  }

  // ---- the admin ledger ----

  // `if admin_id:` skips a missing admin and the id 0.
  function AdminOf(admins: map<int, Option<int>>, uid: int): Option<int> {
    if uid in admins && admins[uid].Some? && admins[uid].value != 0 then admins[uid] else None
  }

  function ForAdmins(admins: map<int, Option<int>>, es: seq<(int, int)>): seq<(int, int)> {
    if es == [] then []
    else
      var front, e := ForAdmins(admins, es[..|es| - 1]), es[|es| - 1];
      if AdminOf(admins, e.0).Some? then front + [(AdminOf(admins, e.0).value, e.1)] else front
  }

  // The values of the entries that belong to one of these users.
  function SumOver(es: seq<(int, int)>, users: set<int>): int {
    if es == [] then 0 else SumOver(es[..|es| - 1], users) + if es[|es| - 1].0 in users then es[|es| - 1].1 else 0
  }

  // What admin a is charged is what its users are charged; no user belongs to the admin 0.
  lemma {:induction false} AdminCharge(admins: map<int, Option<int>>, es: seq<(int, int)>, a: int)
    ensures SumFor(ForAdmins(admins, es), a) ==
            if a == 0 then 0 else SumOver(es, set u | u in admins && admins[u] == Some(a))
    ensures Mentions(ForAdmins(admins, es), a) <==> a != 0 && HasUserOf(admins, es, a)
  {
    if es != [] {
      var n := |es| - 1;
      AdminCharge(admins, es[..n], a);
      ForAdminsGrows(admins, es, a);
      LastOwner(admins, es, a);
    }
  }

  // Some entry belongs to a user of admin a.
  predicate HasUserOf(admins: map<int, Option<int>>, es: seq<(int, int)>, a: int) {
    exists i | 0 <= i < |es| :: es[i].0 in admins && admins[es[i].0] == Some(a)
  }

  lemma LastOwner(admins: map<int, Option<int>>, es: seq<(int, int)>, a: int)
    requires es != []
    ensures var front, last := es[..|es| - 1], es[|es| - 1];
            HasUserOf(admins, es, a) <==> HasUserOf(admins, front, a) || (last.0 in admins && admins[last.0] == Some(a))
  {
    var n := |es| - 1;
    if i :| 0 <= i < |es| && es[i].0 in admins && admins[es[i].0] == Some(a) {
      if i < n { assert es[..n][i] == es[i]; }
    }
    if HasUserOf(admins, es[..n], a) {
      var i :| 0 <= i < n && es[..n][i].0 in admins && admins[es[..n][i].0] == Some(a);
      assert es[i] == es[..n][i];
    }
  }

  lemma ForAdminsGrows(admins: map<int, Option<int>>, es: seq<(int, int)>, a: int)
    requires es != []
    ensures var last, front := es[|es| - 1], ForAdmins(admins, es[..|es| - 1]);
            var hit := last.0 in admins && admins[last.0] == Some(a) && a != 0;
            && SumFor(ForAdmins(admins, es), a) == SumFor(front, a) + (if hit then last.1 else 0)
            && (Mentions(ForAdmins(admins, es), a) <==> Mentions(front, a) || hit)
  {
    var last, front := es[|es| - 1], ForAdmins(admins, es[..|es| - 1]);
    if AdminOf(admins, last.0).Some? {
      var one := [(AdminOf(admins, last.0).value, last.1)];
      SumForConcat(front, one, a);
      assert one[..0] == [] && (Mentions(one, a) <==> one[0].0 == a);
    }
  }

  method CalculateAdminUsage(usersUsage: seq<(int, int)>, admins: map<int, Option<int>>)
      returns (adminUsage: map<int, int>, validUids: set<int>)
    ensures adminUsage == Tally(ForAdmins(admins, usersUsage)) && validUids == admins.Keys
    ensures forall a :: Lookup(adminUsage, a) ==
              if a == 0 then 0 else SumOver(usersUsage, set u | u in admins && admins[u] == Some(a))
    ensures forall a :: a in adminUsage <==> a != 0 && HasUserOf(admins, usersUsage, a)
  {
    adminUsage := map[];
    for i := 0 to |usersUsage|
      invariant adminUsage == Tally(ForAdmins(admins, usersUsage[..i]))
    {
      assert usersUsage[..i+1][..i] == usersUsage[..i];
      var adminId := if usersUsage[i].0 in admins then admins[usersUsage[i].0] else None;
      if adminId.Some? && adminId.value != 0 {
        ghost var front := ForAdmins(admins, usersUsage[..i]);
        assert (front + [(adminId.value, usersUsage[i].1)])[..|front|] == front;
        adminUsage := Bump(adminUsage, adminId.value, usersUsage[i].1);
      }
    }
    assert usersUsage[..|usersUsage|] == usersUsage;
    validUids := admins.Keys;
    forall a
      ensures Lookup(adminUsage, a) ==
              if a == 0 then 0 else SumOver(usersUsage, set u | u in admins && admins[u] == Some(a))
      ensures a in adminUsage <==> a != 0 && HasUserOf(admins, usersUsage, a)
    {
      BumpAllAt(map[], ForAdmins(admins, usersUsage), a);
      AdminCharge(admins, usersUsage, a);
    }
  }

  // The per-user totals as the list handed to the ledgers, in any order.
  function UserList(usage: map<int, int>, order: seq<int>): seq<(int, int)>
    requires forall i | 0 <= i < |order| :: order[i] in usage
  {
    seq(|order|, i requires 0 <= i < |order| => (order[i], usage[order[i]]))
  }

  // Sum over the listed users of admin a of the entries of each.
  function AdminShare(admins: map<int, Option<int>>, order: seq<int>, es: seq<(int, int)>, a: int): int {
    if order == [] then 0
    else AdminShare(admins, order[..|order| - 1], es, a) +
         if AdminOf(admins, order[|order| - 1]) == Some(a) then SumFor(es, order[|order| - 1]) else 0
  }

  lemma {:induction false} AdminShareOneMore(admins: map<int, Option<int>>, order: seq<int>, es: seq<(int, int)>,
                                             a: int)
    requires es != [] && NoDup(order)
    ensures AdminShare(admins, order, es, a) == AdminShare(admins, order, es[..|es| - 1], a) +
      if es[|es| - 1].0 in order && AdminOf(admins, es[|es| - 1].0) == Some(a) then es[|es| - 1].1 else 0
  {
    if order != [] {
      var n := |order| - 1;
      AdminShareOneMore(admins, order[..n], es, a);
      assert order == order[..n] + [order[n]];
    }
  }

  // Each admin is charged exactly the raw measurements of its users: summing first per user
  // and then per admin loses nothing and counts nothing twice.
  lemma {:induction false} AdminChargedForItsUsers(admins: map<int, Option<int>>, order: seq<int>,
                                                   es: seq<(int, int)>, a: int)
    requires NoDup(order) && forall i | 0 <= i < |es| :: es[i].0 in order
    ensures AdminShare(admins, order, es, a) == SumFor(ForAdmins(admins, es), a)
  {
    if es == [] {
      NoShare(admins, order, a);
    } else {
      var n := |es| - 1;
      AdminChargedForItsUsers(admins, order, es[..n], a);
      AdminShareOneMore(admins, order, es, a);
      var front := ForAdmins(admins, es[..n]);
      var e := es[n];
      if AdminOf(admins, e.0).Some? {
        assert (front + [(AdminOf(admins, e.0).value, e.1)])[..|front|] == front;
      }
    }
  }

  lemma {:induction false} NoShare(admins: map<int, Option<int>>, order: seq<int>, a: int)
    ensures AdminShare(admins, order, [], a) == 0
  {
    if order != [] { NoShare(admins, order[..|order| - 1], a); }
  }

  lemma {:induction false} ListedShare(admins: map<int, Option<int>>, es: seq<(int, int)>, order: seq<int>, a: int)
    requires forall i | 0 <= i < |order| :: order[i] in Tally(es)
    ensures SumFor(ForAdmins(admins, UserList(Tally(es), order)), a) == AdminShare(admins, order, es, a)
  {
    if order != [] {
      var n := |order| - 1;
      var list := UserList(Tally(es), order);
      assert list[..n] == UserList(Tally(es), order[..n]);
      ListedShare(admins, es, order[..n], a);
      BumpAllAt(map[], es, order[n]);
      var front := ForAdmins(admins, list[..n]);
      if AdminOf(admins, order[n]).Some? {
        assert (front + [(AdminOf(admins, order[n]).value, list[n].1)])[..|front|] == front;
      }
    }
  }

  // ---- the node-user ledger ----

  datatype Row = Row(createdAt: int, uid: int, node: int)

  function RowEntries(chunk: Chunk, createdAt: int): seq<(Row, int)> {
    seq(|chunk.params|, i requires 0 <= i < |chunk.params| =>
      (Row(createdAt, chunk.params[i].uid, chunk.node), Charge(chunk.params[i], chunk.coeff)))
  }

  function AllRows(chunks: seq<Chunk>, createdAt: int): seq<(Row, int)> {
    if chunks == [] then []
    else AllRows(chunks[..|chunks| - 1], createdAt) + RowEntries(chunks[|chunks| - 1], createdAt)
  }

  datatype Dialect = Postgresql | Mysql | Sqlite

  // INSERT OR IGNORE of a zero row for every parameter.
  function InsertZeros(table: map<Row, int>, es: seq<(Row, int)>): map<Row, int> {
    if es == [] then table
    else
      var t := InsertZeros(table, es[..|es| - 1]);
      if es[|es| - 1].0 in t then t else t[es[|es| - 1].0 := 0]
  }

  // UPDATE adding the value where the row exists.
  function AddWhereExists(table: map<Row, int>, es: seq<(Row, int)>): map<Row, int> {
    if es == [] then table
    else
      var t := AddWhereExists(table, es[..|es| - 1]);
      if es[|es| - 1].0 in t then t[es[|es| - 1].0 := t[es[|es| - 1].0] + es[|es| - 1].1] else t
  }

  // The statements of build_node_user_usage_upsert carried out on a table.
  function Upsert(dialect: Dialect, table: map<Row, int>, es: seq<(Row, int)>): map<Row, int> {
    if dialect == Sqlite then AddWhereExists(InsertZeros(table, es), es) else BumpAll(table, es)
  }

  lemma {:induction false} InsertZerosAt(table: map<Row, int>, es: seq<(Row, int)>, k: Row)
    ensures k in InsertZeros(table, es) <==> k in table || Mentions(es, k)
    ensures Lookup(InsertZeros(table, es), k) == Lookup(table, k)
  {
    if es != [] {
      var n := |es| - 1;
      InsertZerosAt(table, es[..n], k);
      assert es == es[..n] + [es[n]];
      SumForConcat(es[..n], [es[n]], k);
      assert Mentions([es[n]], k) <==> es[n].0 == k by { assert [es[n]][0] == es[n]; }
    }
  }

  lemma {:induction false} AddWhereExistsAt(table: map<Row, int>, es: seq<(Row, int)>, k: Row)
    ensures k in AddWhereExists(table, es) <==> k in table
    ensures k in table ==> Lookup(AddWhereExists(table, es), k) == Lookup(table, k) + SumFor(es, k)
  {
    if es != [] { AddWhereExistsAt(table, es[..|es| - 1], k); }
  }

  // The two SQLite statements give the table of the single upsert, for any starting table and
  // any parameter list, with repeated keys.
  lemma DialectsAgree(d: Dialect, table: map<Row, int>, es: seq<(Row, int)>)
    ensures Upsert(d, table, es) == BumpAll(table, es)
  {
    if d == Sqlite {
      forall k
        ensures k in Upsert(d, table, es) <==> k in BumpAll(table, es)
        ensures Lookup(Upsert(d, table, es), k) == Lookup(BumpAll(table, es), k)
      {
        BumpAllAt(table, es, k);
        InsertZerosAt(table, es, k);
        AddWhereExistsAt(InsertZeros(table, es), es, k);
        if !Mentions(es, k) { NoMention(es, k); }
      }
      SameLookups(Upsert(d, table, es), BumpAll(table, es));
    }
  }

  lemma {:induction false} NoMention(es: seq<(Row, int)>, k: Row)
    requires !Mentions(es, k)
    ensures SumFor(es, k) == 0
  {
    if es != [] {
      var n := |es| - 1;
      assert es[n].0 != k;
      forall i | 0 <= i < n ensures es[..n][i].0 != k { assert es[i].0 != k; }
      NoMention(es[..n], k);
    }
  }

  method RecordUserStatsBatched(dialect: Dialect, table: map<Row, int>, chunks: seq<Chunk>, createdAt: int)
      returns (out: map<Row, int>)
    ensures out == BumpAll(table, AllRows(chunks, createdAt))
  {
    var upsertParams: seq<(Row, int)> := [];
    for i := 0 to |chunks|
      invariant upsertParams == AllRows(chunks[..i], createdAt)
    {
      assert chunks[..i+1][..i] == chunks[..i];
      upsertParams := upsertParams + RowEntries(chunks[i], createdAt);
    }
    assert chunks[..|chunks|] == chunks;
    DialectsAgree(dialect, table, upsertParams);
    if |upsertParams| == 0 { return table; }
    out := Upsert(dialect, table, upsertParams);
  }

  // ---- one measurement, three ledgers ----

  predicate DistinctNodes(chunks: seq<Chunk>) {
    forall i, j | 0 <= i < j < |chunks| :: chunks[i].node != chunks[j].node
  }

  // What the rows of user uid gain, over all nodes.
  function RowGain(chunks: seq<Chunk>, rows: seq<(Row, int)>, createdAt: int, uid: int): int {
    if chunks == [] then 0
    else
      var n := |chunks| - 1;
      RowGain(chunks[..n], rows, createdAt, uid) + SumFor(rows, Row(createdAt, uid, chunks[n].node))
  }

  lemma {:induction false} RowsOfChunk(chunk: Chunk, params: seq<Param>, createdAt: int, uid: int, node: int)
    requires chunk.params == params
    ensures SumFor(RowEntries(chunk, createdAt), Row(createdAt, uid, node)) ==
            if node == chunk.node then SumFor(Entries(chunk.params, chunk.coeff), uid) else 0
    decreases params
  {
    if params != [] {
      var n := |params| - 1;
      var front := chunk.(params := params[..n]);
      RowsOfChunk(front, params[..n], createdAt, uid, node);
      assert RowEntries(chunk, createdAt)[..n] == RowEntries(front, createdAt);
      assert Entries(chunk.params, chunk.coeff)[..n] == Entries(front.params, front.coeff);
    }
  }

  lemma {:induction false} RowsOfNode(chunks: seq<Chunk>, createdAt: int, uid: int, node: int)
    requires forall i | 0 <= i < |chunks| :: chunks[i].node != node
    ensures SumFor(AllRows(chunks, createdAt), Row(createdAt, uid, node)) == 0
  {
    if chunks != [] {
      var n := |chunks| - 1;
      RowsOfNode(chunks[..n], createdAt, uid, node);
      RowsOfChunk(chunks[n], chunks[n].params, createdAt, uid, node);
      SumForConcat(AllRows(chunks[..n], createdAt), RowEntries(chunks[n], createdAt), Row(createdAt, uid, node));
    }
  }

  // Rows of another node do not matter for the first chunks.
  lemma {:induction false} RowGainAppend(chunks: seq<Chunk>, rows: seq<(Row, int)>, more: seq<(Row, int)>,
                                         createdAt: int, uid: int)
    requires forall i | 0 <= i < |chunks| :: SumFor(more, Row(createdAt, uid, chunks[i].node)) == 0
    ensures RowGain(chunks, rows + more, createdAt, uid) == RowGain(chunks, rows, createdAt, uid)
  {
    if chunks != [] {
      var n := |chunks| - 1;
      RowGainAppend(chunks[..n], rows, more, createdAt, uid);
      SumForConcat(rows, more, Row(createdAt, uid, chunks[n].node));
    }
  }

  // A user's increment is the sum over the nodes of what its node rows gain.
  lemma {:induction false} UserIsSumOfRows(chunks: seq<Chunk>, createdAt: int, uid: int)
    requires DistinctNodes(chunks)
    ensures RowGain(chunks, AllRows(chunks, createdAt), createdAt, uid) == SumFor(AllEntries(chunks), uid)
  {
    if chunks != [] {
      var n := |chunks| - 1;
      var front, last := chunks[..n], chunks[n];
      UserIsSumOfRows(front, createdAt, uid);
      forall i | 0 <= i < n ensures SumFor(RowEntries(last, createdAt), Row(createdAt, uid, front[i].node)) == 0 {
        RowsOfChunk(last, last.params, createdAt, uid, front[i].node);
      }
      RowGainAppend(front, AllRows(front, createdAt), RowEntries(last, createdAt), createdAt, uid);
      RowsOfNode(front, createdAt, uid, last.node);
      RowsOfChunk(last, last.params, createdAt, uid, last.node);
      SumForConcat(AllRows(front, createdAt), RowEntries(last, createdAt), Row(createdAt, uid, last.node));
      SumForConcat(AllEntries(front), Entries(last.params, last.coeff), uid);
    }
  }

  // ---- measurements of unknown users stay out of the row ledger ----

  function ValidOnly(params: seq<Param>, valid: set<int>): seq<Param> {
    if params == [] then []
    else
      var front, p := ValidOnly(params[..|params| - 1], valid), params[|params| - 1];
      if p.uid in valid then front + [p] else front
  }

  function ValidChunks(chunks: seq<Chunk>, valid: set<int>): seq<Chunk> {
    seq(|chunks|, i requires 0 <= i < |chunks| => chunks[i].(params := ValidOnly(chunks[i].params, valid)))
  }

  lemma {:induction false} ValidKeepsSum(params: seq<Param>, valid: set<int>, coeff: real, uid: int)
    ensures SumFor(Entries(ValidOnly(params, valid), coeff), uid)
            == if uid in valid then SumFor(Entries(params, coeff), uid) else 0
  {
    if params != [] {
      var n := |params| - 1;
      var front := ValidOnly(params[..n], valid);
      ValidKeepsSum(params[..n], valid, coeff, uid);
      assert Entries(params, coeff)[..n] == Entries(params[..n], coeff);
      if params[n].uid in valid { assert Entries(front + [params[n]], coeff)[..|front|] == Entries(front, coeff); }
    }
  }

  lemma {:induction false} ValidKeepsAllSums(chunks: seq<Chunk>, valid: set<int>, uid: int)
    ensures SumFor(AllEntries(ValidChunks(chunks, valid)), uid)
            == if uid in valid then SumFor(AllEntries(chunks), uid) else 0
  {
    if chunks != [] {
      var n := |chunks| - 1;
      ValidKeepsAllSums(chunks[..n], valid, uid);
      assert ValidChunks(chunks, valid)[..n] == ValidChunks(chunks[..n], valid);
      ValidKeepsSum(chunks[n].params, valid, chunks[n].coeff, uid);
      SumForConcat(AllEntries(chunks[..n]), Entries(chunks[n].params, chunks[n].coeff), uid);
      SumForConcat(AllEntries(ValidChunks(chunks[..n], valid)),
                   Entries(ValidOnly(chunks[n].params, valid), chunks[n].coeff), uid);
    }
  }

  // The three ledgers book the same measurements. For every known user the increment of the user
  // table equals what its rows gain over all nodes; for every admin the increment equals the sum of
  // the increments of its users, which is the sum of the raw charges of those users.
  lemma LedgersAgree(chunks: seq<Chunk>, admins: map<int, Option<int>>, order: seq<int>, table: map<Row, int>,
                     createdAt: int, uid: int, a: int)
    requires DistinctNodes(chunks) && Listing(order, Tally(AllEntries(chunks)).Keys)
    ensures forall i | 0 <= i < |order| :: order[i] in Tally(AllEntries(chunks))
    ensures var known := ValidChunks(chunks, admins.Keys);
            RowGain(known, AllRows(known, createdAt), createdAt, uid) ==
            if uid in admins then Lookup(Tally(AllEntries(chunks)), uid) else 0
    ensures var rows := AllRows(ValidChunks(chunks, admins.Keys), createdAt);
            forall n :: Lookup(BumpAll(table, rows), Row(createdAt, uid, n)) ==
                        Lookup(table, Row(createdAt, uid, n)) + SumFor(rows, Row(createdAt, uid, n))
    ensures Lookup(Tally(ForAdmins(admins, UserList(Tally(AllEntries(chunks)), order))), a) ==
            AdminShare(admins, order, AllEntries(chunks), a)
    ensures Lookup(Tally(ForAdmins(admins, UserList(Tally(AllEntries(chunks)), order))), a) ==
            if a == 0 then 0 else SumOver(AllEntries(chunks), set u | u in admins && admins[u] == Some(a))
  {
    var es, known := AllEntries(chunks), ValidChunks(chunks, admins.Keys);
    BumpAllAt(map[], es, uid);
    ValidKeepsAllSums(chunks, admins.Keys, uid);
    UserIsSumOfRows(known, createdAt, uid);
    forall n { BumpAllAt(table, AllRows(known, createdAt), Row(createdAt, uid, n)); }
    assert forall i | 0 <= i < |order| :: order[i] in Elems(order);
    ListedShare(admins, es, order, a);
    BumpAllAt(map[], ForAdmins(admins, UserList(Tally(es), order)), a);
    forall i | 0 <= i < |es| ensures es[i].0 in order {
      BumpAllAt(map[], es, es[i].0);
      assert Mentions(es, es[i].0);
      assert es[i].0 in Elems(order);
    }
    AdminChargedForItsUsers(admins, order, es, a);
    AdminCharge(admins, es, a);
  }
}
