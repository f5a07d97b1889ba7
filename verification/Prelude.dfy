// Shared vocabulary: options, sequences without repetition, and the iteration
// order of a Go map, which the language leaves unspecified.
module Prelude {

  datatype Option<+T> = None | Some(value: T) {
    function UnwrapOr(default: T): T { if Some? then value else default }
  }

  predicate NoDup<T(==)>(s: seq<T>) {
    forall i, j :: 0 <= i < j < |s| ==> s[i] != s[j]
  }

  function Elems<T(==)>(s: seq<T>): set<T> { set x | x in s }

  // `order` visits every element of `keys` exactly once.
  predicate Listing<T(==)>(order: seq<T>, keys: set<T>) {
    NoDup(order) && Elems(order) == keys
  }

  lemma ListingAppend<T>(order: seq<T>, keys: set<T>, k: T)
    requires Listing(order, keys) && k !in keys
    ensures Listing(order + [k], keys + {k})
  {
    assert Elems(order + [k]) == Elems(order) + {k};
    assert forall i | 0 <= i < |order| :: order[i] in Elems(order);
  }

  lemma ElemsPrefix<T>(s: seq<T>, i: nat)
    requires i < |s|
    ensures Elems(s[..i+1]) == Elems(s[..i]) + {s[i]}
    ensures s[i] in Elems(s)
    ensures NoDup(s) ==> s[i] !in Elems(s[..i])
  {
    assert s[..i+1] == s[..i] + [s[i]];
  }

  // `for key := range m` in Go: every key once, in an order the program cannot rely on.
  method AnyOrder<T(==)>(keys: set<T>) returns (order: seq<T>)
    ensures Listing(order, keys)
  {
    order := [];
    var todo := keys;
    while todo != {}
      invariant todo <= keys && Listing(order, keys - todo)
    {
      var k :| k in todo;
      ListingAppend(order, keys - todo, k);
      assert keys - todo + {k} == keys - (todo - {k});
      order, todo := order + [k], todo - {k};
    }
    assert keys - todo == keys;
  }

  function Flatten<T>(parts: seq<seq<T>>): seq<T> {
    if parts == [] then [] else Flatten(parts[..|parts| - 1]) + parts[|parts| - 1]
  }

  predicate DistinctBy<T>(s: seq<T>, key: T -> string) {
    forall i, j :: 0 <= i < j < |s| ==> key(s[i]) != key(s[j])
  }

  // A slice whose elements have distinct keys, read as a map from key to element.
  function IndexBy<T>(s: seq<T>, key: T -> string): map<string, T>
    requires DistinctBy(s, key)
  {
    map i | 0 <= i < |s| :: key(s[i]) := s[i]
  }

  lemma IndexByElements<T(!new)>(s: seq<T>, key: T -> string)
    requires DistinctBy(s, key)
    ensures forall x | x in s :: key(x) in IndexBy(s, key) && IndexBy(s, key)[key(x)] == x
    ensures forall k | k in IndexBy(s, key) :: IndexBy(s, key)[k] in s && key(IndexBy(s, key)[k]) == k
  {
    var m := IndexBy(s, key);
    forall x | x in s ensures key(x) in m && m[key(x)] == x {
      var i :| 0 <= i < |s| && s[i] == x;
      assert key(s[i]) in m;
    }
  }

  lemma IndexByAppend<T>(s: seq<T>, x: T, key: T -> string)
    requires DistinctBy(s, key) && key(x) !in IndexBy(s, key)
    ensures DistinctBy(s + [x], key)
    ensures IndexBy(s + [x], key) == IndexBy(s, key)[key(x) := x]
  {
    var t := s + [x];
    forall i, j | 0 <= i < j < |t| ensures key(t[i]) != key(t[j]) {
      assert t[i] == s[i];
      assert key(s[i]) in IndexBy(s, key);
    }
    var a, b := IndexBy(t, key), IndexBy(s, key)[key(x) := x];
    forall k | k in b ensures k in a && a[k] == b[k] {
      if k == key(x) {
        assert t[|s|] == x;
      } else {
        var i :| 0 <= i < |s| && key(s[i]) == k;
        assert t[i] == s[i];
      }
    }
    forall k | k in a ensures k in b {
      var i :| 0 <= i < |t| && key(t[i]) == k;
      if i < |s| { assert t[i] == s[i]; }
    }
  }

  lemma IndexByPrefix<T>(s: seq<T>, n: nat, key: T -> string)
    requires DistinctBy(s, key) && n < |s|
    ensures DistinctBy(s[..n], key) && DistinctBy(s[..n+1], key)
    ensures key(s[n]) !in IndexBy(s[..n], key)
    ensures IndexBy(s[..n+1], key) == IndexBy(s[..n], key)[key(s[n]) := s[n]]
  {
    assert s[..n+1] == s[..n] + [s[n]];
    IndexByAppend(s[..n], s[n], key);
  }

  lemma IndexByPart<T(!new)>(s: seq<T>, n: nat, key: T -> string)
    requires DistinctBy(s, key) && n <= |s|
    ensures DistinctBy(s[..n], key)
    ensures forall k | k in IndexBy(s[..n], key) ::
            k in IndexBy(s, key) && IndexBy(s, key)[k] == IndexBy(s[..n], key)[k]
  {
    IndexByElements(s[..n], key);
    IndexByElements(s, key);
    var part := IndexBy(s[..n], key);
    forall k | k in part ensures k in IndexBy(s, key) && IndexBy(s, key)[k] == part[k] { assert part[k] in s; }
  }

  lemma {:induction false} IndexByConcat<T(!new)>(s: seq<T>, t: seq<T>, key: T -> string)
    requires DistinctBy(s, key) && DistinctBy(t, key)
    requires forall k | k in IndexBy(t, key) :: k !in IndexBy(s, key)
    ensures DistinctBy(s + t, key)
    ensures IndexBy(s + t, key) == IndexBy(s, key) + IndexBy(t, key)
  {
    if t == [] {
      assert s + t == s;
      assert IndexBy(s, key) + IndexBy(t, key) == IndexBy(s, key);
    } else {
      var n := |t| - 1;
      IndexByPrefix(t, n, key);
      assert t[..n+1] == t;
      IndexByConcat(s, t[..n], key);
      assert s + t == (s + t[..n]) + [t[n]];
      IndexByGrow(s + t[..n], t[n], key, IndexBy(s, key), IndexBy(t[..n], key));
    }
  }

  lemma IndexByGrow<T>(s: seq<T>, x: T, key: T -> string, a: map<string, T>, b: map<string, T>)
    requires DistinctBy(s, key) && IndexBy(s, key) == a + b && key(x) !in a && key(x) !in b
    ensures DistinctBy(s + [x], key) && IndexBy(s + [x], key) == a + b[key(x) := x]
  {
    SumUpdate(a, b, key(x), x);
    IndexByAppend(s, x, key);
  }

  lemma SumUpdate<T>(a: map<string, T>, b: map<string, T>, k: string, x: T)
    ensures (a + b)[k := x] == a + b[k := x]
    ensures k !in a && k !in b ==> k !in a + b
  {}

  // ---- gathering, key by key, the part of a map that has been visited ----

  function Restrict<T>(m: map<string, T>, ks: set<string>): map<string, T> {
    m - (m.Keys - ks)
  }

  lemma RestrictOneMore<T>(m: map<string, T>, ks: set<string>, k: string)
    requires k !in ks
    ensures k !in Restrict(m, ks)
    ensures k in m ==> Restrict(m, ks + {k}) == Restrict(m, ks)[k := m[k]]
    ensures k !in m ==> Restrict(m, ks + {k}) == Restrict(m, ks)
  {}

  lemma RestrictAll<T>(m: map<string, T>, ks: set<string>)
    requires m.Keys <= ks
    ensures Restrict(m, ks) == m
  {}

  // The slice s holds the entries of m whose keys are in ks, each once.
  predicate Gathered<T(==)>(s: seq<T>, key: T -> string, m: map<string, T>, ks: set<string>) {
    DistinctBy(s, key) && IndexBy(s, key) == Restrict(m, ks)
  }

  lemma GatherHit<T>(s: seq<T>, x: T, key: T -> string, m: map<string, T>, ks: set<string>)
    requires Gathered(s, key, m, ks) && key(x) !in ks && key(x) in m && m[key(x)] == x
    ensures Gathered(s + [x], key, m, ks + {key(x)})
  {
    RestrictOneMore(m, ks, key(x));
    IndexByAppend(s, x, key);
  }

  lemma GatherMiss<T>(s: seq<T>, key: T -> string, m: map<string, T>, ks: set<string>, k: string)
    requires Gathered(s, key, m, ks) && k !in ks && k !in m
    ensures Gathered(s, key, m, ks + {k})
  {
    RestrictOneMore(m, ks, k);
  }

  lemma GatherAll<T>(s: seq<T>, key: T -> string, m: map<string, T>, ks: set<string>)
    requires Gathered(s, key, m, ks) && m.Keys <= ks
    ensures DistinctBy(s, key) && IndexBy(s, key) == m
  {
    RestrictAll(m, ks);
  }
}
