// Receiving a user list in indexed chunks and putting it together again
// (node-main/controller/rpc/user.go SyncUsersChunked, node-main/controller/users_chunk.go).
module ChunkedUsers {
  import opened Prelude

  const MAX_INDEX: nat := 0xFFFF_FFFF_FFFF_FFFF

  // Chunk indices are 64-bit unsigned.
  type Index = i: nat | i <= MAX_INDEX

  datatype Chunk<T> = Chunk(index: Index, users: seq<T>, last: bool)

  datatype Assembly<T> = Users(users: seq<T>) | MissingFinal | MissingChunk(index: nat) | NoUsers

  // ---- receiving ----

  // The stream up to and including the first chunk flagged as last; everything behind it is not read.
  function Read<T>(stream: seq<Chunk<T>>): (n: nat)
    ensures n <= |stream|
    ensures forall j | 0 <= j < n - 1 :: !stream[j].last
    ensures n < |stream| ==> n > 0 && stream[n - 1].last
  {
    if stream == [] then 0 else if stream[0].last then 1 else 1 + Read(stream[1..])
  }

  // The users sent under index i, in order of arrival.
  function Payload<T>(stream: seq<Chunk<T>>, i: nat): seq<T> {
    if stream == [] then []
    else
      var front, c := Payload(stream[..|stream| - 1], i), stream[|stream| - 1];
      if c.index == i then front + c.users else front
  }

  // One chunk gives its users to its own index, and a later part of the stream is appended to an earlier one:
  // a repeated index collects everything sent under it, in order of arrival.
  lemma {:induction false} PayloadConcat<T>(a: seq<Chunk<T>>, b: seq<Chunk<T>>, i: nat)
    ensures Payload(a + b, i) == Payload(a, i) + Payload(b, i)
    ensures |b| == 1 ==> Payload(b, i) == if b[0].index == i then b[0].users else []
  {
    if b == [] {
      assert a + b == a;
    } else {
      assert (a + b)[..|a + b| - 1] == a + b[..|b| - 1];
      PayloadConcat(a, b[..|b| - 1], i);
      assert |b| == 1 ==> b[..0] == [];
    }
  }

  ghost function Collected<T>(stream: seq<Chunk<T>>): map<nat, seq<T>> {
    map c | c in stream :: c.index as nat := Payload(stream, c.index)
  }

  // `chunks[index] = append(chunks[index], users...)`
  function AppendAt<T>(chunks: map<nat, seq<T>>, c: Chunk<T>): map<nat, seq<T>> {
    chunks[c.index as nat := (if c.index as nat in chunks then chunks[c.index as nat] else []) + c.users]
  }

  lemma CollectedOneMore<T>(stream: seq<Chunk<T>>, c: Chunk<T>)
    ensures Collected(stream + [c]) == AppendAt(Collected(stream), c)
  {
    var more := stream + [c];
    assert more[..|stream|] == stream;
    if c.index as nat !in Collected(stream) { NoPayload(stream, c.index); }
    var a, b := Collected(more), AppendAt(Collected(stream), c);
    forall i | i in b ensures i in a {
      if i != c.index as nat { var d :| d in stream && d.index as nat == i; assert d in more; }
      else { assert c in more; }
    }
    forall i | i in a ensures i in b && a[i] == b[i] {
      var d :| d in more && d.index as nat == i;
      if d in stream {} else { assert d == c; }
    }
  }

  lemma {:induction false} NoPayload<T>(stream: seq<Chunk<T>>, i: nat)
    requires forall c | c in stream :: c.index as nat != i
    ensures Payload(stream, i) == []
  {
    if stream != [] { NoPayload(stream[..|stream| - 1], i); }
  }

  lemma CollectedPrefix<T>(stream: seq<Chunk<T>>, n: nat)
    requires n < |stream|
    ensures Collected(stream[..n+1]) == AppendAt(Collected(stream[..n]), stream[n])
  {
    CollectedOneMore(stream[..n], stream[n]);
    assert stream[..n] + [stream[n]] == stream[..n+1];
  }

  method ReceiveChunks<T>(stream: seq<Chunk<T>>) returns (chunks: map<nat, seq<T>>, lastIndex: Index, sawLast: bool)
    ensures chunks == Collected(stream[..Read(stream)])
    ensures sawLast <==> Read(stream) > 0 && stream[Read(stream) - 1].last
    ensures sawLast ==> lastIndex == stream[Read(stream) - 1].index
  {
    chunks, lastIndex, sawLast := map[], 0, false;
    var n := 0;
    while n < |stream|
      invariant n <= |stream| && !sawLast && chunks == Collected(stream[..n])
      invariant forall j | 0 <= j < n :: !stream[j].last
    {
      var chunk := stream[n];
      CollectedPrefix(stream, n);
      chunks := AppendAt(chunks, chunk);
      n := n + 1;
      if chunk.last {
        sawLast, lastIndex := true, chunk.index;
        break;
      }
    }
    ReadIs(stream, n);
  }

  lemma {:induction false} ReadIs<T>(stream: seq<Chunk<T>>, n: nat)
    requires n <= |stream| && (forall j | 0 <= j < n - 1 :: !stream[j].last)
    requires n < |stream| ==> n > 0 && stream[n - 1].last
    ensures Read(stream) == n
  {
    if n > 0 && !stream[0].last { ReadIs(stream[1..], n - 1); }
  }

  // ---- assembling ----

  predicate Complete<T>(chunks: map<nat, seq<T>>, n: nat) { forall i | 0 <= i < n :: i in chunks }

  function Joined<T>(chunks: map<nat, seq<T>>, n: nat): seq<T>
    requires Complete(chunks, n)
  {
    if n == 0 then [] else Joined(chunks, n - 1) + chunks[n - 1]
  }

  predicate FirstMissing<T>(chunks: map<nat, seq<T>>, i: nat) { Complete(chunks, i) && i !in chunks }

  // The loop index wraps around after the largest index, so the loop ends exactly when it is not
  // asked to run past a complete set of all 2^64 chunks. It looks at no more than one index
  // beyond the number of chunks received, however large the last index is.
  method BuildUsersFromChunks<T>(chunks: map<nat, seq<T>>, lastIndex: Index, sawLast: bool)
      returns (r: Assembly<T>, ghost steps: nat)
    requires !(lastIndex == MAX_INDEX && Complete(chunks, MAX_INDEX + 1))
    ensures r.MissingFinal? <==> !sawLast
    ensures r.MissingChunk? <==> sawLast && !Complete(chunks, lastIndex + 1)
    ensures r.MissingChunk? ==> r.index <= lastIndex && FirstMissing(chunks, r.index)
    ensures r.NoUsers? ==> Complete(chunks, lastIndex + 1) && Joined(chunks, lastIndex + 1) == []
    ensures r.Users? ==> Complete(chunks, lastIndex + 1) && r.users == Joined(chunks, lastIndex + 1) != []
    ensures steps <= |chunks| + 1
  {
    steps := 0;
    if !sawLast { r := MissingFinal; return; }
    var users: seq<T> := [];
    var i: nat := 0;
    while i <= lastIndex
      invariant i <= lastIndex + 1 && Complete(chunks, i) && i <= MAX_INDEX
      invariant users == Joined(chunks, i) && steps == i
      decreases lastIndex + 1 - i
    {
      CompletePrefix(chunks, i);
      steps := steps + 1;
      if i !in chunks {
        r := MissingChunk(i);
        return;
      }
      users := users + chunks[i];
      assert Complete(chunks, i + 1);
      i := (i + 1) % (MAX_INDEX + 1);
    }
    CompletePrefix(chunks, i);
    if |users| == 0 { r := NoUsers; return; }
    r := Users(users);
  }

  lemma {:induction false} CompletePrefix<T>(chunks: map<nat, seq<T>>, n: nat)
    requires Complete(chunks, n)
    ensures n <= |chunks|
  {
    if n > 0 {
      var rest := chunks - {n - 1};
      CompletePrefix(rest, n - 1);
      assert chunks.Keys == rest.Keys + {n - 1};
    }
  }

  // ---- round trip ----

  // Part i of a split list as a chunk; the final part carries the flag.
  function PartAsChunk<T>(parts: seq<seq<T>>, i: nat): Chunk<T>
    requires i < |parts| <= MAX_INDEX
  {
    Chunk(i, parts[i], i == |parts| - 1)
  }

  // Some delivery of all parts, each once, in any order that ends with the flagged one.
  ghost predicate IsDelivery<T>(parts: seq<seq<T>>, order: seq<nat>, stream: seq<Chunk<T>>) {
    && 0 < |parts| <= MAX_INDEX && |stream| == |order| && NoDup(order)
    && (forall i | 0 <= i < |parts| :: i in order)
    && (forall j | 0 <= j < |order| :: order[j] < |parts| && stream[j] == PartAsChunk(parts, order[j]))
    && |order| > 0 && order[|order| - 1] == |parts| - 1
  }

  lemma {:induction false} PayloadOfOrder<T>(parts: seq<seq<T>>, order: seq<nat>, stream: seq<Chunk<T>>, i: nat)
    requires |parts| <= MAX_INDEX && |stream| == |order| && NoDup(order)
    requires forall j | 0 <= j < |order| :: order[j] < |parts| && stream[j] == PartAsChunk(parts, order[j])
    requires i < |parts|
    ensures Payload(stream, i) == if i in order then parts[i] else []
  {
    if stream != [] {
      var n := |stream| - 1;
      PayloadOfOrder(parts, order[..n], stream[..n], i);
      assert order == order[..n] + [order[n]];
      if order[n] == i { assert i !in order[..n]; assert [] + parts[i] == parts[i]; }
    }
  }

  lemma {:induction false} JoinedIsFlatten<T>(chunks: map<nat, seq<T>>, parts: seq<seq<T>>)
    requires forall i | 0 <= i < |parts| :: i in chunks && chunks[i] == parts[i]
    ensures Complete(chunks, |parts|) && Joined(chunks, |parts|) == Flatten(parts)
  {
    if parts != [] {
      var n := |parts| - 1;
      JoinedIsFlatten(chunks, parts[..n]);
    }
  }

  // Splitting a list into parts and delivering them in any order with the flagged part last
  // rebuilds the list exactly.
  lemma RoundTrip<T>(parts: seq<seq<T>>, order: seq<nat>, stream: seq<Chunk<T>>)
    requires IsDelivery(parts, order, stream)
    ensures Read(stream) == |stream| > 0 && stream[|stream| - 1].last
            && stream[|stream| - 1].index as nat == |parts| - 1
    ensures Complete(Collected(stream[..Read(stream)]), |parts|)
    ensures Joined(Collected(stream[..Read(stream)]), |parts|) == Flatten(parts)
  {
    var n := |stream| - 1;
    forall j | 0 <= j < n ensures !stream[j].last { assert order[j] != order[n]; }
    ReadIs(stream, |stream|);
    assert stream[..|stream|] == stream;
    forall i | 0 <= i < |parts| ensures i in Collected(stream) && Collected(stream)[i] == parts[i] {
      assert i in order;
      var j :| 0 <= j < |order| && order[j] == i;
      assert stream[j] in stream && stream[j].index as nat == i;
      PayloadOfOrder(parts, order, stream, i);
    }
    JoinedIsFlatten(Collected(stream), parts);
  }
}
