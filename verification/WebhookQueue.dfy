// The webhook queue job: drain, send in batches, put failures back
// (panel-main/app/jobs/send_notifications.py).
module WebhookQueue {
  import opened Prelude

  // A queue item either validates as a notification or does not. `id` tells notifications apart.
  datatype Note = Note(id: nat, sendAt: int, tries: nat)

  datatype Item = Valid(note: Note) | Malformed

  datatype Settings = Settings(enable: bool, recurrent: nat, timeout: int)

  // The notifications built from the queue; `ready` and `requeue` refer to them by position,
  // as the lists of the job refer to the same objects.
  datatype Drained = Drained(made: seq<Note>, ready: seq<nat>, requeue: seq<nat>)

  // The valid items, in queue order.
  function Notes(queue: seq<Item>): seq<Note> {
    if queue == [] then []
    else
      var n := |queue| - 1;
      match queue[n]
      case Valid(note) => Notes(queue[..n]) + [note]
      case Malformed => Notes(queue[..n])
  }

  predicate Spent(n: Note, s: Settings) { n.tries >= s.recurrent }

  predicate Waiting(n: Note, s: Settings, now: int) { !Spent(n, s) && n.sendAt > now }

  predicate Due(n: Note, s: Settings, now: int) { !Spent(n, s) && n.sendAt <= now }

  // A malformed first item ends the job: the handler refers to a notification that was never built.
  predicate Crashes(queue: seq<Item>) { queue != [] && queue[0].Malformed? }

  // A malformed item puts back the notification built before it.
  function Drain(queue: seq<Item>, s: Settings, now: int): (d: Drained)
    requires !Crashes(queue)
    ensures d.made == Notes(queue) && (queue != [] ==> d.made != [])
    ensures forall i | 0 <= i < |d.ready| :: d.ready[i] < |d.made|
    ensures forall i | 0 <= i < |d.requeue| :: d.requeue[i] < |d.made|
  {
    if queue == [] then Drained([], [], [])
    else
      var n := |queue| - 1;
      var d := Drain(queue[..n], s, now);
      match queue[n]
      case Malformed => d.(requeue := d.requeue + [|d.made| - 1])
      case Valid(note) =>
        var made, k := d.made + [note], |d.made|;
        if Spent(note, s) then d.(made := made)
        else if note.sendAt > now then d.(made := made, requeue := d.requeue + [k])
        else d.(made := made, ready := d.ready + [k])
  }

  const BATCH := 50

  function Retried(n: Note, s: Settings, retryAt: int): Note {
    if n.tries + 1 < s.recurrent then Note(n.id, retryAt + s.timeout, n.tries + 1) else n.(tries := n.tries + 1)
  }

  // The state after the first `sent` ready notifications have been posted; the webhooks'
  // answer for a batch is `answers(batch number)`, and the clock after it `retryAt(batch number)`.
  function Post(d: Drained, s: Settings, answers: nat -> bool, retryAt: nat -> int, sent: nat): (r: Drained)
    requires sent <= |d.ready|
    requires forall i | 0 <= i < |d.ready| :: d.ready[i] < |d.made|
    requires forall i | 0 <= i < |d.requeue| :: d.requeue[i] < |d.made|
    ensures r.ready == d.ready && |r.made| == |d.made|
    ensures forall i | 0 <= i < |r.requeue| :: r.requeue[i] < |r.made|
  {
    if sent == 0 then d
    else
      var r, k := Post(d, s, answers, retryAt, sent - 1), d.ready[sent - 1];
      if answers((sent - 1) / BATCH) then r
      else
        var n := Retried(r.made[k], s, retryAt((sent - 1) / BATCH));
        r.(made := r.made[k := n], requeue := if n.tries < s.recurrent then r.requeue + [k] else r.requeue)
  }

  function Requeued(d: Drained): seq<Item>
    requires forall i | 0 <= i < |d.requeue| :: d.requeue[i] < |d.made|
  {
    seq(|d.requeue|, i requires 0 <= i < |d.requeue| => Valid(d.made[d.requeue[i]]))
  }

  function After(queue: seq<Item>, s: Settings, now: int, answers: nat -> bool, retryAt: nat -> int): seq<Item> {
    if !s.enable then queue
    else if Crashes(queue) then queue[1..]
    else
      var d := Drain(queue, s, now);
      Requeued(Post(d, s, answers, retryAt, |d.ready|))
  }

  // The job. Besides the queue it leaves, its contract covers what it posts: the batches are
  // the ready notifications in order, each exactly once, none larger than 50.
  method SendNotifications(queue: seq<Item>, s: Settings, now: int, answers: nat -> bool, retryAt: nat -> int)
      returns (left: seq<Item>, batches: seq<seq<nat>>)
    ensures left == After(queue, s, now, answers, retryAt)
    ensures s.enable && !Crashes(queue) ==> Flatten(batches) == Drain(queue, s, now).ready
    ensures !s.enable ==> left == queue && batches == []
    ensures s.enable && queue != [] && queue[0].Malformed? ==> left == queue[1..] && batches == []
    ensures forall i | 0 <= i < |batches| :: 0 < |batches[i]| <= 50 && (i < |batches| - 1 ==> |batches[i]| == 50)
  {
    batches := [];
    if !s.enable { return queue, []; }
    var made: seq<Note>, ready: seq<nat>, requeue: seq<nat> := [], [], [];
    for i := 0 to |queue|
      invariant !Crashes(queue[..i]) && Drained(made, ready, requeue) == Drain(queue[..i], s, now)
    {
      assert queue[..i+1][..i] == queue[..i];
      if queue[i].Malformed? {
        if |made| == 0 {
          assert i == 0;
          return queue[1..], [];
        }
        requeue := requeue + [|made| - 1];
        continue;
      }
      var note := queue[i].note;
      made := made + [note];
      if note.tries >= s.recurrent { continue; }
      if note.sendAt > now {
        requeue := requeue + [|made| - 1];
        continue;
      }
      ready := ready + [|made| - 1];
    }
    assert queue[..|queue|] == queue;
    left, batches := SendBatches(Drained(made, ready, requeue), s, answers, retryAt);
  }

  method SendBatches(d: Drained, s: Settings, answers: nat -> bool, retryAt: nat -> int)
      returns (left: seq<Item>, batches: seq<seq<nat>>)
    requires forall i | 0 <= i < |d.ready| :: d.ready[i] < |d.made|
    requires forall i | 0 <= i < |d.requeue| :: d.requeue[i] < |d.made|
    ensures left == Requeued(Post(d, s, answers, retryAt, |d.ready|))
    ensures Flatten(batches) == d.ready
    ensures forall i | 0 <= i < |batches| :: 0 < |batches[i]| <= BATCH && (i < |batches| - 1 ==> |batches[i]| == BATCH)
  {
    var made, ready, requeue := d.made, d.ready, d.requeue;
    batches := [];
    var start := 0;
    while start < |ready|
      invariant 0 <= start <= |ready| && (start < |ready| ==> start == BATCH * |batches|)
      invariant Flatten(batches) == ready[..start] && forall i | 0 <= i < |batches| :: 0 < |batches[i]| <= BATCH
      invariant start < |ready| ==> forall i | 0 <= i < |batches| :: |batches[i]| == BATCH
      invariant forall i | 0 <= i < |batches| - 1 :: |batches[i]| == BATCH
      invariant Drained(made, ready, requeue) == Post(d, s, answers, retryAt, start)
    {
      var end := if start + BATCH <= |ready| then start + BATCH else |ready|;
      var batch := ready[start..end];
      made, requeue := PostBatch(d, s, answers, retryAt, |batches|, start, end, made, requeue);
      assert (batches + [batch])[..|batches|] == batches;
      assert ready[..end] == ready[..start] + batch;
      batches := batches + [batch];
      start := end;
    }
    assert ready[..start] == ready;
    left := [];
    for i := 0 to |requeue|
      invariant left == Requeued(Drained(made, ready, requeue))[..i]
    {
      left := left + [Valid(made[requeue[i]])];
    }
  }

  // One batch: refused notifications get a try more and go back while tries remain.
  method PostBatch(d: Drained, s: Settings, answers: nat -> bool, retryAt: nat -> int, number: nat, start: nat,
                   end: nat, made0: seq<Note>, requeue0: seq<nat>) returns (made: seq<Note>, requeue: seq<nat>)
    requires forall i | 0 <= i < |d.ready| :: d.ready[i] < |d.made|
    requires forall i | 0 <= i < |d.requeue| :: d.requeue[i] < |d.made|
    requires start == BATCH * number && start <= end <= start + BATCH && end <= |d.ready|
    requires Drained(made0, d.ready, requeue0) == Post(d, s, answers, retryAt, start)
    ensures Drained(made, d.ready, requeue) == Post(d, s, answers, retryAt, end)
  {
    made, requeue := made0, requeue0;
    var success, clock := answers(number), retryAt(number);
    for j := start to end
      invariant Drained(made, d.ready, requeue) == Post(d, s, answers, retryAt, j)
    {
      assert j / BATCH == number;
      var k := d.ready[j];
      if !success {
        made := made[k := made[k].(tries := made[k].tries + 1)];
        if made[k].tries < s.recurrent {
          made := made[k := made[k].(sendAt := clock + s.timeout)];
          requeue := requeue + [k];
        }
      }
    }
  }

  // ---- nothing lost, and what a malformed item doubles ----

  // How often position k is listed.
  function Times(s: seq<nat>, k: nat): nat {
    if s == [] then 0 else Times(s[..|s| - 1], k) + if s[|s| - 1] == k then 1 else 0
  }

  // A list of positions grows by at most one at its end.
  lemma TimesGrow(before: seq<nat>, after: seq<nat>, x: nat, k: nat)
    requires after == before || after == before + [x]
    ensures Times(after, k) == Times(before, k) + if after != before && x == k then 1 else 0
  {
    assert after != before ==> after[..|before|] == before;
  }

  lemma {:induction false} ListedTwice(s: seq<nat>, i: nat, j: nat)
    requires i < j < |s| && s[i] == s[j]
    ensures Times(s, s[i]) >= 2
  {
    var n := |s| - 1;
    if j < n { ListedTwice(s[..n], i, j); } else { ListedOnce(s[..n], i); }
  }

  lemma {:induction false} ListedOnce(s: seq<nat>, i: nat)
    requires i < |s|
    ensures Times(s, s[i]) >= 1
  {
    var n := |s| - 1;
    if i < n { ListedOnce(s[..n], i); }
  }

  lemma {:induction false} FindListed(s: seq<nat>, k: nat) returns (j: nat)
    requires Times(s, k) >= 1
    ensures j < |s| && s[j] == k
  {
    j := |s| - 1;
    if s[j] != k { j := FindListed(s[..j], k); }
  }

  lemma {:induction false} FindTwice(s: seq<nat>, k: nat) returns (i: nat, j: nat)
    requires Times(s, k) >= 2
    ensures i < j < |s| && s[i] == s[j] == k
  {
    j := |s| - 1;
    if s[j] == k { i := FindListed(s[..j], k); } else { i, j := FindTwice(s[..j], k); }
  }

  predicate AllValid(queue: seq<Item>) { forall i | 0 <= i < |queue| :: queue[i].Valid? }

  lemma {:induction false} NotesOfValid(queue: seq<Item>)
    requires AllValid(queue)
    ensures |Notes(queue)| == |queue| && forall i | 0 <= i < |queue| :: Notes(queue)[i] == queue[i].note
  {
    if queue != [] {
      var n := |queue| - 1;
      NotesOfValid(queue[..n]);
      assert Notes(queue) == Notes(queue[..n]) + [queue[n].note];
    }
  }

  // How many malformed items directly follow the k-th notification.
  function Echoes(queue: seq<Item>, k: nat): nat {
    if queue == [] then 0
    else
      var n := |queue| - 1;
      Echoes(queue[..n], k) + if queue[n].Malformed? && |Notes(queue[..n])| == k + 1 then 1 else 0
  }

  lemma {:induction false} NoEchoes(queue: seq<Item>, k: nat)
    requires AllValid(queue)
    ensures Echoes(queue, k) == 0
  {
    if queue != [] { NoEchoes(queue[..|queue| - 1], k); }
  }

  // A notification with m malformed items behind it, up to the next notification or the end of the queue.
  lemma EchoesCount(a: seq<Item>, n: Note, m: nat, b: seq<Item>)
    requires b != [] ==> b[0].Valid?
    ensures Echoes(a + [Valid(n)] + seq(m, _ => Malformed) + b, |Notes(a)|) == m
  {
    EchoesRun(a, n, m);
    EchoesBeyond(a + [Valid(n)] + seq(m, _ => Malformed), b, |Notes(a)|);
  }

  lemma {:induction false} EchoesRun(a: seq<Item>, n: Note, m: nat)
    ensures Echoes(a + [Valid(n)] + seq(m, _ => Malformed), |Notes(a)|) == m
    ensures |Notes(a + [Valid(n)] + seq(m, _ => Malformed))| == |Notes(a)| + 1
  {
    var q := a + [Valid(n)] + seq(m, _ => Malformed);
    if m == 0 {
      assert q[..|a|] == a;
      NoEchoesYet(a, |Notes(a)|);
    } else {
      assert q[..|q| - 1] == a + [Valid(n)] + seq(m - 1, _ => Malformed);
      EchoesRun(a, n, m - 1);
    }
  }

  lemma {:induction false} NoEchoesYet(queue: seq<Item>, k: nat)
    requires k >= |Notes(queue)|
    ensures Echoes(queue, k) == 0
  {
    if queue != [] { NoEchoesYet(queue[..|queue| - 1], k); }
  }

  lemma {:induction false} EchoesBeyond(a: seq<Item>, b: seq<Item>, k: nat)
    requires |Notes(a)| == k + 1 && (b != [] ==> b[0].Valid?)
    ensures Echoes(a + b, k) == Echoes(a, k)
    ensures |Notes(a + b)| >= k + 1 && (b != [] ==> |Notes(a + b)| > k + 1)
  {
    if b == [] {
      assert a + b == a;
    } else {
      assert (a + b)[..|a + b| - 1] == a + b[..|b| - 1];
      EchoesBeyond(a, b[..|b| - 1], k);
    }
  }

  lemma {:induction false} FindEcho(queue: seq<Item>) returns (k: nat)
    requires !Crashes(queue) && !AllValid(queue)
    ensures k < |Notes(queue)| && Echoes(queue, k) > 0
  {
    var n := |queue| - 1;
    if queue[n].Malformed? {
      assert queue[..n] != [] && !Crashes(queue[..n]);
      NotesNonempty(queue[..n]);
      k := |Notes(queue[..n])| - 1;
    } else {
      assert !AllValid(queue[..n]) by {
        var i :| 0 <= i < |queue| && !queue[i].Valid?;
        assert queue[..n][i] == queue[i];
      }
      k := FindEcho(queue[..n]);
    }
  }

  lemma {:induction false} NotesNonempty(queue: seq<Item>)
    requires queue != [] && !Crashes(queue)
    ensures Notes(queue) != []
  {
    if |queue| > 1 { NotesNonempty(queue[..|queue| - 1]); }
  }

  // Every notification of the queue is due, waiting or spent, and the drain lists it accordingly;
  // each malformed item directly behind it puts it back once more.
  lemma {:induction false} DrainLists(queue: seq<Item>, s: Settings, now: int, k: nat)
    requires !Crashes(queue)
    ensures k < |Notes(queue)| ==>
              && Times(Drain(queue, s, now).ready, k) == (if Due(Notes(queue)[k], s, now) then 1 else 0)
              && Times(Drain(queue, s, now).requeue, k)
                 == (if Waiting(Notes(queue)[k], s, now) then 1 else 0) + Echoes(queue, k)
    ensures k >= |Notes(queue)| ==>
              && Times(Drain(queue, s, now).ready, k) == 0 == Times(Drain(queue, s, now).requeue, k)
              && Echoes(queue, k) == 0
  {
    if queue != [] {
      var n := |queue| - 1;
      var d, e := Drain(queue[..n], s, now), Drain(queue, s, now);
      DrainLists(queue[..n], s, now, k);
      var x := if queue[n].Malformed? then |d.made| - 1 else |d.made|;
      TimesGrow(d.ready, e.ready, x, k);
      TimesGrow(d.requeue, e.requeue, x, k);
    }
  }

  // How often the drain passes notification k on, and how often it should.
  function Handled(d: Drained, k: nat): nat { Times(d.ready, k) + Times(d.requeue, k) }

  function Expected(n: Note, s: Settings): nat { if Spent(n, s) then 0 else 1 }

  // The drain passes every live notification on exactly once, and no spent one, if and only if
  // the queue holds no malformed item. (A malformed first item ends the job before that.)
  lemma DrainExactIffValid(queue: seq<Item>, s: Settings, now: int)
    requires !Crashes(queue)
    ensures var d := Drain(queue, s, now);
            (forall k | 0 <= k < |d.made| :: Handled(d, k) == Expected(d.made[k], s)) <==> AllValid(queue)
  {
    var d := Drain(queue, s, now);
    if AllValid(queue) {
      forall k | 0 <= k < |d.made| ensures Handled(d, k) == Expected(d.made[k], s) {
        DrainLists(queue, s, now, k);
        NoEchoes(queue, k);
      }
    } else {
      var k := FindEcho(queue);
      DrainLists(queue, s, now, k);
      assert Handled(d, k) != Expected(d.made[k], s);
    }
  }

  // The batch that carries position k, if it is ready.
  function BatchOf(ready: seq<nat>, k: nat): Option<nat> {
    if ready == [] then None
    else if ready[|ready| - 1] == k then Some((|ready| - 1) / BATCH)
    else BatchOf(ready[..|ready| - 1], k)
  }

  predicate Refused(ready: seq<nat>, answers: nat -> bool, k: nat) {
    BatchOf(ready, k).Some? && !answers(BatchOf(ready, k).value)
  }

  lemma {:induction false} BatchedIffReady(ready: seq<nat>, k: nat)
    ensures BatchOf(ready, k).Some? <==> Times(ready, k) > 0
  {
    if ready != [] { BatchedIffReady(ready[..|ready| - 1], k); }
  }

  lemma {:induction false} BatchPosition(ready: seq<nat>, k: nat) returns (i: nat)
    requires k in ready
    ensures i < |ready| && ready[i] == k && BatchOf(ready, k) == Some(i / 50)
  {
    i := |ready| - 1;
    if ready[i] != k {
      assert ready == ready[..i] + [ready[i]];
      i := BatchPosition(ready[..i], k);
    }
  }

  // A notification after the post: one try more if its batch was refused.
  function Posted(n: Note, ready: seq<nat>, s: Settings, answers: nat -> bool, retryAt: nat -> int, k: nat): Note {
    if Refused(ready, answers, k) then Retried(n, s, retryAt(BatchOf(ready, k).value)) else n
  }

  lemma PostGrows(d: Drained, s: Settings, answers: nat -> bool, retryAt: nat -> int, sent: nat, k: nat)
    requires 0 < sent <= |d.ready| && k < |d.made|
    requires forall i | 0 <= i < |d.ready| :: d.ready[i] < |d.made|
    requires forall i | 0 <= i < |d.requeue| :: d.requeue[i] < |d.made|
    ensures var before, after := Post(d, s, answers, retryAt, sent - 1), Post(d, s, answers, retryAt, sent);
            var hit := d.ready[sent - 1] == k && !answers((sent - 1) / BATCH);
            && after.made[k] ==
               (if hit then Retried(before.made[k], s, retryAt((sent - 1) / BATCH)) else before.made[k])
            && Times(after.requeue, k) == Times(before.requeue, k)
               + if hit && before.made[k].tries + 1 < s.recurrent then 1 else 0
  {
    var before, after := Post(d, s, answers, retryAt, sent - 1), Post(d, s, answers, retryAt, sent);
    TimesGrow(before.requeue, after.requeue, d.ready[sent - 1], k);
  }

  // A refused notification has one try more, and is put back exactly when tries remain.
  lemma {:induction false} PostEffect(d: Drained, s: Settings, answers: nat -> bool, retryAt: nat -> int, sent: nat,
                                      k: nat)
    requires sent <= |d.ready| && k < |d.made| && Times(d.ready[..sent], k) <= 1
    requires forall i | 0 <= i < |d.ready| :: d.ready[i] < |d.made|
    requires forall i | 0 <= i < |d.requeue| :: d.requeue[i] < |d.made|
    ensures var r, ready := Post(d, s, answers, retryAt, sent), d.ready[..sent];
            && r.made[k] == Posted(d.made[k], ready, s, answers, retryAt, k)
            && Times(r.requeue, k) == Times(d.requeue, k)
               + if Refused(ready, answers, k) && d.made[k].tries + 1 < s.recurrent then 1 else 0
  {
    if sent > 0 {
      var n := sent - 1;
      assert d.ready[..sent][..n] == d.ready[..n];
      PostEffect(d, s, answers, retryAt, n, k);
      BatchedIffReady(d.ready[..n], k);
      PostGrows(d, s, answers, retryAt, sent, k);
    }
  }

  datatype Fate = Delivered | Dropped | PutBack

  // What the job means to do with the k-th notification.
  function FateOf(queue: seq<Item>, s: Settings, now: int, answers: nat -> bool, k: nat): Fate
    requires !Crashes(queue) && k < |Notes(queue)|
  {
    var n := Notes(queue)[k];
    if Spent(n, s) then Dropped
    else if Waiting(n, s, now) then PutBack
    else if !Refused(Drain(queue, s, now).ready, answers, k) then Delivered
    else if n.tries + 1 < s.recurrent then PutBack
    else Dropped
  }

  // Every notification is posted at most once, exactly if it has tries left and its time has come; if its
  // batch is refused it uses up a try and, as long as tries remain, is due again `timeout` after
  // that; it goes back if it has to wait or keeps tries after a refusal, and once more for each
  // malformed item directly behind it.
  lemma ExactlyOneFate(queue: seq<Item>, s: Settings, now: int, answers: nat -> bool, retryAt: nat -> int, k: nat)
    requires !Crashes(queue) && k < |Notes(queue)|
    ensures var d, n := Drain(queue, s, now), Notes(queue)[k];
            var r := Post(d, s, answers, retryAt, |d.ready|);
            && |r.made| == |Notes(queue)|
            && r.made[k] == Posted(n, d.ready, s, answers, retryAt, k)
            && Times(d.ready, k) == (if n.tries < s.recurrent && n.sendAt <= now then 1 else 0)
            && (BatchOf(d.ready, k).Some? <==> n.tries < s.recurrent && n.sendAt <= now)
            && var refused := BatchOf(d.ready, k).Some? && !answers(BatchOf(d.ready, k).value);
               && (!refused ==> r.made[k] == n)
               && (refused ==> r.made[k] == Note(
                    n.id,
                    if n.tries + 1 < s.recurrent then retryAt(BatchOf(d.ready, k).value) + s.timeout else n.sendAt,
                    n.tries + 1))
               && var again := (n.tries < s.recurrent && n.sendAt > now) || (refused && n.tries + 1 < s.recurrent);
                  && Times(r.requeue, k) == (if again then 1 else 0) + Echoes(queue, k)
                  && (again <==> FateOf(queue, s, now, answers, k) == PutBack)
  {
    var d := Drain(queue, s, now);
    DrainLists(queue, s, now, k);
    assert d.ready[..|d.ready|] == d.ready;
    PostEffect(d, s, answers, retryAt, |d.ready|, k);
    BatchedIffReady(d.ready, k);
  }

  // ---- bounded attempts over any sequence of job runs ----

  datatype Event =
    | Enqueue(id: nat, sendAt: int)
    | EnqueueMalformed
    | RunJob(now: int, answers: nat -> bool, retryAt: nat -> int)

  // The queue, and how often each notification has been posted.
  datatype Office = Office(queue: seq<Item>, posts: map<nat, nat>)

  function PostsOf(posts: map<nat, nat>, id: nat): nat { if id in posts then posts[id] else 0 }

  // How many of the listed notifications have this id.
  function Mentions(made: seq<Note>, listed: seq<nat>, id: nat): nat
    requires forall i | 0 <= i < |listed| :: listed[i] < |made|
  {
    if listed == [] then 0
    else Mentions(made, listed[..|listed| - 1], id) + if made[listed[|listed| - 1]].id == id then 1 else 0
  }

  // How often a run posts the notifications with this id.
  function PostedIn(queue: seq<Item>, s: Settings, now: int, id: nat): nat {
    if !s.enable || Crashes(queue) then 0
    else
      var d := Drain(queue, s, now);
      Mentions(d.made, d.ready, id)
  }

  predicate DistinctIds(notes: seq<Note>) {
    forall i, j | 0 <= i < j < |notes| :: notes[i].id != notes[j].id
  }

  // Queued as often as posted, and new or with tries left.
  predicate Entitled(n: Note, posts: map<nat, nat>, s: Settings) {
    n.tries == PostsOf(posts, n.id) && (n.tries == 0 || n.tries < s.recurrent)
  }

  ghost predicate Tracked(o: Office, s: Settings) {
    && DistinctIds(Notes(o.queue))
    && (forall i | 0 <= i < |Notes(o.queue)| :: Entitled(Notes(o.queue)[i], o.posts, s))
    && (forall id :: PostsOf(o.posts, id) <= s.recurrent)
  }

  ghost predicate Happens(o: Office, s: Settings, ev: Event, o': Office) {
    match ev
    case Enqueue(id, sendAt) =>   // a new notification
      && id !in o.posts && (forall i | 0 <= i < |Notes(o.queue)| :: Notes(o.queue)[i].id != id)
      && o' == Office(o.queue + [Valid(Note(id, sendAt, 0))], o.posts[id := 0])
    case EnqueueMalformed =>
      o' == o.(queue := o.queue + [Malformed])
    case RunJob(now, answers, retryAt) =>
      && o'.queue == After(o.queue, s, now, answers, retryAt)
      && forall id :: PostsOf(o'.posts, id) == PostsOf(o.posts, id) + PostedIn(o.queue, s, now, id)
  }

  lemma {:induction false} MentionsOne(made: seq<Note>, listed: seq<nat>, k: nat)
    requires DistinctIds(made) && k < |made| && forall i | 0 <= i < |listed| :: listed[i] < |made|
    ensures Mentions(made, listed, made[k].id) == Times(listed, k)
  {
    if listed != [] { MentionsOne(made, listed[..|listed| - 1], k); }
  }

  lemma {:induction false} MentionsNone(made: seq<Note>, listed: seq<nat>, id: nat)
    requires forall i | 0 <= i < |listed| :: listed[i] < |made|
    requires forall k | 0 <= k < |made| :: made[k].id != id
    ensures Mentions(made, listed, id) == 0
  {
    if listed != [] { MentionsNone(made, listed[..|listed| - 1], id); }
  }

  // A run posts a queued notification once if it is due, and posts nothing that is not queued.
  lemma PostedOnce(queue: seq<Item>, s: Settings, now: int, id: nat)
    requires s.enable && !Crashes(queue) && DistinctIds(Notes(queue))
    ensures forall k | 0 <= k < |Notes(queue)| && Notes(queue)[k].id == id ::
              PostedIn(queue, s, now, id) == if Due(Notes(queue)[k], s, now) then 1 else 0
    ensures (forall k | 0 <= k < |Notes(queue)| :: Notes(queue)[k].id != id) ==> PostedIn(queue, s, now, id) == 0
  {
    var d := Drain(queue, s, now);
    if k :| 0 <= k < |d.made| && d.made[k].id == id {
      MentionsOne(d.made, d.ready, k);
      DrainLists(queue, s, now, k);
    } else {
      MentionsNone(d.made, d.ready, id);
    }
  }

  // The queue a run leaves consists of the notifications put back.
  lemma RunLeaves(queue: seq<Item>, s: Settings, now: int, answers: nat -> bool, retryAt: nat -> int)
      returns (r: Drained)
    requires s.enable && !Crashes(queue)
    ensures var d := Drain(queue, s, now); r == Post(d, s, answers, retryAt, |d.ready|)
    ensures |r.made| == |Notes(queue)| && forall j | 0 <= j < |r.requeue| :: r.requeue[j] < |r.made|
    ensures var left := Notes(After(queue, s, now, answers, retryAt));
            |left| == |r.requeue| && forall j | 0 <= j < |left| :: left[j] == r.made[r.requeue[j]]
  {
    var d := Drain(queue, s, now);
    r := Post(d, s, answers, retryAt, |d.ready|);
    NotesOfValid(Requeued(r));
  }

  // An attempt more than the bound allows, or a second copy, for a notification with an echo.
  lemma EchoBreaks(o: Office, s: Settings, ev: Event, o': Office)
    requires s.enable && s.recurrent > 0 && !Crashes(o.queue) && !AllValid(o.queue)
    requires ev.RunJob? && Tracked(o, s) && Happens(o, s, ev, o')
    ensures !Tracked(o', s)
  {
    var k := FindEcho(o.queue);
    var n := Notes(o.queue)[k];
    ExactlyOneFate(o.queue, s, ev.now, ev.answers, ev.retryAt, k);
    PostedOnce(o.queue, s, ev.now, n.id);
    var r := RunLeaves(o.queue, s, ev.now, ev.answers, ev.retryAt);
    assert Entitled(n, o.posts, s);
    if Times(r.requeue, k) >= 2 {
      var i, j := FindTwice(r.requeue, k);
      assert Notes(o'.queue)[i].id == Notes(o'.queue)[j].id;
    } else {
      var j := FindListed(r.requeue, k);
      assert !Entitled(Notes(o'.queue)[j], o'.posts, s);
    }
  }

  lemma PutBackEntitled(o: Office, s: Settings, ev: Event, o': Office, r: Drained, j: nat)
    requires s.enable && AllValid(o.queue) && ev.RunJob? && Tracked(o, s) && Happens(o, s, ev, o')
    requires r == Post(Drain(o.queue, s, ev.now), s, ev.answers, ev.retryAt, |Drain(o.queue, s, ev.now).ready|)
    requires j < |r.requeue| && r.requeue[j] < |Notes(o.queue)| && |r.made| == |Notes(o.queue)|
    ensures r.made[r.requeue[j]].id == Notes(o.queue)[r.requeue[j]].id
    ensures Entitled(r.made[r.requeue[j]], o'.posts, s)
  {
    var k := r.requeue[j];
    var n := Notes(o.queue)[k];
    ListedOnce(r.requeue, j);
    NoEchoes(o.queue, k);
    ExactlyOneFate(o.queue, s, ev.now, ev.answers, ev.retryAt, k);
    assert Entitled(n, o.posts, s);
    PostedOnce(o.queue, s, ev.now, n.id);
  }

  lemma PutBackOnce(queue: seq<Item>, s: Settings, now: int, answers: nat -> bool, retryAt: nat -> int, i: nat, j: nat)
    requires !Crashes(queue) && AllValid(queue)
    requires var d := Drain(queue, s, now);
             i < j < |Post(d, s, answers, retryAt, |d.ready|).requeue|
    ensures var d := Drain(queue, s, now);
            var r := Post(d, s, answers, retryAt, |d.ready|);
            r.requeue[i] != r.requeue[j]
  {
    var d := Drain(queue, s, now);
    var r := Post(d, s, answers, retryAt, |d.ready|);
    if r.requeue[i] == r.requeue[j] {
      ListedTwice(r.requeue, i, j);
      NoEchoes(queue, r.requeue[i]);
      ExactlyOneFate(queue, s, now, answers, retryAt, r.requeue[i]);
    }
  }

  lemma AttemptsBounded(o: Office, s: Settings, ev: Event, o': Office, id: nat)
    requires s.enable && !Crashes(o.queue) && ev.RunJob? && Tracked(o, s) && Happens(o, s, ev, o')
    ensures PostsOf(o'.posts, id) <= s.recurrent
  {
    var was := Notes(o.queue);
    PostedOnce(o.queue, s, ev.now, id);
    assert PostsOf(o.posts, id) <= s.recurrent;
    if k :| 0 <= k < |was| && was[k].id == id { assert Entitled(was[k], o.posts, s); }
  }

  lemma ValidRunKeepsTracked(o: Office, s: Settings, ev: Event, o': Office)
    requires s.enable && AllValid(o.queue) && ev.RunJob? && Tracked(o, s) && Happens(o, s, ev, o')
    ensures Tracked(o', s)
  {
    var r := RunLeaves(o.queue, s, ev.now, ev.answers, ev.retryAt);
    var was, left := Notes(o.queue), Notes(o'.queue);
    forall j | 0 <= j < |left| ensures left[j].id == was[r.requeue[j]].id && Entitled(left[j], o'.posts, s) {
      PutBackEntitled(o, s, ev, o', r, j);
    }
    forall i, j | 0 <= i < j < |left| ensures left[i].id != left[j].id {
      PutBackOnce(o.queue, s, ev.now, ev.answers, ev.retryAt, i, j);
    }
    forall id ensures PostsOf(o'.posts, id) <= s.recurrent { AttemptsBounded(o, s, ev, o', id); }
  }

  lemma {:induction false} CrashKeepsNotes(queue: seq<Item>)
    requires Crashes(queue)
    ensures Notes(queue[1..]) == Notes(queue)
  {
    var n := |queue| - 1;
    if n > 0 {
      CrashKeepsNotes(queue[..n]);
      assert queue[1..][..n - 1] == queue[..n][1..];
    }
  }

  // A job run that does nothing, ends on a malformed first item, or meets valid items only.
  predicate Clean(queue: seq<Item>, s: Settings) { !s.enable || Crashes(queue) || AllValid(queue) }

  // A run keeps attempts and tries in step if and only if no malformed item lies behind a valid one.
  lemma RunTrackedIff(o: Office, s: Settings, ev: Event, o': Office)
    requires s.recurrent > 0 && ev.RunJob? && Tracked(o, s) && Happens(o, s, ev, o')
    ensures Tracked(o', s) <==> Clean(o.queue, s)
  {
    if s.enable && !Crashes(o.queue) {
      if AllValid(o.queue) { ValidRunKeepsTracked(o, s, ev, o'); } else { EchoBreaks(o, s, ev, o'); }
    } else {
      if s.enable { CrashKeepsNotes(o.queue); }
      assert forall id :: PostsOf(o'.posts, id) == PostsOf(o.posts, id);
      forall i | 0 <= i < |Notes(o'.queue)| ensures Entitled(Notes(o'.queue)[i], o'.posts, s) {
        assert Entitled(Notes(o.queue)[i], o.posts, s);
      }
    }
  }

  lemma NotesArrive(queue: seq<Item>, item: Item)
    ensures Notes(queue + [item]) == if item.Valid? then Notes(queue) + [item.note] else Notes(queue)
  {
    assert (queue + [item])[..|queue|] == queue;
  }

  lemma NewNoteEntitled(notes: seq<Note>, n: Note, posts: map<nat, nat>, s: Settings)
    requires DistinctIds(notes) && (forall i | 0 <= i < |notes| :: Entitled(notes[i], posts, s) && notes[i].id != n.id)
    requires n.tries == 0 && n.id !in posts
    ensures DistinctIds(notes + [n])
    ensures forall m | m in notes + [n] :: Entitled(m, posts[n.id := 0], s)
  {
    forall m | m in notes + [n] ensures Entitled(m, posts[n.id := 0], s) {
      if m in notes { assert Entitled(m, posts, s); }
    }
  }

  lemma ArrivalKeepsTracked(o: Office, s: Settings, ev: Event, o': Office)
    requires !ev.RunJob? && Tracked(o, s) && Happens(o, s, ev, o')
    ensures Tracked(o', s)
  {
    if ev.Enqueue? {
      var n := Note(ev.id, ev.sendAt, 0);
      NotesArrive(o.queue, Valid(n));
      NewNoteEntitled(Notes(o.queue), n, o.posts, s);
      forall id ensures PostsOf(o'.posts, id) <= s.recurrent { assert PostsOf(o.posts, id) <= s.recurrent; }
    } else {
      NotesArrive(o.queue, Malformed);
    }
  }

  ghost predicate IsHistory(run: seq<Office>, s: Settings, evs: seq<Event>) {
    && |run| == |evs| + 1 && run[0] == Office([], map[])
    && forall i | 0 <= i < |evs| :: Happens(run[i], s, evs[i], run[i+1])
  }

  predicate CleanRuns(run: seq<Office>, s: Settings, evs: seq<Event>, i: nat)
    requires i <= |evs| < |run|
  {
    forall j | 0 <= j < i :: evs[j].RunJob? ==> Clean(run[j].queue, s)
  }

  // Over any sequence of new notifications, malformed items and job runs, every notification is
  // posted at most `recurrent` times, and what is queued has tries left, while the runs are clean.
  lemma {:induction false} PostedAtMostRecurrent(run: seq<Office>, s: Settings, evs: seq<Event>, i: nat)
    requires IsHistory(run, s, evs) && s.recurrent > 0 && i <= |evs| && CleanRuns(run, s, evs, i)
    ensures Tracked(run[i], s)
    ensures forall id :: PostsOf(run[i].posts, id) <= s.recurrent
  {
    if i > 0 {
      PostedAtMostRecurrent(run, s, evs, i - 1);
      if evs[i-1].RunJob? {
        RunTrackedIff(run[i-1], s, evs[i-1], run[i]);
      } else {
        ArrivalKeepsTracked(run[i-1], s, evs[i-1], run[i]);
      }
    }
  }

  // Attempts stay in step with tries throughout a history exactly if all its runs are clean.
  lemma TrackedThroughoutIff(run: seq<Office>, s: Settings, evs: seq<Event>)
    requires IsHistory(run, s, evs) && s.recurrent > 0
    ensures (forall i | 0 <= i < |run| :: Tracked(run[i], s)) <==> CleanRuns(run, s, evs, |evs|)
  {
    if CleanRuns(run, s, evs, |evs|) {
      forall i | 0 <= i < |run| ensures Tracked(run[i], s) { PostedAtMostRecurrent(run, s, evs, i); }
    }
    if forall i | 0 <= i < |run| :: Tracked(run[i], s) {
      forall j | 0 <= j < |evs| && evs[j].RunJob? ensures Clean(run[j].queue, s) {
        RunTrackedIff(run[j], s, evs[j], run[j+1]);
      }
    }
  }

  // A delivered notification followed by a malformed item is put back unchanged.
  lemma DeliveredAndPutBack(n: Note, s: Settings, now: int, answers: nat -> bool, retryAt: nat -> int)
    requires s.enable && Due(n, s, now) && answers(0)
    ensures After([Valid(n), Malformed], s, now, answers, retryAt) == [Valid(n)]
    ensures Drain([Valid(n), Malformed], s, now) == Drained([n], [0], [0])
  {
    var queue := [Valid(n), Malformed];
    assert queue[..1] == [Valid(n)] && queue[..1][..0] == [];
    assert Drain(queue[..1], s, now) == Drained([n], [0], []);
    var d := Drain(queue, s, now);
    assert d == Drained([n], [0], [0]);
    assert Post(d, s, answers, retryAt, 1) == d;
  }

  lemma MentionsExample(n: Note, id: nat)
    ensures Mentions([n], [0], id) == if n.id == id then 1 else 0
  {
    var listed: seq<nat> := [0];
    assert listed[..0] == [];
  }

  lemma PostedOnceMore(o: Office, s: Settings, job: Event)
    requires s.enable && s.recurrent > 0 && job.RunJob? && job.now == 0 && job.answers(0)
    requires o.queue == [Valid(Note(0, 0, 0)), Malformed] && o.posts.Keys == {0}
    ensures Happens(o, s, job, Office([Valid(Note(0, 0, 0))], map[0 := o.posts[0] + 1]))
  {
    var n, after := Note(0, 0, 0), map[0 := o.posts[0] + 1];
    DeliveredAndPutBack(n, s, 0, job.answers, job.retryAt);
    forall id ensures PostsOf(after, id) == PostsOf(o.posts, id) + PostedIn(o.queue, s, 0, id) {
      MentionsExample(n, id);
    }
  }

  // With a malformed item before each run, one notification is posted any number of times,
  // whatever `recurrent` is and although every post succeeds.
  lemma {:induction false} PostedWithoutBound(s: Settings, m: nat) returns (run: seq<Office>, evs: seq<Event>)
    requires s.enable && s.recurrent > 0
    ensures IsHistory(run, s, evs)
    ensures run[|evs|].queue == [Valid(Note(0, 0, 0))] && run[|evs|].posts == map[0 := m]
  {
    var n := Note(0, 0, 0);
    if m == 0 {
      evs, run := [Enqueue(0, 0)], [Office([], map[]), Office([Valid(n)], map[0 := 0])];
    } else {
      run, evs := PostedWithoutBound(s, m - 1);
      var job, before := RunJob(0, _ => true, _ => 0), Office([Valid(n), Malformed], run[|evs|].posts);
      PostedOnceMore(before, s, job);
      run, evs := run + [before, Office([Valid(n)], map[0 := m])], evs + [EnqueueMalformed, job];
    }
  }
}
