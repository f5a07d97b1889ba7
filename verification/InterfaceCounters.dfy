// Resettable deltas over the byte counters of a network interface
// (node-main/pkg/stats/interface_counters.go).
module InterfaceCounters {
  import opened Prelude
  import opened Traffic

  // A pair of interface counters; nothing is assumed about their sign.
  datatype Pair = Pair(rx: int, tx: int) {
    function At(d: Direction): int { if d == Downlink then rx else tx }
    predicate Below(other: Pair) { rx <= other.rx && tx <= other.tx }
  }

  datatype Reading = Reading(now: Pair, reset: bool)

  // The baseline a reading is measured against: the stored one, unless there is none yet or a
  // counter has fallen below it.
  function Reference(base: Option<Pair>, now: Pair): (r: Pair)
    ensures r.Below(now)
    ensures base.Some? && base.value.Below(now) ==> r == base.value
    ensures r == now || (base.Some? && r == base.value)
  {
    if base.None? || !base.value.Below(now) then now else base.value
  }

  function BaseAfter(base: Option<Pair>, r: Reading): Pair {
    if r.reset then r.now else Reference(base, r.now)
  }

  class InterfaceCountersTracker {
    var baseRx: int
    var baseTx: int
    var baseSet: bool

    function Base(): Option<Pair>
      reads this
    {
      if baseSet then Some(Pair(baseRx, baseTx)) else None
    }

    constructor ()
      ensures Base() == None
    {
      baseRx, baseTx, baseSet := 0, 0, false;
    }

    method Delta(currentRx: int, currentTx: int, reset: bool) returns (deltaRx: int, deltaTx: int)
      modifies this
      ensures deltaRx >= 0 && deltaTx >= 0
      ensures var now := Pair(currentRx, currentTx);
              && deltaRx == currentRx - Reference(old(Base()), now).rx
              && deltaTx == currentTx - Reference(old(Base()), now).tx
              && Base() == Some(BaseAfter(old(Base()), Reading(now, reset)))
    {
      if !baseSet {
        baseRx, baseTx, baseSet := currentRx, currentTx, true;
      }
      if currentRx < baseRx || currentTx < baseTx {
        baseRx, baseTx := currentRx, currentTx;
      }
      deltaRx, deltaTx := currentRx - baseRx, currentTx - baseTx;
      if reset {
        baseRx, baseTx := currentRx, currentTx;
      }
    }
  }

  // ---- whole runs of a new tracker ----

  function BaseOf(run: seq<Reading>): Option<Pair> {
    if run == [] then None else Some(BaseAfter(BaseOf(run[..|run| - 1]), run[|run| - 1]))
  }

  // What the final reading of a run returns.
  function FinalDelta(run: seq<Reading>, d: Direction): int
    requires run != []
  {
    var r := run[|run| - 1];
    r.now.At(d) - Reference(BaseOf(run[..|run| - 1]), r.now).At(d)
  }

  // The sum of what the resetting readings returned.
  function Booked(run: seq<Reading>, d: Direction): int {
    if run == [] then 0 else Booked(run[..|run| - 1], d) + if run[|run| - 1].reset then FinalDelta(run, d) else 0
  }

  // The bytes by which the counter rose from one reading to the next.
  function Growth(run: seq<Reading>, d: Direction): nat {
    if |run| <= 1 then 0
    else
      var step := run[|run| - 1].now.At(d) - run[|run| - 2].now.At(d);
      Growth(run[..|run| - 1], d) + if step > 0 then step else 0
  }

  ghost predicate Monotone(run: seq<Reading>) {
    forall i, j :: 0 <= i < j < |run| ==> run[i].now.Below(run[j].now)
  }

  // The bytes above the baseline after a run: those no reset has taken yet.
  function Open(run: seq<Reading>, d: Direction): int
    requires run != []
  {
    run[|run| - 1].now.At(d) - BaseOf(run).value.At(d)
  }

  lemma OpenStep(run: seq<Reading>, d: Direction)
    requires run != []
    ensures Open(run, d) >= 0 && FinalDelta(run, d) >= 0
    ensures Booked(run, d) + Open(run, d) == Booked(run[..|run| - 1], d) + FinalDelta(run, d)
  {
    assert Reference(BaseOf(run[..|run| - 1]), run[|run| - 1].now).Below(run[|run| - 1].now);
  }

  lemma {:induction false} AtMostGrowth(run: seq<Reading>, d: Direction)
    requires run != []
    ensures Booked(run, d) + Open(run, d) <= Growth(run, d)
  {
    OpenStep(run, d);
    if |run| > 1 {
      AtMostGrowth(run[..|run| - 1], d);
      OpenStep(run[..|run| - 1], d);
    }
  }

  lemma {:induction false} ExactlyGrowth(run: seq<Reading>, d: Direction)
    requires run != [] && Monotone(run)
    ensures BaseOf(run).value.Below(run[|run| - 1].now)
    ensures Booked(run, d) + Open(run, d) == run[|run| - 1].now.At(d) - run[0].now.At(d)
  {
    OpenStep(run, d);
    if |run| > 1 {
      var front := run[..|run| - 1];
      ExactlyGrowth(front, d);
      OpenStep(front, d);
      assert run[|run| - 2].now.Below(run[|run| - 1].now);
    }
  }

  // Whatever readings come, with counters falling at will and plain readings interleaved, the
  // resetting readings and the final one never return more than the counter grew.
  lemma NeverMoreThanGrowth(run: seq<Reading>, d: Direction)
    requires run != []
    ensures 0 <= Booked(run[..|run| - 1], d) + FinalDelta(run, d) <= Growth(run, d)
  {
    BookedIsNonNegative(run[..|run| - 1], d);
    OpenStep(run, d);
    AtMostGrowth(run, d);
  }

  lemma {:induction false} BookedIsNonNegative(run: seq<Reading>, d: Direction)
    ensures Booked(run, d) >= 0
  {
    if run != [] {
      BookedIsNonNegative(run[..|run| - 1], d);
      OpenStep(run, d);
    }
  }

  // When no counter falls, the resetting deltas and the final one add up to the last counter
  // less the first.
  lemma Telescopes(run: seq<Reading>, d: Direction)
    requires run != [] && Monotone(run)
    ensures Booked(run[..|run| - 1], d) + FinalDelta(run, d) == run[|run| - 1].now.At(d) - run[0].now.At(d)
  {
    OpenStep(run, d);
    ExactlyGrowth(run, d);
  }
}
