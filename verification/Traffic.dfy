// Byte counters in the two directions of a peer.
module Traffic {

  // Kernel counters never go negative; their width is not modelled.
  datatype Counters = Counters(rx: nat, tx: nat)

  const ZERO := Counters(0, 0)

  function Plus(a: Counters, b: Counters): Counters { Counters(a.rx + b.rx, a.tx + b.tx) }

  predicate AtMost(a: Counters, b: Counters) { a.rx <= b.rx && a.tx <= b.tx }

  function Lesser(a: Counters, b: Counters): Counters {
    Counters(if a.rx <= b.rx then a.rx else b.rx, if a.tx <= b.tx then a.tx else b.tx)
  }

  datatype Direction = Uplink | Downlink

  // Uplink is what the node sent, downlink what it received.
  function Along(c: Counters, d: Direction): nat { if d == Uplink then c.tx else c.rx }
}
