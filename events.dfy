/** What posting an event to the event bus does to a cancellable event: each
    subscriber, in the order the bus calls them, may call setCancelled. */
module Events {

  /** The cancelled flag after the subscribers' setCancelled calls `writes`,
      applied in order to a flag that starts as `initial`. */
  function Settled(initial: bool, writes: seq<bool>): (r: bool)
    ensures |writes| == 0 ==> r == initial
    ensures |writes| > 0 ==> r == writes[|writes| - 1]
    decreases |writes|
  {
    if |writes| == 0 then initial else Settled(writes[0], writes[1..])
  }

  /** Posting in two rounds is posting once with both rounds' calls. */
  lemma {:induction false} SettledAppend(initial: bool, a: seq<bool>, b: seq<bool>)
    ensures Settled(initial, a + b) == Settled(Settled(initial, a), b)
  {
    if |b| > 0 {
      assert (a + b)[|a + b| - 1] == b[|b| - 1];
    } else {
      assert a + b == a;
    }
  }
}
