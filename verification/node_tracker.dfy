/** The per-node state `parse_fields` keeps in NODE_INFO: busy-until time, collision and
    reception counters, and energy accumulators, with the collision and energy rules applied on
    every TX and RX event. */
module NodeTracker {
  const TX_POWER: real := 60.0      // watts
  const RX_POWER: real := 0.158     // watts
  const IDLE_POWER: real := 0.158   // watts
  const LINK_SPEED: real := 80000.0 // bits per second
  const NS_PER_SECOND: real := 1000000000.0
  /** NODE_INFO starts with an entry for every id in 0..PREALLOCATED-1. */
  const PREALLOCATED: nat := 300

  datatype Mode = TX | RX

  /** One NODE_INFO entry. `lastTs` is LAST_TS, the instant the node's radio becomes free. */
  datatype NodeState = NodeState(
    processedRx: int,
    rxEnergy: real,
    txEnergy: real,
    idleEnergy: real,
    collisions: int,
    lastTs: real)

  /** NODE_VALUES: the entry a node starts with. */
  const FRESH: NodeState := NodeState(0, 0.0, 0.0, 0.0, 0, 0.0)

  /** `(header_size * 8) / LINK_SPEED`: seconds on air for a payload of `size` bytes. */
  function AirTime(size: int): (t: real)
    ensures size >= 0 ==> t >= 0.0
  {
    (size * 8) as real / LINK_SPEED
  }

  /** No energy field of `n` and not its busy-until time is below that of `m`. */
  predicate Dominates(n: NodeState, m: NodeState) {
    && n.lastTs >= m.lastTs
    && n.rxEnergy >= m.rxEnergy
    && n.txEnergy >= m.txEnergy
    && n.idleEnergy >= m.idleEnergy
  }

  function NodeEnergy(n: NodeState): real {
    n.rxEnergy + n.txEnergy + n.idleEnergy
  }

  /** The new entry of a node and the `bad` flag recorded for the event. */
  datatype Outcome = Outcome(node: NodeState, bad: bool)

  /** The node-state update of one TX or RX event at time `ts` (nanoseconds) with a payload of
      `size` bytes. A TX collides when it starts before the node is free; an RX, whose time
      stamp marks the end of reception, collides when `ts - air time` is before it. As in the
      source, the air time in seconds is compared with and added to nanosecond time stamps. */
  function Update(n: NodeState, mode: Mode, ts: real, size: int): (o: Outcome)
    ensures o.bad <==> (if mode == TX then ts < n.lastTs else ts - AirTime(size) < n.lastTs)
    ensures o.node.collisions == n.collisions + (if o.bad then 1 else 0)
    ensures o.node.processedRx == n.processedRx + (if mode == RX && !o.bad then 1 else 0)
    // a transmission always spends its energy, collision or not; a reception never does
    ensures o.node.txEnergy == n.txEnergy + (if mode == TX then AirTime(size) * (TX_POWER + IDLE_POWER) else 0.0)
    // a clean event makes the node busy until the end of a transmission or of a reception,
    // charges idle power for the gap since it was last free, and a reception charges RX power
    ensures !o.bad ==> o.node.lastTs == (if mode == TX then ts + AirTime(size) else ts)
    ensures !o.bad ==> o.node.idleEnergy == n.idleEnergy + ((ts - n.lastTs) / NS_PER_SECOND) * IDLE_POWER
    ensures o.node.rxEnergy == n.rxEnergy + (if mode == RX && !o.bad then AirTime(size) * RX_POWER else 0.0)
    ensures o.bad ==> o.node.(txEnergy := n.txEnergy, collisions := n.collisions) == n
    ensures size >= 0 ==> Dominates(o.node, n)
  {
    var air := AirTime(size);
    match mode
    case TX =>
      var spent := n.(txEnergy := n.txEnergy + air * TX_POWER + air * IDLE_POWER);
      if ts >= n.lastTs then
        Outcome(spent.(idleEnergy := spent.idleEnergy + ((ts - n.lastTs) / NS_PER_SECOND) * IDLE_POWER,
                       lastTs := ts + air), false)
      else
        Outcome(spent.(collisions := spent.collisions + 1), true)
    case RX =>
      if ts - air >= n.lastTs then
        Outcome(n.(processedRx := n.processedRx + 1,
                   idleEnergy := n.idleEnergy + ((ts - n.lastTs) / NS_PER_SECOND) * IDLE_POWER,
                   lastTs := ts,
                   rxEnergy := n.rxEnergy + air * RX_POWER), false)
      else
        Outcome(n.(collisions := n.collisions + 1), true)
  }

  /** A clean transmission keeps the node busy for its air time: a second transmission that
      starts before the first one ends is flagged and adds exactly one collision, while one
      that starts at or after the end is clean. */
  lemma OverlappingTxCollides(n: NodeState, ts: real, size: int, ts2: real, size2: int)
    requires ts >= n.lastTs
    ensures var first := Update(n, TX, ts, size);
      && !first.bad
      && (Update(first.node, TX, ts2, size2).bad <==> ts2 < ts + AirTime(size))
      && Update(first.node, TX, ts2, size2).node.collisions
         == n.collisions + (if ts2 < ts + AirTime(size) then 1 else 0)
  {
  }

  /** NODE_INFO: the entries in dictionary (insertion) order, and the entries by node id. */
  datatype NodeTable = NodeTable(order: seq<int>, states: map<int, NodeState>)

  ghost predicate Distinct(s: seq<int>) {
    forall i, j :: 0 <= i < j < |s| ==> s[i] != s[j]
  }

  /** Every id appears once in `order`, and `order` lists exactly the keys of `states`. */
  ghost predicate Valid(t: NodeTable) {
    && Distinct(t.order)
    && (forall k :: k in t.states <==> k in t.order)
    && Covers(t.order, t.states)
  }

  function Range(n: nat): (r: seq<int>)
    ensures |r| == n && forall i :: 0 <= i < n ==> r[i] == i
  {
    seq(n, i => i)
  }

  /** NODE_INFO before the first event: ids 0..299, all fresh. */
  function InitialTable(): (t: NodeTable)
    ensures Valid(t) && t.order == Range(PREALLOCATED)
    ensures forall k :: k in t.states ==> t.states[k] == FRESH
  {
    NodeTable(Range(PREALLOCATED), map i | i in Range(PREALLOCATED) :: FRESH)
  }

  /** `ensure_node_exists` followed by the update of that node's entry. */
  function ApplyEvent(t: NodeTable, mode: Mode, id: int, ts: real, size: int): (r: (NodeTable, bool))
    requires Valid(t)
    ensures Valid(r.0)
    ensures r.0.order == if id in t.states then t.order else t.order + [id]
    ensures r.0.states.Keys == t.states.Keys + {id}
    // only the event's own node changes
    ensures forall k :: k in t.states && k != id ==> r.0.states[k] == t.states[k]
    ensures Update(if id in t.states then t.states[id] else FRESH, mode, ts, size) == Outcome(r.0.states[id], r.1)
  {
    var t1 := if id in t.states then t else NodeTable(t.order + [id], t.states[id := FRESH]);
    var o := Update(t1.states[id], mode, ts, size);
    (NodeTable(t1.order, t1.states[id := o.node]), o.bad)
  }

  /** The counters NODE_INFO sums over. */
  datatype Counter = ProcessedRx | Collisions

  function CountOf(n: NodeState, c: Counter): int {
    match c
    case ProcessedRx => n.processedRx
    case Collisions => n.collisions
  }

  /** Every id in `keys` has an entry in `m`. */
  ghost predicate Covers(keys: seq<int>, m: map<int, NodeState>) {
    forall i :: 0 <= i < |keys| ==> keys[i] in m
  }

  /** The counter `c` summed over the entries named by `keys`, in that order. */
  function SumCount(keys: seq<int>, m: map<int, NodeState>, c: Counter): int
    requires Covers(keys, m)
  {
    if |keys| == 0 then 0
    else SumCount(keys[..|keys| - 1], m, c) + CountOf(m[keys[|keys| - 1]], c)
  }

  /** RX_ENERGY + TX_ENERGY + IDLE_ENERGY summed over the entries named by `keys`. */
  function SumEnergy(keys: seq<int>, m: map<int, NodeState>): real
    requires Covers(keys, m)
  {
    if |keys| == 0 then 0.0
    else SumEnergy(keys[..|keys| - 1], m) + NodeEnergy(m[keys[|keys| - 1]])
  }

  /** Entries outside `keys` do not affect the sum. */
  lemma {:induction false} SumCountFrame(keys: seq<int>, m: map<int, NodeState>, m': map<int, NodeState>, c: Counter)
    requires Covers(keys, m) && Covers(keys, m')
    requires forall i :: 0 <= i < |keys| ==> m[keys[i]] == m'[keys[i]]
    ensures SumCount(keys, m, c) == SumCount(keys, m', c)
  {
    if |keys| > 0 {
      SumCountFrame(keys[..|keys| - 1], m, m', c);
    }
  }

  /** Changing one entry named once in `keys` changes the sum by the change in that entry. */
  lemma {:induction false} SumCountUpdate(keys: seq<int>, m: map<int, NodeState>, k: int, v: NodeState, c: Counter)
    requires Distinct(keys) && k in keys
    requires Covers(keys, m)
    ensures SumCount(keys, m[k := v], c) == SumCount(keys, m, c) + CountOf(v, c) - CountOf(m[k], c)
  {
    var init := keys[..|keys| - 1];
    if keys[|keys| - 1] == k {
      assert k !in init;
      SumCountFrame(init, m, m[k := v], c);
    } else {
      SumCountUpdate(init, m, k, v, c);
    }
  }

  /** The sum of energies does not decrease when no entry named in `keys` loses energy. */
  lemma {:induction false} SumEnergyMonotone(keys: seq<int>, m: map<int, NodeState>, m': map<int, NodeState>)
    requires Covers(keys, m) && Covers(keys, m')
    requires forall i :: 0 <= i < |keys| ==> NodeEnergy(m'[keys[i]]) >= NodeEnergy(m[keys[i]])
    ensures SumEnergy(keys, m') >= SumEnergy(keys, m)
  {
    if |keys| > 0 {
      SumEnergyMonotone(keys[..|keys| - 1], m, m');
    }
  }

  /** Sums over fresh entries are zero. */
  lemma {:induction false} SumsOfFresh(keys: seq<int>, m: map<int, NodeState>, c: Counter)
    requires Covers(keys, m)
    requires forall i :: 0 <= i < |keys| ==> m[keys[i]] == FRESH
    ensures SumCount(keys, m, c) == 0 && SumEnergy(keys, m) == 0.0
  {
    if |keys| > 0 {
      SumsOfFresh(keys[..|keys| - 1], m, c);
    }
  }

  /** An event changes a counter sum by the change in its own node's counter (a node it
      creates starts from FRESH). */
  lemma ApplyEventSum(t: NodeTable, mode: Mode, id: int, ts: real, size: int, c: Counter)
    requires Valid(t)
    ensures var r := ApplyEvent(t, mode, id, ts, size);
      SumCount(r.0.order, r.0.states, c)
      == SumCount(t.order, t.states, c) + CountOf(r.0.states[id], c)
         - CountOf(if id in t.states then t.states[id] else FRESH, c)
  {
    var r := ApplyEvent(t, mode, id, ts, size);
    if id in t.states {
      assert r.0.states == t.states[id := r.0.states[id]];
      SumCountUpdate(t.order, t.states, id, r.0.states[id], c);
    } else {
      assert r.0.order[..|t.order|] == t.order;
      SumCountFrame(t.order, t.states, r.0.states, c);
    }
  }

  /** Each event adds exactly its own `bad` flag to the collision total and its clean RX to
      the processed total. */
  lemma ApplyEventCounts(t: NodeTable, mode: Mode, id: int, ts: real, size: int)
    requires Valid(t)
    ensures var r := ApplyEvent(t, mode, id, ts, size);
      && SumCount(r.0.order, r.0.states, Collisions) == SumCount(t.order, t.states, Collisions) + (if r.1 then 1 else 0)
      && SumCount(r.0.order, r.0.states, ProcessedRx)
         == SumCount(t.order, t.states, ProcessedRx) + (if mode == RX && !r.1 then 1 else 0)
  {
    var r := ApplyEvent(t, mode, id, ts, size);
    var before := if id in t.states then t.states[id] else FRESH;
    var o := Update(before, mode, ts, size);
    assert o.node == r.0.states[id] && o.bad == r.1;
    ApplyEventSum(t, mode, id, ts, size, Collisions);
    ApplyEventSum(t, mode, id, ts, size, ProcessedRx);
  }

  /** With a non-negative payload, no node's busy-until time or energy decreases, and neither
      does the total energy. */
  lemma ApplyEventGrows(t: NodeTable, mode: Mode, id: int, ts: real, size: int)
    requires Valid(t) && size >= 0
    ensures var r := ApplyEvent(t, mode, id, ts, size);
      && (forall k :: k in t.states ==> Dominates(r.0.states[k], t.states[k]))
      && SumEnergy(r.0.order, r.0.states) >= SumEnergy(t.order, t.states)
  {
    var r := ApplyEvent(t, mode, id, ts, size);
    if id in t.states {
      SumEnergyMonotone(t.order, t.states, r.0.states);
    } else {
      assert r.0.order[..|t.order|] == t.order;
      SumEnergyMonotone(t.order, t.states, r.0.states);
      assert NodeEnergy(r.0.states[id]) >= NodeEnergy(FRESH);
    }
  }

  /** The ids in a sequence, as a set. */
  function Ids(s: seq<int>): set<int> {
    set x | x in s
  }

  lemma ValidIds(t: NodeTable)
    requires Valid(t)
    ensures Ids(t.order) == t.states.Keys
  {
    forall x ensures x in Ids(t.order) <==> x in t.states.Keys {
      assert x in t.states <==> x in t.order;
    }
  }

  lemma {:induction false} DistinctSize(s: seq<int>)
    requires Distinct(s)
    ensures |Ids(s)| == |s|
  {
    if |s| > 0 {
      var init := s[..|s| - 1];
      DistinctSize(init);
      assert Ids(s) == Ids(init) + {s[|s| - 1]};
    }
  }

  lemma SubsetSameSize(a: set<int>, b: set<int>)
    requires a <= b && |a| == |b|
    ensures a == b
  {
    var d := b - a;
    assert b == a + d;
    assert a * d == {};
    assert |a + d| + |a * d| == |a| + |d|;
  }

  /** In a sequence without repetitions every element occurs once. */
  lemma {:induction false} DistinctOccursOnce(s: seq<int>, x: int)
    requires Distinct(s)
    ensures multiset(s)[x] == if x in s then 1 else 0
  {
    if |s| > 0 {
      var init := s[..|s| - 1];
      DistinctOccursOnce(init, x);
      assert s == init + [s[|s| - 1]];
    }
  }

  /** Removing the entry at position `j` removes its counter from the sum. */
  lemma {:induction false} SumCountRemove(keys: seq<int>, j: nat, m: map<int, NodeState>, c: Counter)
    requires j < |keys| && Covers(keys, m)
    ensures Covers(keys[..j] + keys[j + 1..], m)
    ensures SumCount(keys, m, c) == SumCount(keys[..j] + keys[j + 1..], m, c) + CountOf(m[keys[j]], c)
  {
    var rest := keys[..j] + keys[j + 1..];
    assert |rest| == |keys| - 1;
    forall i | 0 <= i < |rest| ensures rest[i] in m {
      if i < j {
        assert rest[i] == keys[..j][i];
      } else {
        assert rest[i] == keys[j + 1..][i - j];
      }
    }
    if j < |keys| - 1 {
      var init := keys[..|keys| - 1];
      SumCountRemove(init, j, m, c);
      var last := keys[|keys| - 1];
      assert rest[|rest| - 1] == last;
      assert init[..j] + init[j + 1..] == rest[..|rest| - 1];
      assert SumCount(keys, m, c) == SumCount(init, m, c) + CountOf(m[last], c);
      assert SumCount(rest, m, c) == SumCount(rest[..|rest| - 1], m, c) + CountOf(m[last], c);
    } else {
      assert rest == keys[..|keys| - 1];
    }
  }

  /** A position of `x` in `s`. */
  function IndexOf(s: seq<int>, x: int): (j: nat)
    requires x in multiset(s)
    ensures j < |s| && s[j] == x
  {
    if s[0] == x then 0
    else
      assert s == [s[0]] + s[1..];
      1 + IndexOf(s[1..], x)
  }

  lemma CoversPermutation(a: seq<int>, b: seq<int>, m: map<int, NodeState>)
    requires multiset(a) == multiset(b) && Covers(a, m)
    ensures Covers(b, m)
  {
    forall i | 0 <= i < |b| ensures b[i] in m {
      assert b[i] in multiset(a);
      var k :| 0 <= k < |a| && a[k] == b[i];
    }
  }

  /** Takes the last entry of `a` out of `b`. */
  lemma RemoveMatching(a: seq<int>, b: seq<int>, m: map<int, NodeState>, c: Counter) returns (rest: seq<int>)
    requires |a| > 0 && multiset(a) == multiset(b) && Covers(a, m) && Covers(b, m)
    ensures multiset(a[..|a| - 1]) == multiset(rest)
    ensures Covers(a[..|a| - 1], m) && Covers(rest, m)
    ensures SumCount(b, m, c) == SumCount(rest, m, c) + CountOf(m[a[|a| - 1]], c)
  {
    var x := a[|a| - 1];
    var init := a[..|a| - 1];
    assert multiset(init) == multiset(a) - multiset{x} by {
      assert a == init + [x];
    }
    var j := IndexOf(b, x);
    rest := b[..j] + b[j + 1..];
    assert multiset(rest) == multiset(b) - multiset{x} by {
      assert b == b[..j] + [x] + b[j + 1..];
    }
    SumCountRemove(b, j, m, c);
    forall i | 0 <= i < |init| ensures init[i] in m {
      assert init[i] == a[i];
    }
  }

  /** The sum of a counter does not depend on the order of the entries. */
  lemma {:induction false} SumCountPermutation(a: seq<int>, b: seq<int>, m: map<int, NodeState>, c: Counter)
    requires multiset(a) == multiset(b) && Covers(a, m) && Covers(b, m)
    ensures SumCount(a, m, c) == SumCount(b, m, c)
    decreases |a|
  {
    if |a| == 0 {
      assert |b| == |multiset(b)| == 0;
    } else {
      var rest := RemoveMatching(a, b, m, c);
      SumCountPermutation(a[..|a| - 1], rest, m, c);
    }
  }

  /** Summing over ids 0..n-1 or over a table's entries in insertion order gives the same result
      when the table's ids are exactly 0..n-1. */
  lemma SumOverRange(t: NodeTable, c: Counter)
    requires Valid(t) && forall i :: 0 <= i < |t.order| ==> i in t.states
    ensures Covers(Range(|t.order|), t.states)
    ensures t.states.Keys == Ids(Range(|t.order|))
    ensures SumCount(Range(|t.order|), t.states, c) == SumCount(t.order, t.states, c)
  {
    var n := |t.order|;
    var r := Range(n);
    assert Distinct(r);
    DistinctSize(r);
    DistinctSize(t.order);
    ValidIds(t);
    assert Ids(r) <= Ids(t.order);
    SubsetSameSize(Ids(r), Ids(t.order));
    forall x ensures multiset(r)[x] == multiset(t.order)[x] {
      DistinctOccursOnce(r, x);
      DistinctOccursOnce(t.order, x);
    }
    assert multiset(r) == multiset(t.order);
    CoversPermutation(t.order, r, t.states);
    SumCountPermutation(t.order, r, t.states, c);
  }

  /** Ids 0..n-1 are all present exactly when no id lies outside 0..n-1, n being the size of
      the table. */
  lemma DenseIds(t: NodeTable)
    requires Valid(t)
    ensures (forall i :: 0 <= i < |t.order| ==> i in t.states)
            <==> (forall k :: k in t.states ==> 0 <= k < |t.order|)
  {
    var r := Range(|t.order|);
    assert Distinct(r);
    DistinctSize(r);
    DistinctSize(t.order);
    ValidIds(t);
    if forall i :: 0 <= i < |t.order| ==> i in t.states {
      assert Ids(r) <= t.states.Keys;
      SubsetSameSize(Ids(r), t.states.Keys);
    }
    if forall k :: k in t.states ==> 0 <= k < |t.order| {
      forall k | k in t.states ensures k in Ids(r) {
        assert r[k] == k;
      }
      SubsetSameSize(t.states.Keys, Ids(r));
      forall i | 0 <= i < |t.order| ensures i in t.states {
        assert r[i] == i && i in Ids(r);
      }
    }
  }
}
