/** The metric functions of the trace parser, reading TRACE and NODE_INFO after the parse. */
module Metrics {
  import opened Wrappers
  import opened Faults
  import opened FieldExtractor
  import opened AddressDecoder
  import opened NodeTracker
  import opened TraceParser

  /** Bytes per packet assumed by the per-bit metrics. */
  const PACKET_SIZE: nat := 800

  /** `TRACE["RX/TX-MODE"].count(mode)`. */
  function CountMode(trace: seq<Record>, mode: Mode): (n: nat)
    ensures n <= |trace|
  {
    if |trace| == 0 then 0
    else CountMode(trace[..|trace| - 1], mode) + (if trace[|trace| - 1].mode == mode then 1 else 0)
  }

  /** `calc_tx_calls`. */
  function TxCalls(trace: seq<Record>): nat {
    CountMode(trace, TX)
  }

  /** `calc_rx_calls`. */
  function RxCalls(trace: seq<Record>): nat {
    CountMode(trace, RX)
  }

  /** Every record is a TX or an RX record. */
  lemma {:induction false} TxPlusRxIsAll(trace: seq<Record>)
    ensures TxCalls(trace) + RxCalls(trace) == |trace|
  {
    if |trace| > 0 {
      TxPlusRxIsAll(trace[..|trace| - 1]);
    }
  }

  /** `calc_sent_packets`: it counts every record, TX and RX alike. */
  method CalcSentPackets(trace: seq<Record>) returns (n: nat)
    ensures n == |trace|
    ensures n == TxCalls(trace) + RxCalls(trace)
  {
    n := 0;
    for i := 0 to |trace|
      invariant n == i
    {
      n := n + 1;
    }
    TxPlusRxIsAll(trace);
  }

  /** What one record adds to the set of delivered packets: its UniqueID when it is an RX
      record with `bad == 0` whose `DestAddress=` digits decode to its own node id plus one.
      Decoding faults (ValueError) when there are more than four digits. */
  function Delivery(r: Record): Result<Option<int>, Fault> {
    if r.mode == RX && !r.bad then
      match DestAddress(r.originalLine)
      case None => Ok(None)
      case Some(digits) =>
        var addr :- ConvertStringToInt(digits);
        Ok(if addr == r.nodeId + 1 then Some(r.uniqueId) else None)
    else Ok(None)
  }

  /** The `successful_deliveries` set after the whole trace; the first decoding fault aborts. */
  function Delivered(trace: seq<Record>): Result<set<int>, Fault> {
    if |trace| == 0 then Ok({})
    else
      var s :- Delivered(trace[..|trace| - 1]);
      var d :- Delivery(trace[|trace| - 1]);
      Ok(if d.Some? then s + {d.value} else s)
  }

  /** `calc_recv_packets`: the number of distinct delivered UniqueIDs. */
  function RecvPackets(trace: seq<Record>): Result<nat, Fault> {
    var s :- Delivered(trace);
    Ok(|s|)
  }

  /** Record `r` delivers UniqueID `u`. */
  ghost predicate Delivers(u: int, r: Record) {
    Delivery(r) == Ok(Some(u))
  }

  /** Some element of `s` satisfies `p`. */
  ghost predicate AnyOf<T>(s: seq<T>, p: T -> bool) {
    exists i :: 0 <= i < |s| && p(s[i])
  }

  lemma AnyOfStep<T>(s: seq<T>, p: T -> bool)
    requires |s| > 0
    ensures AnyOf(s, p) <==> AnyOf(s[..|s| - 1], p) || p(s[|s| - 1])
  {
    var init := s[..|s| - 1];
    if AnyOf(init, p) {
      var i :| 0 <= i < |init| && p(init[i]);
      assert s[i] == init[i];
    }
  }

  /** Every delivered UniqueID comes from some delivering record, and every delivering record's
      UniqueID is in the set. */
  lemma {:induction false} DeliveredMembers(trace: seq<Record>, u: int)
    requires Delivered(trace).Ok?
    ensures u in Delivered(trace).value <==> AnyOf(trace, r => Delivers(u, r))
  {
    if |trace| > 0 {
      DeliveredMembers(trace[..|trace| - 1], u);
      AnyOfStep(trace, r => Delivers(u, r));
    }
  }

  /** At most one delivered packet per RX record with `bad == 0`. */
  lemma {:induction false} DeliveredBound(trace: seq<Record>)
    requires Delivered(trace).Ok?
    ensures |Delivered(trace).value| <= CountRxOk(trace)
  {
    if |trace| > 0 {
      DeliveredBound(trace[..|trace| - 1]);
      var s := Delivered(trace[..|trace| - 1]).value;
      var d := Delivery(trace[|trace| - 1]).value;
      if d.Some? {
        assert |s + {d.value}| <= |s| + 1;
      }
    }
  }

  lemma {:induction false} RxOkBound(trace: seq<Record>)
    ensures CountRxOk(trace) <= |trace|
  {
    if |trace| > 0 {
      RxOkBound(trace[..|trace| - 1]);
    }
  }

  /** A decoding fault in a prefix is the result of the whole count. */
  lemma {:induction false} DeliveryFaultAborts(trace: seq<Record>, n: nat)
    requires n <= |trace| && Delivered(trace[..n]).Err?
    ensures Delivered(trace) == Delivered(trace[..n])
    decreases |trace| - n
  {
    if n < |trace| {
      assert trace[..n + 1][..n] == trace[..n];
      DeliveryFaultAborts(trace, n + 1);
    } else {
      assert trace[..n] == trace;
    }
  }

  /** The loop of `calc_recv_packets`. */
  method CalcRecvPackets(trace: seq<Record>) returns (res: Result<nat, Fault>)
    ensures res == RecvPackets(trace)
    ensures res.Ok? ==> res.value <= CountRxOk(trace)
  {
    var deliveries: set<int> := {};
    for i := 0 to |trace|
      invariant Delivered(trace[..i]) == Ok(deliveries)
    {
      assert trace[..i + 1][..i] == trace[..i];
      var r := trace[i];
      if r.mode == RX && !r.bad {
        var dest := DestAddress(r.originalLine);
        if dest.Some? {
          var addr := ConvertStringToInt(dest.value);
          if addr.Err? {
            DeliveryFaultAborts(trace, i + 1);
            return Err(addr.error);
          }
          if addr.value == r.nodeId + 1 {
            deliveries := deliveries + {r.uniqueId};
          }
        }
      }
    }
    assert trace[..|trace|] == trace;
    DeliveredBound(trace);
    res := Ok(|deliveries|);
  }

  /** `calc_pdr`: delivered over sent; ZeroDivisionError on an empty TRACE. */
  function Pdr(trace: seq<Record>): (r: Result<real, Fault>)
    ensures r.Ok? <==> |trace| > 0 && RecvPackets(trace).Ok?
    ensures |trace| == 0 ==> r == Err(ZeroDivisionError)
    ensures r.Ok? ==> 0.0 <= r.value <= 1.0
    ensures r.Ok? ==> r.value * (|trace| as real) == RecvPackets(trace).value as real
  {
    var recv :- RecvPackets(trace);
    var sent := |trace|;
    if sent == 0 then Err(ZeroDivisionError)
    else
      RecvAtMostSent(trace);
      RatioFacts(recv, sent);
      Ok(recv as real / sent as real)
  }

  lemma RecvAtMostSent(trace: seq<Record>)
    requires RecvPackets(trace).Ok?
    ensures RecvPackets(trace).value <= |trace|
  {
    DeliveredBound(trace);
    RxOkBound(trace);
  }

  lemma RatioFacts(a: nat, b: nat)
    requires 0 < b && a <= b
    ensures 0.0 <= a as real / b as real <= 1.0
    ensures (a as real / b as real) * (b as real) == a as real
  {
  }

  /** `calc_energy_consumption` as a value: RX, TX and idle energy over all of NODE_INFO. */
  function EnergyConsumption(nodes: NodeTable): real
    requires Valid(nodes)
  {
    SumEnergy(nodes.order, nodes.states)
  }

  /** The loop of `calc_energy_consumption`, in NODE_INFO's iteration order. */
  method CalcEnergyConsumption(nodes: NodeTable) returns (total: real)
    requires Valid(nodes)
    ensures total == EnergyConsumption(nodes)
  {
    total := 0.0;
    for i := 0 to |nodes.order|
      invariant total == SumEnergy(nodes.order[..i], nodes.states)
    {
      assert nodes.order[..i + 1][..i] == nodes.order[..i];
      assert nodes.order[i] in nodes.order;
      var n := nodes.states[nodes.order[i]];
      total := total + n.rxEnergy;
      total := total + n.txEnergy;
      total := total + n.idleEnergy;
    }
    assert nodes.order[..|nodes.order|] == nodes.order;
  }

  /** `calc_energy_per_bit`: total energy over delivered bits, 0.0 when nothing was delivered. */
  function EnergyPerBit(nodes: NodeTable, trace: seq<Record>): (r: Result<real, Fault>)
    requires Valid(nodes)
    ensures r.Ok? <==> RecvPackets(trace).Ok?
    ensures RecvPackets(trace) == Ok(0) ==> r == Ok(0.0)
    ensures r.Ok? && RecvPackets(trace).value > 0
            ==> r.value * ((RecvPackets(trace).value * PACKET_SIZE * 8) as real) == EnergyConsumption(nodes)
    ensures r.Ok? && EnergyConsumption(nodes) >= 0.0 ==> r.value >= 0.0
  {
    var total := EnergyConsumption(nodes);
    var recv :- RecvPackets(trace);
    if recv == 0 then Ok(0.0)
    else Ok(total / (recv * PACKET_SIZE * 8) as real)
  }

  /** `calc_total_collisions` as a value. */
  function TotalCollisions(nodes: NodeTable): int
    requires Valid(nodes)
  {
    SumCount(nodes.order, nodes.states, Collisions)
  }

  /** The loop of `calc_total_collisions`. */
  method CalcTotalCollisions(nodes: NodeTable) returns (count: int)
    requires Valid(nodes)
    ensures count == TotalCollisions(nodes)
  {
    count := 0;
    for i := 0 to |nodes.order|
      invariant count == SumCount(nodes.order[..i], nodes.states, Collisions)
    {
      assert nodes.order[..i + 1][..i] == nodes.order[..i];
      assert nodes.order[i] in nodes.order;
      count := count + nodes.states[nodes.order[i]].collisions;
    }
    assert nodes.order[..|nodes.order|] == nodes.order;
  }

  /** `calc_rx_nocol_calls` over the ids 0..n-1: KeyError at the first id without an entry. */
  function RxNocolUpTo(states: map<int, NodeState>, n: nat): (r: Result<int, Fault>)
    ensures r.Ok? <==> forall i :: 0 <= i < n ==> i in states
    ensures r.Ok? ==> Covers(Range(n), states) && r.value == SumCount(Range(n), states, ProcessedRx)
    ensures r.Err? ==> exists i :: 0 <= i < n && i !in states && r == Err(KeyError(i))
  {
    if n == 0 then Ok(0)
    else
      var prev :- RxNocolUpTo(states, n - 1);
      assert Range(n)[..n - 1] == Range(n - 1);
      if n - 1 in states then Ok(prev + states[n - 1].processedRx) else Err(KeyError(n - 1))
  }

  /** `calc_rx_nocol_calls(NODE_INFO)`: it indexes NODE_INFO by 0..len(NODE_INFO)-1. */
  function RxNocolCalls(nodes: NodeTable): Result<int, Fault> {
    RxNocolUpTo(nodes.states, |nodes.order|)
  }

  /** The loop of `calc_rx_nocol_calls`. */
  method CalcRxNocolCalls(nodes: NodeTable) returns (res: Result<int, Fault>)
    ensures res == RxNocolCalls(nodes)
  {
    var total := 0;
    for i := 0 to |nodes.order|
      invariant RxNocolUpTo(nodes.states, i) == Ok(total)
    {
      if i !in nodes.states {
        KeyErrorAborts(nodes.states, i + 1, |nodes.order|);
        return Err(KeyError(i));
      }
      total := total + nodes.states[i].processedRx;
    }
    res := Ok(total);
  }

  lemma {:induction false} KeyErrorAborts(states: map<int, NodeState>, n: nat, m: nat)
    requires n <= m && RxNocolUpTo(states, n).Err?
    ensures RxNocolUpTo(states, m) == RxNocolUpTo(states, n)
    decreases m - n
  {
    if n < m {
      KeyErrorAborts(states, n, m - 1);
    }
  }

  /** `calc_rx_nocol_calls` succeeds exactly when NODE_INFO's ids are 0..len-1 (an id created on
      demand outside that range leaves a gap and a KeyError); then it counts exactly the RX
      records with `bad == 0`. */
  lemma RxNocolCountsCleanReceptions(events: seq<string>, conv: Conversions)
    requires ParseAll(events, conv).Ok?
    ensures var p := ParseAll(events, conv).value;
      && (RxNocolCalls(p.nodes).Ok? <==> forall k :: k in p.nodes.states ==> 0 <= k < |p.nodes.order|)
      && (RxNocolCalls(p.nodes).Ok? ==> RxNocolCalls(p.nodes).value == CountRxOk(p.trace))
  {
    var p := ParseAll(events, conv).value;
    DenseIds(p.nodes);
    CountersMatchFlags(events, conv);
    if RxNocolCalls(p.nodes).Ok? {
      SumOverRange(p.nodes, ProcessedRx);
    }
  }

  /** `calc_throughput`: TX records times the first record's payload size; IndexError on an
      empty TRACE. */
  function Throughput(trace: seq<Record>): (r: Result<int, Fault>)
    ensures r.Ok? <==> |trace| > 0
    ensures r.Ok? && trace[0].payloadSize >= 0 ==> 0 <= r.value <= |trace| * trace[0].payloadSize
  {
    if |trace| == 0 then Err(IndexError)
    else Ok(TxCalls(trace) * trace[0].payloadSize)
  }

  /** RX records whose Error field is "True". */
  function RxErrors(trace: seq<Record>): (n: nat)
    ensures n <= RxCalls(trace)
  {
    if |trace| == 0 then 0
    else
      var r := trace[|trace| - 1];
      RxErrors(trace[..|trace| - 1]) + (if r.mode == RX && r.error == "True" then 1 else 0)
  }

  /** `detect_tx_conflicts`: its `tx_range` argument is unused and left out. */
  method DetectTxConflicts(trace: seq<Record>) returns (count: nat)
    ensures count == RxErrors(trace)
    ensures count <= RxCalls(trace)
  {
    count := 0;
    for i := 0 to |trace|
      invariant count == RxErrors(trace[..i])
    {
      assert trace[..i + 1][..i] == trace[..i];
      if trace[i].mode == RX && trace[i].error == "True" {
        count := count + 1;
      }
    }
    assert trace[..|trace|] == trace;
  }
}
