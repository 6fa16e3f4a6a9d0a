/** The two metrics that scan TRACE against the receiver's own MAC address: the average
    end-to-end delay and the 10-second "instantaneous" throughput windows. */
module Windows {
  import opened Wrappers
  import opened Faults
  import opened NodeTracker
  import opened TraceParser
  import opened Metrics

  /** `int(MAC_DST_ADDR[i]) == NODE_ID[i] + 1`: the record is addressed to its own node.
      `int()` raises ValueError on a value that is not a number. */
  function IsOwn(r: Record, conv: Conversions): (res: Result<bool, Fault>)
    ensures res.Err? <==> conv.toInt(r.macDstAddr).None?
    ensures res.Ok? ==> (res.value <==> conv.toInt(r.macDstAddr) == Some(r.nodeId + 1))
  {
    var addr :- Int(conv, r.macDstAddr);
    Ok(addr == r.nodeId + 1)
  }

  /** The test reads only MAC_DST_ADDR and NODE_ID, never RX/TX-MODE: a TX record addressed
      to its own node passes it just as an RX record does. */
  lemma OwnIgnoresMode(r: Record, m: Mode, conv: Conversions)
    ensures IsOwn(r.(mode := m), conv) == IsOwn(r, conv)
  {
  }

  // ---------------------------------------------------------------- calc_delay

  /** The samples `(TS[i] - TS[j]) / 1e9` contributed by the records j < m that are TX records
      carrying record i's UniqueID, in index order. */
  function SendDelays(trace: seq<Record>, i: nat, m: nat): (r: seq<real>)
    requires i < |trace| && m <= |trace|
    ensures |r| <= CountMode(trace[..m], TX)
  {
    if m == 0 then []
    else
      assert trace[..m][..m - 1] == trace[..m - 1];
      var j := m - 1;
      SendDelays(trace, i, j)
      + (if trace[j].uniqueId == trace[i].uniqueId && trace[j].mode == TX
         then [(trace[i].ts - trace[j].ts) / NS_PER_SECOND] else [])
  }

  /** Every sample comes from a TX record before m carrying record i's UniqueID. */
  lemma {:induction false} SendDelaysSound(trace: seq<Record>, i: nat, m: nat)
    requires i < |trace| && m <= |trace|
    ensures forall x :: x in SendDelays(trace, i, m) ==>
      exists j :: 0 <= j < m && trace[j].mode == TX && trace[j].uniqueId == trace[i].uniqueId
                  && x == (trace[i].ts - trace[j].ts) / NS_PER_SECOND
  {
    if m > 0 {
      SendDelaysSound(trace, i, m - 1);
    }
  }

  lemma SendDelaysStep(trace: seq<Record>, i: nat, j: nat)
    requires i < |trace| && j < |trace|
    ensures SendDelays(trace, i, j + 1) == SendDelays(trace, i, j)
      + (if trace[j].uniqueId == trace[i].uniqueId && trace[j].mode == TX
         then [(trace[i].ts - trace[j].ts) / NS_PER_SECOND] else [])
  {
  }

  /** A matching TX record's sample is among the samples. */
  lemma {:induction false} SendDelaysComplete(trace: seq<Record>, i: nat, m: nat, j: nat)
    requires i < |trace| && j < m <= |trace|
    requires trace[j].mode == TX && trace[j].uniqueId == trace[i].uniqueId
    ensures (trace[i].ts - trace[j].ts) / NS_PER_SECOND in SendDelays(trace, i, m)
  {
    if j < m - 1 {
      SendDelaysComplete(trace, i, m - 1, j);
    }
  }

  /** The indices j < m of the TX records carrying record i's UniqueID. */
  ghost function TxCopies(trace: seq<Record>, i: nat, m: nat): set<int>
    requires i < |trace| && m <= |trace|
  {
    set j | 0 <= j < m && trace[j].mode == TX && trace[j].uniqueId == trace[i].uniqueId
  }

  /** One sample per matching TX record: the inner loop appends exactly as many samples as
      there are TX records carrying record i's UniqueID. */
  lemma {:induction false} SendDelaysCount(trace: seq<Record>, i: nat, m: nat)
    requires i < |trace| && m <= |trace|
    ensures |SendDelays(trace, i, m)| == |TxCopies(trace, i, m)|
  {
    if m == 0 {
      assert TxCopies(trace, i, 0) == {};
    } else {
      SendDelaysCount(trace, i, m - 1);
      SendDelaysStep(trace, i, m - 1);
      var j := m - 1;
      if trace[j].mode == TX && trace[j].uniqueId == trace[i].uniqueId {
        assert TxCopies(trace, i, m) == TxCopies(trace, i, j) + {j};
        assert j !in TxCopies(trace, i, j);
      } else {
        assert TxCopies(trace, i, m) == TxCopies(trace, i, j);
      }
    }
  }

  /** The `delays` and `processed_ids` lists of `calc_delay` after the records before n. */
  datatype DelayState = DelayState(delays: seq<real>, processed: set<int>)

  function DelayRun(trace: seq<Record>, n: nat, conv: Conversions): Result<DelayState, Fault>
    requires n <= |trace|
  {
    if n == 0 then Ok(DelayState([], {}))
    else
      var s :- DelayRun(trace, n - 1, conv);
      var i := n - 1;
      var own :- IsOwn(trace[i], conv);
      if own && trace[i].uniqueId !in s.processed then
        Ok(DelayState(s.delays + SendDelays(trace, i, |trace|), s.processed + {trace[i].uniqueId}))
      else Ok(s)
  }

  /** Record i is addressed to its own node. */
  ghost predicate OwnAt(trace: seq<Record>, i: int, conv: Conversions) {
    0 <= i < |trace| && IsOwn(trace[i], conv) == Ok(true)
  }

  /** `processed_ids` holds exactly the UniqueIDs of the own-addressed records seen so far,
      and every sample pairs an own-addressed record with a TX record of the same UniqueID. */
  lemma {:induction false} DelayRunFacts(trace: seq<Record>, n: nat, conv: Conversions)
    requires n <= |trace| && DelayRun(trace, n, conv).Ok?
    ensures forall u :: u in DelayRun(trace, n, conv).value.processed <==>
      exists i :: 0 <= i < n && OwnAt(trace, i, conv) && trace[i].uniqueId == u
    ensures forall x :: x in DelayRun(trace, n, conv).value.delays ==>
      exists i, j :: 0 <= i < n && 0 <= j < |trace| && OwnAt(trace, i, conv)
        && trace[j].mode == TX && trace[j].uniqueId == trace[i].uniqueId
        && x == (trace[i].ts - trace[j].ts) / NS_PER_SECOND
  {
    if n > 0 {
      DelayRunFacts(trace, n - 1, conv);
      SendDelaysSound(trace, n - 1, |trace|);
    }
  }

  /** Record i is the first own-addressed record carrying its UniqueID. */
  ghost predicate FirstOwnOfId(trace: seq<Record>, i: int, conv: Conversions) {
    OwnAt(trace, i, conv)
    && forall i' :: 0 <= i' < i && OwnAt(trace, i', conv) ==> trace[i'].uniqueId != trace[i].uniqueId
  }

  /** The run only ever appends samples. */
  lemma DelayRunExtends(trace: seq<Record>, n: nat, conv: Conversions)
    requires n < |trace| && DelayRun(trace, n + 1, conv).Ok?
    ensures DelayRun(trace, n, conv).Ok?
    ensures forall x :: x in DelayRun(trace, n, conv).value.delays ==> x in DelayRun(trace, n + 1, conv).value.delays
  {
    DelayRunStep(trace, n, conv);
  }

  /** The first own-addressed record i of a UniqueID contributes the sample against every TX
      record j with that UniqueID, earlier or later than i. */
  lemma {:induction false} DelayRunComplete(trace: seq<Record>, n: nat, conv: Conversions, i: nat, j: nat)
    requires n <= |trace| && DelayRun(trace, n, conv).Ok?
    requires i < n && FirstOwnOfId(trace, i, conv) && j < |trace|
    requires trace[j].mode == TX && trace[j].uniqueId == trace[i].uniqueId
    ensures (trace[i].ts - trace[j].ts) / NS_PER_SECOND in DelayRun(trace, n, conv).value.delays
  {
    DelayRunExtends(trace, n - 1, conv);
    if i < n - 1 {
      DelayRunComplete(trace, n - 1, conv, i, j);
    } else {
      var s := DelayRun(trace, n - 1, conv).value;
      DelayRunFacts(trace, n - 1, conv);
      assert trace[i].uniqueId !in s.processed;
      DelayRunStep(trace, i, conv);
      SendDelaysComplete(trace, i, |trace|, j);
    }
  }

  /** An own-addressed TX record is credited as a delivery although it is no reception: when
      it is the first own-addressed record of its UniqueID, it pairs with itself and adds a
      zero delay. */
  lemma OwnTxAddsZeroDelay(trace: seq<Record>, i: nat, conv: Conversions)
    requires DelayRun(trace, |trace|, conv).Ok?
    requires i < |trace| && FirstOwnOfId(trace, i, conv) && trace[i].mode == TX
    ensures 0.0 in DelayRun(trace, |trace|, conv).value.delays
  {
    DelayRunComplete(trace, |trace|, conv, i, i);
  }

  function Sum(xs: seq<real>): real {
    if |xs| == 0 then 0.0 else Sum(xs[..|xs| - 1]) + xs[|xs| - 1]
  }

  /** `numpy.array(xs).mean()`; None stands for the NaN of an empty array. */
  function Mean(xs: seq<real>): (m: Option<real>)
    ensures m.None? <==> |xs| == 0
    ensures m.Some? ==> m.value * (|xs| as real) == Sum(xs)
  {
    if |xs| == 0 then None else Some(Sum(xs) / |xs| as real)
  }

  /** `calc_delay`: the mean of all samples; ValueError when some MAC_DST_ADDR is not a number. */
  function AverageDelay(trace: seq<Record>, conv: Conversions): Result<Option<real>, Fault> {
    var s :- DelayRun(trace, |trace|, conv);
    Ok(Mean(s.delays))
  }

  lemma DelayRunStep(trace: seq<Record>, i: nat, conv: Conversions)
    requires i < |trace|
    ensures DelayRun(trace, i + 1, conv) ==
      match DelayRun(trace, i, conv)
      case Err(e) => Err(e)
      case Ok(s) =>
        match IsOwn(trace[i], conv)
        case Err(e) => Err(e)
        case Ok(own) =>
          if own && trace[i].uniqueId !in s.processed then
            Ok(DelayState(s.delays + SendDelays(trace, i, |trace|), s.processed + {trace[i].uniqueId}))
          else Ok(s)
  {
  }

  /** A DelayRun fault in a prefix is the fault of the whole run. */
  lemma {:induction false} DelayFaultAborts(trace: seq<Record>, n: nat, m: nat, conv: Conversions)
    requires n <= m <= |trace| && DelayRun(trace, n, conv).Err?
    ensures DelayRun(trace, m, conv) == DelayRun(trace, n, conv)
    decreases m - n
  {
    if n < m {
      DelayFaultAborts(trace, n, m - 1, conv);
    }
  }

  /** The inner loop of `calc_delay`: the samples of record i against every TX record. */
  method CollectDelays(trace: seq<Record>, i: nat) returns (found: seq<real>)
    requires i < |trace|
    ensures found == SendDelays(trace, i, |trace|)
  {
    found := [];
    for j := 0 to |trace|
      invariant found == SendDelays(trace, i, j)
    {
      SendDelaysStep(trace, i, j);
      if trace[i].uniqueId == trace[j].uniqueId && trace[j].mode == TX {
        found := found + [(trace[i].ts - trace[j].ts) / NS_PER_SECOND];
      }
    }
  }

  /** The nested loops of `calc_delay`. */
  method CalcDelay(trace: seq<Record>, conv: Conversions) returns (res: Result<Option<real>, Fault>)
    ensures res == AverageDelay(trace, conv)
  {
    var delays: seq<real> := [];
    var processed: set<int> := {};
    for i := 0 to |trace|
      invariant DelayRun(trace, i, conv) == Ok(DelayState(delays, processed))
    {
      var own := IsOwn(trace[i], conv);
      DelayRunStep(trace, i, conv);
      if own.Err? {
        DelayFaultAborts(trace, i + 1, |trace|, conv);
        return Err(own.error);
      }
      if own.value && trace[i].uniqueId !in processed {
        var found := CollectDelays(trace, i);
        delays := delays + found;
        processed := processed + {trace[i].uniqueId};
      }
    }
    res := Ok(Mean(delays));
  }

  /** A record with the fields the delay and throughput metrics read, and neutral values elsewhere. */
  function Rec(mode: Mode, ts: real, nodeId: int, uniqueId: int, macDst: string): Record {
    Record(false, mode, ts, nodeId, 0.0, 0.0, 0.0, "", 0, "", uniqueId, "", 50, "", macDst, "")
  }

  /** One TX at 0 ns from node 0 and its reception at 5e9 ns by node 1 (MAC address 2):
      the average delay is 5 seconds. */
  lemma SingleExchangeDelay(conv: Conversions)
    requires conv.toInt("2") == Some(2)
    ensures AverageDelay([Rec(TX, 0.0, 0, 7, "2"), Rec(RX, 5000000000.0, 1, 7, "2")], conv) == Ok(Some(5.0))
  {
    var trace := [Rec(TX, 0.0, 0, 7, "2"), Rec(RX, 5000000000.0, 1, 7, "2")];
    assert IsOwn(trace[0], conv) == Ok(false);
    assert IsOwn(trace[1], conv) == Ok(true);
    assert DelayRun(trace, 0, conv) == Ok(DelayState([], {}));
    assert DelayRun(trace, 1, conv) == Ok(DelayState([], {}));
    assert SendDelays(trace, 1, 0) == [];
    assert SendDelays(trace, 1, 1) == [5.0];
    assert SendDelays(trace, 1, |trace|) == [5.0];
    var s1 := DelayRun(trace, 1, conv).value;
    assert 7 !in s1.processed && trace[1].uniqueId == 7;
    assert s1.delays + SendDelays(trace, 1, |trace|) == [5.0];
    assert DelayRun(trace, 2, conv).value.delays == [5.0];
    assert [5.0][..0] == [];
    assert Sum([5.0]) == 5.0;
  }

  // ------------------------------------------------- calc_isntantaneous_throughput

  /** A window closes once a record is this many nanoseconds past the window start. */
  const WINDOW_NS: real := 10000000000.0

  /** The loop state of `calc_isntantaneous_throughput`: `start_ts`, `num_recv_packets`,
      `processed_ids`, the three output lists, `previous_average` and `k`. `counts` holds the
      `num_recv_packets` each closed window had, the numerator of its throughput sample. */
  datatype Window = Window(
    start: real,
    num: int,
    processed: set<int>,
    counts: seq<int>,
    timestamps: seq<real>,
    throughputs: seq<real>,
    averages: seq<real>,
    prevAvg: real,
    k: int)

  /** The first own-addressed record at or after `from`; ValueError if a record before it has a
      MAC_DST_ADDR that is not a number. */
  function FirstOwn(trace: seq<Record>, from: nat, conv: Conversions): (r: Result<Option<nat>, Fault>)
    requires from <= |trace|
    ensures r.Ok? && r.value.Some? ==>
      (from <= r.value.value && OwnAt(trace, r.value.value, conv)
       && forall i :: from <= i < r.value.value ==> IsOwn(trace[i], conv) == Ok(false))
    ensures r.Ok? && r.value.None? ==> forall i :: from <= i < |trace| ==> IsOwn(trace[i], conv) == Ok(false)
    ensures r.Err? ==> exists i :: from <= i < |trace| && IsOwn(trace[i], conv).Err?
    decreases |trace| - from
  {
    if from == |trace| then Ok(None)
    else
      var own :- IsOwn(trace[from], conv);
      if own then Ok(Some(from)) else FirstOwn(trace, from + 1, conv)
  }

  /** The state after the first loop: the first own-addressed record opens the window with one
      packet, and `processed_ids` stays empty. */
  function Opening(trace: seq<Record>, conv: Conversions): Result<Window, Fault> {
    var first :- FirstOwn(trace, 0, conv);
    match first
    case None => Ok(Window(0.0, 0, {}, [], [], [], [], 0.0, 1))
    case Some(f) => Ok(Window(trace[f].ts, 1, {}, [], [], [], [], 0.0, 1))
  }

  /** A TX record addressed to its own node opens the first throughput window, counted as a
      received packet, although it is no reception. */
  lemma OwnTxOpensWindow(trace: seq<Record>, conv: Conversions)
    requires |trace| > 0 && trace[0].mode == TX && OwnAt(trace, 0, conv)
    ensures Opening(trace, conv) == Ok(Window(trace[0].ts, 1, {}, [], [], [], [], 0.0, 1))
  {
  }

  /** `k` is a valid divisor for the running mean. */
  predicate Ready(w: Window) {
    w.k >= 1
  }

  /** The three output lists have one entry per closed window, the moving average is the running
      mean of the samples, samples are non-negative and positive exactly for a non-empty
      window, and window ends lie at least 10 seconds apart, the last one being the open
      window's start. */
  ghost predicate WellFormed(w: Window) {
    && w.k >= 1 && w.num >= 0
    && |w.counts| == |w.timestamps| == |w.throughputs| == |w.averages| == w.k - 1
    && w.prevAvg == (if w.k == 1 then 0.0 else w.averages[w.k - 2])
    && RunningMeans(w.throughputs, w.averages)
    && SignsMatch(w.counts, w.throughputs)
    && (|w.timestamps| > 0 ==> w.start == w.timestamps[|w.timestamps| - 1] * NS_PER_SECOND)
    && Gaps(w.timestamps)
  }

  /** Each average is the mean of the samples up to and including its own. */
  ghost predicate RunningMeans(tp: seq<real>, avgs: seq<real>)
    requires |avgs| <= |tp|
  {
    forall m :: 0 <= m < |avgs| ==> avgs[m] == Sum(tp[..m + 1]) / (m + 1) as real
  }

  /** Counts and samples are non-negative, and a sample is positive exactly when its count is. */
  ghost predicate SignsMatch(counts: seq<int>, tp: seq<real>)
    requires |counts| <= |tp|
  {
    forall m :: 0 <= m < |counts| ==> counts[m] >= 0 && tp[m] >= 0.0 && (tp[m] > 0.0 <==> counts[m] > 0)
  }

  /** Any two window ends lie at least 10 seconds apart. */
  ghost predicate Gaps(ts: seq<real>) {
    forall m, n :: 0 <= m < n < |ts| ==> ts[n] - ts[m] >= 10.0
  }

  /** `prev + (x - prev) / k` is the mean of k values when prev is the mean of the first k - 1. */
  lemma RunningMean(s: real, x: real, k: nat)
    requires k >= 1
    ensures (if k == 1 then 0.0 else s / (k - 1) as real) + (x - (if k == 1 then 0.0 else s / (k - 1) as real)) / k as real
            == (if k == 1 then x else (s + x) / k as real)
  {
    if k > 1 {
      var a := s / (k - 1) as real;
      assert a * (k - 1) as real == s;
      var b := a + (x - a) / k as real;
      assert b * k as real == a * k as real + (x - a);
      assert b * k as real == s + x;
    }
  }

  lemma SumAppend(xs: seq<real>, x: real)
    ensures Sum(xs + [x]) == Sum(xs) + x
  {
    assert (xs + [x])[..|xs|] == xs;
  }

  /** `(num_recv_packets * PACKET_SIZE * 8) / (elapsed / 1e9)`: bits per second over a window
      `elapsed` nanoseconds long. */
  function Sample(num: int, elapsed: real): real
    requires elapsed >= WINDOW_NS
  {
    (num * PACKET_SIZE * 8) as real / (elapsed / NS_PER_SECOND)
  }

  /** `previous_average + (current_throughput - previous_average) / k`. */
  function NextAverage(prev: real, x: real, k: int): real
    requires k >= 1
  {
    prev + (x - prev) / k as real
  }

  /** Closing the window at timestamp `ts`: emit the sample, update the running mean, and
      reopen at `ts` with one packet; `processed` is the updated `processed_ids`. */
  function Close(w: Window, ts: real, processed: set<int>): (v: Window)
    requires Ready(w) && ts - w.start >= WINDOW_NS
    ensures Ready(v) && v.k == w.k + 1
    ensures v.start == ts && v.num == 1 && v.processed == processed && v.counts == w.counts + [w.num]
    ensures v.timestamps == w.timestamps + [ts / NS_PER_SECOND]
  {
    var x := Sample(w.num, ts - w.start);
    var avg := NextAverage(w.prevAvg, x, w.k);
    Window(ts, 1, processed, w.counts + [w.num], w.timestamps + [ts / NS_PER_SECOND],
           w.throughputs + [x], w.averages + [avg], avg, w.k + 1)
  }

  lemma CloseKeepsWellFormed(w: Window, ts: real, processed: set<int>)
    requires WellFormed(w) && ts - w.start >= WINDOW_NS
    ensures WellFormed(Close(w, ts, processed))
  {
    var x := Sample(w.num, ts - w.start);
    var avg := NextAverage(w.prevAvg, x, w.k);
    var v := Close(w, ts, processed);
    assert v.throughputs == w.throughputs + [x] && v.averages == w.averages + [avg] && v.prevAvg == avg;
    CloseKeepsMeans(w.throughputs, w.averages, w.prevAvg, w.k, x, avg);
    SampleSign(w.num, ts - w.start, x);
    SignsAppend(w.counts, w.throughputs, w.num, x);
    if |w.timestamps| > 0 {
      GapAtLeastTen(w.timestamps[|w.timestamps| - 1], w.start, ts);
    }
    GapsAppend(w.timestamps, ts / NS_PER_SECOND);
  }

  /** Appending a count and its sample keeps each sample's sign tied to its count. */
  lemma SignsAppend(counts: seq<int>, tp: seq<real>, c: int, x: real)
    requires |counts| == |tp| && SignsMatch(counts, tp)
    requires c >= 0 && x >= 0.0 && (x > 0.0 <==> c > 0)
    ensures SignsMatch(counts + [c], tp + [x])
  {
    var cs, xs := counts + [c], tp + [x];
    forall m | 0 <= m < |cs| ensures cs[m] >= 0 && xs[m] >= 0.0 && (xs[m] > 0.0 <==> cs[m] > 0) {
      if m < |counts| {
        assert cs[m] == counts[m] && xs[m] == tp[m];
      }
    }
  }

  /** Appending a timestamp at least 10 seconds after the last keeps all gaps at least 10. */
  lemma GapsAppend(ts: seq<real>, t: real)
    requires Gaps(ts)
    requires |ts| > 0 ==> t - ts[|ts| - 1] >= 10.0
    ensures Gaps(ts + [t])
  {
    var all := ts + [t];
    forall m, n | 0 <= m < n < |all| ensures all[n] - all[m] >= 10.0 {
      if n == |ts| && m < |ts| - 1 {
        assert ts[|ts| - 1] - ts[m] >= 10.0;
      }
    }
  }

  /** A sample is non-negative, and positive exactly when the window holds a packet. */
  lemma SampleSign(num: int, elapsed: real, x: real)
    requires num >= 0 && elapsed >= WINDOW_NS
    requires x == Sample(num, elapsed)
    ensures x >= 0.0 && (x > 0.0 <==> num > 0)
  {
    var e := elapsed / NS_PER_SECOND;
    assert e >= 10.0;
    assert x * e == (num * PACKET_SIZE * 8) as real;
  }

  lemma GapAtLeastTen(last: real, start: real, ts: real)
    requires start == last * NS_PER_SECOND && ts - start >= WINDOW_NS
    ensures ts / NS_PER_SECOND - last >= 10.0
  {
  }

  /** Appending a sample and its running-mean update keeps every average the mean of its prefix. */
  lemma CloseKeepsMeans(tp: seq<real>, avgs: seq<real>, prev: real, k: int, x: real, avg: real)
    requires k >= 1 && |tp| == |avgs| == k - 1
    requires prev == (if k == 1 then 0.0 else avgs[k - 2])
    requires RunningMeans(tp, avgs)
    requires avg == NextAverage(prev, x, k)
    ensures RunningMeans(tp + [x], avgs + [avg])
  {
    var n := |tp|;
    SumAppend(tp, x);
    assert (tp + [x])[..n + 1] == tp + [x];
    if n > 0 {
      assert tp[..n] == tp;
      assert prev == Sum(tp) / (k - 1) as real;
    }
    RunningMean(Sum(tp), x, k);
    forall m | 0 <= m < n + 1
      ensures (avgs + [avg])[m] == Sum((tp + [x])[..m + 1]) / (m + 1) as real
    {
      if m < n {
        assert (tp + [x])[..m + 1] == tp[..m + 1];
      }
    }
  }

  /** One iteration of the second loop. */
  function WinStep(w: Window, r: Record, conv: Conversions): (res: Result<Window, Fault>)
    requires Ready(w)
    ensures res.Err? <==> IsOwn(r, conv).Err?
    ensures res.Ok? ==> Ready(res.value)
  {
    var own :- IsOwn(r, conv);
    if own && r.uniqueId !in w.processed then
      var processed := w.processed + {r.uniqueId};
      if r.ts - w.start < WINDOW_NS then Ok(w.(processed := processed, num := w.num + 1))
      else Ok(Close(w, r.ts, processed))
    else Ok(w)
  }

  /** The second loop over the records at indices 1 .. n-1. */
  function Fold(trace: seq<Record>, w: Window, n: nat, conv: Conversions): (res: Result<Window, Fault>)
    requires Ready(w) && (n <= 1 || n <= |trace|)
    ensures res.Ok? ==> Ready(res.value)
  {
    if n <= 1 then Ok(w)
    else
      var v :- Fold(trace, w, n - 1, conv);
      WinStep(v, trace[n - 1], conv)
  }

  /** `calc_isntantaneous_throughput`: the final loop state, whose `timestamps`, `throughputs`
      and `averages` are the three returned lists. */
  function InstantaneousThroughput(trace: seq<Record>, conv: Conversions): Result<Window, Fault>
  {
    var w :- Opening(trace, conv);
    Fold(trace, w, |trace|, conv)
  }

  /** One iteration keeps the window well formed. */
  lemma WinStepKeepsWellFormed(w: Window, r: Record, conv: Conversions)
    requires WellFormed(w) && WinStep(w, r, conv).Ok?
    ensures WellFormed(WinStep(w, r, conv).value)
  {
    if IsOwn(r, conv) == Ok(true) && r.uniqueId !in w.processed && r.ts - w.start >= WINDOW_NS {
      CloseKeepsWellFormed(w, r.ts, w.processed + {r.uniqueId});
    }
  }

  lemma {:induction false} FoldKeepsWellFormed(trace: seq<Record>, w: Window, n: nat, conv: Conversions)
    requires WellFormed(w) && (n <= 1 || n <= |trace|) && Fold(trace, w, n, conv).Ok?
    ensures WellFormed(Fold(trace, w, n, conv).value)
  {
    if n > 1 {
      FoldKeepsWellFormed(trace, w, n - 1, conv);
      WinStepKeepsWellFormed(Fold(trace, w, n - 1, conv).value, trace[n - 1], conv);
    }
  }

  /** The three lists have equal length, the moving average is the running mean of the samples
      computed independently, any two window ends lie at least 10 seconds apart, and no
      sample is negative. */
  lemma InstantaneousThroughputShape(trace: seq<Record>, conv: Conversions)
    requires InstantaneousThroughput(trace, conv).Ok?
    ensures var w := InstantaneousThroughput(trace, conv).value;
      && |w.timestamps| == |w.throughputs| == |w.averages|
      && (forall m :: 0 <= m < |w.averages| ==> Mean(w.throughputs[..m + 1]) == Some(w.averages[m]))
      && (forall m, n :: 0 <= m < n < |w.timestamps| ==> w.timestamps[n] - w.timestamps[m] >= 10.0)
      && (forall m :: 0 <= m < |w.throughputs| ==> w.throughputs[m] >= 0.0)
  {
    FoldKeepsWellFormed(trace, Opening(trace, conv).value, |trace|, conv);
  }

  /** The three outcomes of one iteration of the second loop, spelled out field by field. */
  lemma StepSkips(w: Window, r: Record, conv: Conversions)
    requires Ready(w) && IsOwn(r, conv).Ok? && !(IsOwn(r, conv).value && r.uniqueId !in w.processed)
    ensures WinStep(w, r, conv) == Ok(w)
  {
  }

  lemma StepCounts(w: Window, r: Record, conv: Conversions)
    requires Ready(w) && IsOwn(r, conv) == Ok(true) && r.uniqueId !in w.processed
    requires r.ts - w.start < WINDOW_NS
    ensures WinStep(w, r, conv)
            == Ok(Window(w.start, w.num + 1, w.processed + {r.uniqueId}, w.counts, w.timestamps,
                         w.throughputs, w.averages, w.prevAvg, w.k))
  {
  }

  lemma StepCloses(w: Window, r: Record, conv: Conversions, x: real, avg: real)
    requires Ready(w) && IsOwn(r, conv) == Ok(true) && r.uniqueId !in w.processed
    requires r.ts - w.start >= WINDOW_NS
    requires x == Sample(w.num, r.ts - w.start)
    requires avg == NextAverage(w.prevAvg, x, w.k)
    ensures WinStep(w, r, conv)
            == Ok(Window(r.ts, 1, w.processed + {r.uniqueId}, w.counts + [w.num],
                         w.timestamps + [r.ts / NS_PER_SECOND], w.throughputs + [x],
                         w.averages + [avg], avg, w.k + 1))
  {
  }

  lemma FoldStep(trace: seq<Record>, w0: Window, i: nat, conv: Conversions, w: Window)
    requires Ready(w0) && 1 <= i < |trace| && Fold(trace, w0, i, conv) == Ok(w)
    ensures Ready(w) && Fold(trace, w0, i + 1, conv) == WinStep(w, trace[i], conv)
  {
  }

  /** A fault in the second loop is the result of the whole loop. */
  lemma {:induction false} FoldFaultAborts(trace: seq<Record>, w: Window, n: nat, m: nat, conv: Conversions)
    requires Ready(w) && n <= m <= |trace| && Fold(trace, w, n, conv).Err?
    ensures Fold(trace, w, m, conv) == Fold(trace, w, n, conv)
    decreases m - n
  {
    if n < m {
      FoldFaultAborts(trace, w, n, m - 1, conv);
    }
  }

  /** The two loops of `calc_isntantaneous_throughput`. */
  method CalcInstantaneousThroughput(trace: seq<Record>, conv: Conversions)
    returns (res: Result<(seq<real>, seq<real>, seq<real>), Fault>)
    ensures match InstantaneousThroughput(trace, conv)
      case Ok(w) => res == Ok((w.timestamps, w.throughputs, w.averages))
      case Err(e) => res == Err(e)
  {
    var processed: set<int> := {};
    var start := 0.0;
    var num := 0;
    var i := 0;
    while i < |trace|
      invariant i <= |trace|
      invariant FirstOwn(trace, 0, conv) == FirstOwn(trace, i, conv)
      invariant start == 0.0 && num == 0 && processed == {}
    {
      var own := IsOwn(trace[i], conv);
      if own.Err? {
        return Err(own.error);
      }
      if own.value && trace[i].uniqueId !in processed {
        start := trace[i].ts;
        num := num + 1;
        break;
      }
      i := i + 1;
    }
    assert Opening(trace, conv) == Ok(Window(start, num, {}, [], [], [], [], 0.0, 1));
    res := ScanWindows(trace, conv, start, num);
  }

  /** The second loop of `calc_isntantaneous_throughput`, from the window the first loop opened. */
  method ScanWindows(trace: seq<Record>, conv: Conversions, start0: real, num0: int)
    returns (res: Result<(seq<real>, seq<real>, seq<real>), Fault>)
    requires num0 >= 0
    ensures match Fold(trace, Window(start0, num0, {}, [], [], [], [], 0.0, 1), |trace|, conv)
      case Ok(w) => res == Ok((w.timestamps, w.throughputs, w.averages))
      case Err(e) => res == Err(e)
  {
    var processed: set<int> := {};
    var start := start0;
    var num := num0;
    var timestamps: seq<real> := [];
    var throughputs: seq<real> := [];
    var averages: seq<real> := [];
    var prevAvg := 0.0;
    var k := 1;
    ghost var counts: seq<int> := [];
    ghost var w0 := Window(start, num, {}, [], [], [], [], 0.0, 1);
    ghost var w := w0;
    var i := 1;
    while i < |trace|
      invariant 1 <= i && (i == 1 || i <= |trace|)
      invariant Ready(w0)
      invariant Fold(trace, w0, i, conv) == Ok(w)
      invariant start == w.start && num == w.num && processed == w.processed && counts == w.counts
      invariant timestamps == w.timestamps && throughputs == w.throughputs && averages == w.averages
      invariant prevAvg == w.prevAvg && k == w.k
    {
      var own := IsOwn(trace[i], conv);
      if own.Err? {
        FoldFaultAborts(trace, w0, i + 1, |trace|, conv);
        return Err(own.error);
      }
      FoldStep(trace, w0, i, conv, w);
      if own.value && trace[i].uniqueId !in processed {
        processed := processed + {trace[i].uniqueId};
        if trace[i].ts - start < WINDOW_NS {
          StepCounts(w, trace[i], conv);
          num := num + 1;
        } else {
          timestamps := timestamps + [trace[i].ts / NS_PER_SECOND];
          var current := Sample(num, trace[i].ts - start);
          throughputs := throughputs + [current];
          var average := NextAverage(prevAvg, current, k);
          StepCloses(w, trace[i], conv, current, average);
          averages := averages + [average];
          prevAvg := average;
          k := k + 1;
          counts := counts + [num];
          start := trace[i].ts;
          num := 1;
        }
      } else {
        StepSkips(w, trace[i], conv);
      }
      w := WinStep(w, trace[i], conv).value;
      i := i + 1;
    }
    if |trace| == 0 {
      assert Fold(trace, w0, |trace|, conv) == Fold(trace, w0, i, conv);
    } else {
      assert i == |trace|;
    }
    res := Ok((timestamps, throughputs, averages));
  }

  /** The open window holds a packet and so did every closed one. */
  ghost predicate Started(w: Window) {
    w.num >= 1 && forall m :: 0 <= m < |w.counts| ==> w.counts[m] >= 1
  }

  lemma {:induction false} FoldKeepsStarted(trace: seq<Record>, w: Window, n: nat, conv: Conversions)
    requires Ready(w) && Started(w) && (n <= 1 || n <= |trace|) && Fold(trace, w, n, conv).Ok?
    ensures Started(Fold(trace, w, n, conv).value)
  {
    if n > 1 {
      FoldKeepsStarted(trace, w, n - 1, conv);
    }
  }

  /** Without own-addressed records the second loop changes nothing. */
  lemma {:induction false} FoldWithoutOwn(trace: seq<Record>, w: Window, n: nat, conv: Conversions)
    requires Ready(w) && (n <= 1 || n <= |trace|)
    requires forall i :: 1 <= i < n ==> IsOwn(trace[i], conv) == Ok(false)
    ensures Fold(trace, w, n, conv) == Ok(w)
  {
    if n > 1 {
      FoldWithoutOwn(trace, w, n - 1, conv);
    }
  }

  /** Every throughput sample is positive: a window only closes after it received a packet. */
  lemma ThroughputsPositive(trace: seq<Record>, conv: Conversions)
    requires InstantaneousThroughput(trace, conv).Ok?
    ensures forall m :: 0 <= m < |InstantaneousThroughput(trace, conv).value.throughputs| ==>
      InstantaneousThroughput(trace, conv).value.throughputs[m] > 0.0
  {
    var w0 := Opening(trace, conv).value;
    FoldKeepsWellFormed(trace, w0, |trace|, conv);
    if FirstOwn(trace, 0, conv).value.None? {
      FoldWithoutOwn(trace, w0, |trace|, conv);
    } else {
      FoldKeepsStarted(trace, w0, |trace|, conv);
    }
  }

  function SumInts(xs: seq<int>): int {
    if |xs| == 0 then 0 else SumInts(xs[..|xs| - 1]) + xs[|xs| - 1]
  }

  /** The UniqueIDs of the own-addressed records at indices from .. n-1. */
  ghost function OwnUids(trace: seq<Record>, from: nat, n: nat, conv: Conversions): set<int> {
    set i | from <= i < n && OwnAt(trace, i, conv) :: trace[i].uniqueId
  }

  lemma OwnUidsStep(trace: seq<Record>, from: nat, n: nat, conv: Conversions)
    requires from < n <= |trace|
    ensures OwnUids(trace, from, n, conv)
            == OwnUids(trace, from, n - 1, conv) + (if OwnAt(trace, n - 1, conv) then {trace[n - 1].uniqueId} else {})
  {
  }

  lemma OwnUidsSkip(trace: seq<Record>, n: nat, conv: Conversions)
    requires 1 <= n <= |trace|
    ensures OwnUids(trace, 0, n, conv)
            == OwnUids(trace, 1, n, conv) + (if OwnAt(trace, 0, conv) then {trace[0].uniqueId} else {})
  {
  }

  /** One iteration marks the record's UniqueID when it is own-addressed, and the packets
      counted grow with the processed set. */
  lemma StepCountsProcessed(w: Window, r: Record, conv: Conversions, c: int)
    requires Ready(w) && WinStep(w, r, conv).Ok?
    requires SumInts(w.counts) + w.num == |w.processed| + c
    ensures var v := WinStep(w, r, conv).value;
      && v.processed == w.processed + (if IsOwn(r, conv) == Ok(true) then {r.uniqueId} else {})
      && SumInts(v.counts) + v.num == |v.processed| + c
  {
    if IsOwn(r, conv) == Ok(true) && r.uniqueId !in w.processed {
      if r.ts - w.start < WINDOW_NS {
        StepCounts(w, r, conv);
      } else {
        var x := Sample(w.num, r.ts - w.start);
        StepCloses(w, r, conv, x, NextAverage(w.prevAvg, x, w.k));
        assert (w.counts + [w.num])[..|w.counts|] == w.counts;
      }
    } else {
      StepSkips(w, r, conv);
    }
  }

  /** The second loop marks exactly the own-addressed UniqueIDs of records 1 .. n-1 as processed. */
  lemma {:induction false} FoldProcessed(trace: seq<Record>, w: Window, n: nat, conv: Conversions)
    requires Ready(w) && n <= |trace| && Fold(trace, w, n, conv).Ok?
    ensures Fold(trace, w, n, conv).value.processed == w.processed + OwnUids(trace, 1, n, conv)
  {
    if n > 1 {
      assert Fold(trace, w, n - 1, conv).Ok?;
      var v := Fold(trace, w, n - 1, conv).value;
      FoldStep(trace, w, n - 1, conv, v);
      FoldProcessed(trace, w, n - 1, conv);
      OwnUidsStep(trace, 1, n, conv);
      StepCountsProcessed(v, trace[n - 1], conv, SumInts(v.counts) + v.num - |v.processed|);
    } else {
      assert OwnUids(trace, 1, n, conv) == {};
    }
  }

  /** Every UniqueID the second loop newly marks as processed adds one packet to the open window
      or to a closed one. */
  lemma {:induction false} FoldCounts(trace: seq<Record>, w: Window, n: nat, conv: Conversions, c: int)
    requires Ready(w) && n <= |trace| && Fold(trace, w, n, conv).Ok?
    requires SumInts(w.counts) + w.num == |w.processed| + c
    ensures var u := Fold(trace, w, n, conv).value; SumInts(u.counts) + u.num == |u.processed| + c
  {
    if n > 1 {
      assert Fold(trace, w, n - 1, conv).Ok?;
      var v := Fold(trace, w, n - 1, conv).value;
      FoldStep(trace, w, n - 1, conv, v);
      FoldCounts(trace, w, n - 1, conv, c);
      StepCountsProcessed(v, trace[n - 1], conv, c);
    }
  }

  /** The opening the counting evidently intends: the first loop also marks its packet's
      UniqueID as processed, so that the second loop does not count it again. */
  function CorrectedOpening(trace: seq<Record>, conv: Conversions): (r: Result<Window, Fault>)
    ensures r.Ok? ==> WellFormed(r.value) && r.value.num >= 0
  {
    var first :- FirstOwn(trace, 0, conv);
    match first
    case None => Ok(Window(0.0, 0, {}, [], [], [], [], 0.0, 1))
    case Some(f) => Ok(Window(trace[f].ts, 1, {trace[f].uniqueId}, [], [], [], [], 0.0, 1))
  }

  function CorrectedInstantaneousThroughput(trace: seq<Record>, conv: Conversions): Result<Window, Fault>
  {
    var w :- CorrectedOpening(trace, conv);
    Fold(trace, w, |trace|, conv)
  }

  /** Corrected: the packets counted over all windows, closed and open, are exactly the
      distinct own-addressed UniqueIDs of the trace. */
  lemma CorrectedCountsEachPacketOnce(trace: seq<Record>, conv: Conversions)
    requires CorrectedInstantaneousThroughput(trace, conv).Ok?
    ensures var w := CorrectedInstantaneousThroughput(trace, conv).value;
      w.processed == OwnUids(trace, 0, |trace|, conv) && SumInts(w.counts) + w.num == |w.processed|
  {
    var w0 := CorrectedOpening(trace, conv).value;
    match FirstOwn(trace, 0, conv).value
    case None =>
      FoldWithoutOwn(trace, w0, |trace|, conv);
      assert OwnUids(trace, 0, |trace|, conv) == {};
    case Some(f) =>
      assert w0.processed == {trace[f].uniqueId} && SumInts(w0.counts) + w0.num == |w0.processed|;
      FoldProcessed(trace, w0, |trace|, conv);
      FoldCounts(trace, w0, |trace|, conv, 0);
      FirstOwnJoinsRest(trace, conv, f);
  }

  /** The first own-addressed record's UniqueID together with those of records 1 .. end are the
      UniqueIDs of all own-addressed records. */
  lemma FirstOwnJoinsRest(trace: seq<Record>, conv: Conversions, f: nat)
    requires FirstOwn(trace, 0, conv) == Ok(Some(f))
    ensures {trace[f].uniqueId} + OwnUids(trace, 1, |trace|, conv) == OwnUids(trace, 0, |trace|, conv)
  {
    OwnUidsSkip(trace, |trace|, conv);
    if f > 0 {
      assert trace[f].uniqueId in OwnUids(trace, 1, |trace|, conv);
    }
  }

  /** As written: when the first own-addressed record is not the first record, it is counted by
      both loops, so one packet more is counted than there are distinct own-addressed
      UniqueIDs. */
  lemma AsWrittenCountsFirstPacketTwice(trace: seq<Record>, conv: Conversions)
    requires InstantaneousThroughput(trace, conv).Ok?
    requires FirstOwn(trace, 0, conv).value.Some? && FirstOwn(trace, 0, conv).value.value >= 1
    ensures var w := InstantaneousThroughput(trace, conv).value;
      w.processed == OwnUids(trace, 0, |trace|, conv) && SumInts(w.counts) + w.num == |w.processed| + 1
  {
    var w0 := Opening(trace, conv).value;
    OwnUidsSkip(trace, |trace|, conv);
    FoldProcessed(trace, w0, |trace|, conv);
    FoldCounts(trace, w0, |trace|, conv, 1);
  }

  /** A non-own record, then two own-addressed packets 20 seconds apart: the window that
      closes held one packet, so its sample is 6400 bits over 20 s, yet the code reports twice
      that; the corrected opening reports 320. */
  lemma DoubleCountWitness(conv: Conversions)
    requires conv.toInt("5") == Some(5) && conv.toInt("2") == Some(2)
    ensures var trace := [Rec(RX, 0.0, 0, 1, "5"), Rec(RX, 0.0, 1, 2, "2"), Rec(RX, 20000000000.0, 1, 3, "2")];
      && InstantaneousThroughput(trace, conv).Ok?
      && InstantaneousThroughput(trace, conv).value.throughputs == [640.0]
      && CorrectedInstantaneousThroughput(trace, conv).Ok?
      && CorrectedInstantaneousThroughput(trace, conv).value.throughputs == [320.0]
  {
    var trace := [Rec(RX, 0.0, 0, 1, "5"), Rec(RX, 0.0, 1, 2, "2"), Rec(RX, 20000000000.0, 1, 3, "2")];
    assert IsOwn(trace[0], conv) == Ok(false);
    assert IsOwn(trace[1], conv) == Ok(true);
    assert IsOwn(trace[2], conv) == Ok(true);
    assert FirstOwn(trace, 1, conv) == Ok(Some(1));
    assert FirstOwn(trace, 0, conv) == Ok(Some(1));
    var w0 := Window(0.0, 1, {}, [], [], [], [], 0.0, 1);
    assert Opening(trace, conv) == Ok(w0);
    StepCounts(w0, trace[1], conv);
    assert {} + {2} == {2};
    assert WinStep(w0, trace[1], conv) == Ok(w0.(processed := {2}, num := 2));
    assert Fold(trace, w0, 1, conv) == Ok(w0);
    assert Fold(trace, w0, 2, conv) == Ok(w0.(processed := {2}, num := 2));
    assert Fold(trace, w0, 3, conv).value.throughputs == [640.0];
    var c0 := w0.(processed := {2});
    assert CorrectedOpening(trace, conv) == Ok(c0);
    assert Fold(trace, c0, 2, conv) == Ok(c0);
    assert Fold(trace, c0, 3, conv).value.throughputs == [320.0];
  }
}
