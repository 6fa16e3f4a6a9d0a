/** `parse_fields`: turns each event into one TRACE record and applies the node-state rules of
    NodeTracker, in event order. TRACE is a sequence of records; each record holds one entry of
    each of the sixteen TRACE columns. */
module TraceParser {
  import opened Wrappers
  import opened Faults
  import opened Text
  import opened FieldExtractor
  import opened NodeTracker

  /** One row of TRACE. `bad` is the `bad` column (false for 0, true for 1). */
  datatype Record = Record(
    bad: bool,
    mode: Mode,
    ts: real,
    nodeId: int,
    txPower: real,
    rxPower: real,
    txTime: real,
    direction: string,
    numForwards: int,
    error: string,
    uniqueId: int,
    ptype: string,
    payloadSize: int,
    macSrcAddr: string,
    macDstAddr: string,
    originalLine: string)

  /** Python's `float(s)` and `int(s)`: None where they raise ValueError. */
  datatype Conversions = Conversions(toFloat: string -> Option<real>, toInt: string -> Option<int>)

  function Float(conv: Conversions, s: string): Result<real, Fault> {
    match conv.toFloat(s)
    case Some(x) => Ok(x)
    case None => Err(ValueError(NotANumber))
  }

  function Int(conv: Conversions, s: string): Result<int, Fault> {
    match conv.toInt(s)
    case Some(x) => Ok(x)
    case None => Err(ValueError(NotANumber))
  }

  /** `parts[i]`, or IndexError. */
  function At(parts: seq<string>, i: nat): Result<string, Fault> {
    if i < |parts| then Ok(parts[i]) else Err(IndexError)
  }

  /** A Python truth test on a parsed field: None and "" are false. */
  predicate Truthy(v: Option<string>) {
    v.Some? && |v.value| > 0
  }

  /** The field's value when it is truthy, the default otherwise. */
  function FieldOr(line: string, name: string, default: string): string {
    var v := ParseFieldValue(line, name);
    if Truthy(v) then v.value else default
  }

  /** TxTime with every `+` and every `ns` removed, as a float; 0.0 when the field is absent or
      what is left is not a number. */
  function TxTimeOf(line: string, conv: Conversions): real {
    var v := ParseFieldValue(line, "TxTime");
    if Truthy(v) then
      match conv.toFloat(RemoveAll(RemoveAll(v.value, "+"), "ns"))
      case Some(x) => x
      case None => 0.0
    else 0.0
  }

  /** The columns of one record, before the node update decides `bad`. `lastUid` is the value
      the local `unique_id` holds from the previous record (None before the first). */
  function ParseRecord(line: string, mode: Mode, lastUid: Option<int>, conv: Conversions): (r: Result<Record, Fault>)
    ensures r.Ok? ==> r.value.mode == mode && r.value.originalLine == line && !r.value.bad
  {
    var parts := Split(line, ' ');
    var ptype := ParseFieldValue(line, "PacketType");
    var tsText :- At(parts, 1);
    var ts :- Float(conv, tsText);
    var path :- At(parts, 2);
    var idText :- At(Split(path, '/'), 2);
    var nodeId :- Int(conv, idText);
    var sizeField := ParseFieldValue(line, "Size");
    var size :- if Truthy(sizeField) then Int(conv, sizeField.value) else Ok(50);
    var txTime := if mode == TX then TxTimeOf(line, conv) else 0.0;
    var direction := FieldOr(line, "Direction", "UNKNOWN");
    var forwardsField := ParseFieldValue(line, "NumForwards");
    var forwards :- if Truthy(forwardsField) then Int(conv, forwardsField.value) else Ok(0);
    var error := FieldOr(line, "Error", "False");
    var uidField := ParseFieldValue(line, "UniqueID");
    var uid :- if Truthy(uidField) then Int(conv, uidField.value)
               else if lastUid.Some? then Ok(lastUid.value)
               else Err(UnboundLocalError);
    var src := FieldOr(line, "SA", "000");
    var dst := if mode == TX || Truthy(ParseFieldValue(line, "DA")) then FieldOr(line, "DA", "000")
               else FieldOr(line, "DestAddress", "000");
    Ok(Record(false, mode, ts, nodeId, TX_POWER, 0.0, txTime, direction, forwards, error, uid,
              if ptype.None? then "UNKNOWN" else ptype.value, size, src, dst, line))
  }

  /** The fixed power columns, the literal defaults of absent (or empty) fields, and the
      UniqueID that a record without one inherits from the previous record. */
  lemma ParseRecordDefaults(line: string, mode: Mode, lastUid: Option<int>, conv: Conversions)
    ensures var r := ParseRecord(line, mode, lastUid, conv);
      && (r.Ok? ==> r.value.txPower == TX_POWER && r.value.rxPower == 0.0)
      && (r.Ok? ==> |Split(line, ' ')| >= 3)
      && (r.Ok? && ParseFieldValue(line, "PacketType").None? ==> r.value.ptype == "UNKNOWN")
      && (r.Ok? && !Truthy(ParseFieldValue(line, "Size")) ==> r.value.payloadSize == 50)
      && (r.Ok? && (mode == RX || !Truthy(ParseFieldValue(line, "TxTime"))) ==> r.value.txTime == 0.0)
      && (r.Ok? && !Truthy(ParseFieldValue(line, "Direction")) ==> r.value.direction == "UNKNOWN")
      && (r.Ok? && !Truthy(ParseFieldValue(line, "NumForwards")) ==> r.value.numForwards == 0)
      && (r.Ok? && !Truthy(ParseFieldValue(line, "Error")) ==> r.value.error == "False")
      && (r.Ok? && !Truthy(ParseFieldValue(line, "SA")) ==> r.value.macSrcAddr == "000")
      && ((r.Ok? && !Truthy(ParseFieldValue(line, "DA"))
           && (mode == TX || !Truthy(ParseFieldValue(line, "DestAddress")))) ==> r.value.macDstAddr == "000")
      // a missing UniqueID reuses the previous record's, and faults on the first record
      && (!Truthy(ParseFieldValue(line, "UniqueID")) && r.Ok? ==> lastUid == Some(r.value.uniqueId))
      && (!Truthy(ParseFieldValue(line, "UniqueID")) && lastUid.None? ==> r.Err?)
  {
  }

  /** The columns of a parsed record that are present in the line: TS is the second token as a
      float, NODE_ID the third `/`-segment of the third token as an int, the numeric fields
      are `int()` of their values, the text fields their values, TxTime (TX only) the float of
      its value with every `+` and `ns` removed or 0.0, and an RX record without a DA takes
      its MAC_DST_ADDR from DestAddress. */
  lemma ParseRecordValues(line: string, mode: Mode, lastUid: Option<int>, conv: Conversions)
    requires ParseRecord(line, mode, lastUid, conv).Ok?
    ensures var r := ParseRecord(line, mode, lastUid, conv).value;
      var parts := Split(line, ' ');
      && |parts| >= 3 && |Split(parts[2], '/')| >= 3
      && conv.toFloat(parts[1]) == Some(r.ts)
      && conv.toInt(Split(parts[2], '/')[2]) == Some(r.nodeId)
      && (Truthy(ParseFieldValue(line, "Size")) ==> conv.toInt(ParseFieldValue(line, "Size").value) == Some(r.payloadSize))
      && (Truthy(ParseFieldValue(line, "NumForwards")) ==> conv.toInt(ParseFieldValue(line, "NumForwards").value) == Some(r.numForwards))
      && (Truthy(ParseFieldValue(line, "UniqueID")) ==> conv.toInt(ParseFieldValue(line, "UniqueID").value) == Some(r.uniqueId))
      && (ParseFieldValue(line, "PacketType").Some? ==> r.ptype == ParseFieldValue(line, "PacketType").value)
      && (Truthy(ParseFieldValue(line, "Direction")) ==> r.direction == ParseFieldValue(line, "Direction").value)
      && (Truthy(ParseFieldValue(line, "Error")) ==> r.error == ParseFieldValue(line, "Error").value)
      && (Truthy(ParseFieldValue(line, "SA")) ==> r.macSrcAddr == ParseFieldValue(line, "SA").value)
      && (Truthy(ParseFieldValue(line, "DA")) ==> r.macDstAddr == ParseFieldValue(line, "DA").value)
      && (mode == RX && !Truthy(ParseFieldValue(line, "DA")) && Truthy(ParseFieldValue(line, "DestAddress"))
          ==> r.macDstAddr == ParseFieldValue(line, "DestAddress").value)
      && (mode == TX && Truthy(ParseFieldValue(line, "TxTime")) ==>
          r.txTime == match conv.toFloat(RemoveAll(RemoveAll(ParseFieldValue(line, "TxTime").value, "+"), "ns"))
                      case Some(x) => x
                      case None => 0.0)
  {
  }

  /** When the record builder faults: IndexError without a second token, ValueError when that
      token is not a float, IndexError without a third token or a third `/`-segment in it,
      ValueError when that segment is not an int; and in all it succeeds exactly when every
      conversion it reaches succeeds and a UniqueID is available. */
  lemma ParseRecordFaults(line: string, mode: Mode, lastUid: Option<int>, conv: Conversions)
    ensures var r := ParseRecord(line, mode, lastUid, conv);
      var parts := Split(line, ' ');
      && (|parts| < 2 ==> r == Err(IndexError))
      && (|parts| >= 2 && conv.toFloat(parts[1]).None? ==> r == Err(ValueError(NotANumber)))
      && (|parts| == 2 && conv.toFloat(parts[1]).Some? ==> r == Err(IndexError))
      && (|parts| >= 3 && conv.toFloat(parts[1]).Some? && |Split(parts[2], '/')| < 3 ==> r == Err(IndexError))
      && ((|parts| >= 3 && conv.toFloat(parts[1]).Some? && |Split(parts[2], '/')| >= 3
           && conv.toInt(Split(parts[2], '/')[2]).None?) ==> r == Err(ValueError(NotANumber)))
      && (r.Ok? <==>
          && |parts| >= 3 && conv.toFloat(parts[1]).Some?
          && |Split(parts[2], '/')| >= 3 && conv.toInt(Split(parts[2], '/')[2]).Some?
          && (Truthy(ParseFieldValue(line, "Size")) ==> conv.toInt(ParseFieldValue(line, "Size").value).Some?)
          && (Truthy(ParseFieldValue(line, "NumForwards")) ==> conv.toInt(ParseFieldValue(line, "NumForwards").value).Some?)
          && (if Truthy(ParseFieldValue(line, "UniqueID"))
              then conv.toInt(ParseFieldValue(line, "UniqueID").value).Some?
              else lastUid.Some?))
  {
  }

  /** TRACE and NODE_INFO after some events. */
  datatype Parsed = Parsed(trace: seq<Record>, nodes: NodeTable)

  /** The `unique_id` local after the records so far: the last record's. */
  function LastUid(trace: seq<Record>): Option<int> {
    if |trace| == 0 then None else Some(trace[|trace| - 1].uniqueId)
  }

  /** An event that produces a record: one whose first character is `t` or `r`. */
  predicate IsRecordEvent(event: string) {
    |event| > 0 && (event[0] == 't' || event[0] == 'r')
  }

  /** One iteration of the event loop. An empty event faults on `line[0]`; an event starting
      with another character is skipped. */
  function Step(p: Parsed, event: string, conv: Conversions): (r: Result<Parsed, Fault>)
    requires Valid(p.nodes)
    ensures r.Ok? ==> Valid(r.value.nodes)
    ensures r.Ok? && !IsRecordEvent(event) ==> r.value == p
  {
    if |event| == 0 then Err(IndexError)
    else if event[0] == 't' || event[0] == 'r' then
      var mode := if event[0] == 't' then TX else RX;
      var rec :- ParseRecord(event, mode, LastUid(p.trace), conv);
      var (nodes, bad) := ApplyEvent(p.nodes, mode, rec.nodeId, rec.ts, rec.payloadSize);
      Ok(Parsed(p.trace + [rec.(bad := bad)], nodes))
    else Ok(p)
  }

  /** `parse_fields(events)`: the events applied in order to an empty TRACE and the
      preallocated NODE_INFO; the first fault aborts the whole parse. */
  function ParseAll(events: seq<string>, conv: Conversions): (r: Result<Parsed, Fault>)
    ensures r.Ok? ==> Valid(r.value.nodes)
  {
    if |events| == 0 then Ok(Parsed([], InitialTable()))
    else
      var p :- ParseAll(events[..|events| - 1], conv);
      Step(p, events[|events| - 1], conv)
  }

  /** The events that produce records, in order. */
  function RecordEvents(events: seq<string>): (r: seq<string>)
    ensures forall i :: 0 <= i < |r| ==> IsRecordEvent(r[i])
  {
    if |events| == 0 then []
    else
      var last := events[|events| - 1];
      RecordEvents(events[..|events| - 1]) + (if IsRecordEvent(last) then [last] else [])
  }

  function CountBad(trace: seq<Record>): nat {
    if |trace| == 0 then 0
    else CountBad(trace[..|trace| - 1]) + (if trace[|trace| - 1].bad then 1 else 0)
  }

  /** RX records with `bad == 0`. */
  function CountRxOk(trace: seq<Record>): nat {
    if |trace| == 0 then 0
    else
      var r := trace[|trace| - 1];
      CountRxOk(trace[..|trace| - 1]) + (if r.mode == RX && !r.bad then 1 else 0)
  }

  predicate SizesNonNegative(trace: seq<Record>) {
    forall i :: 0 <= i < |trace| ==> trace[i].payloadSize >= 0
  }

  /** Row i of TRACE is the record built from `event` with the `unique_id` the rows before it
      left behind, its `bad` flag aside. */
  ghost predicate RowBuilt(trace: seq<Record>, i: int, event: string, conv: Conversions) {
    && 0 <= i < |trace|
    && var b := ParseRecord(event, trace[i].mode, LastUid(trace[..i]), conv);
    && b.Ok? && trace[i] == b.value.(bad := trace[i].bad)
  }

  /** What one successful iteration of the event loop does to TRACE and NODE_INFO. */
  lemma StepFacts(p: Parsed, e: string, conv: Conversions)
    requires Valid(p.nodes) && Step(p, e, conv).Ok?
    ensures |e| > 0
    ensures var q := Step(p, e, conv).value;
      if IsRecordEvent(e) then
        && |q.trace| == |p.trace| + 1 && q.trace[..|p.trace|] == p.trace
        && var r := q.trace[|p.trace|];
        && r.originalLine == e && (r.mode == TX <==> e[0] == 't')
        && (q.nodes, r.bad) == ApplyEvent(p.nodes, r.mode, r.nodeId, r.ts, r.payloadSize)
      else q == p
  {
    if IsRecordEvent(e) {
      var q := Step(p, e, conv).value;
      assert q.trace[..|p.trace|] == p.trace;
    }
  }

  /** The record one iteration appends is built from its event. */
  lemma StepBuildsRow(p: Parsed, e: string, conv: Conversions)
    requires Valid(p.nodes) && Step(p, e, conv).Ok? && IsRecordEvent(e)
    ensures |Step(p, e, conv).value.trace| == |p.trace| + 1
    ensures p.trace <= Step(p, e, conv).value.trace
    ensures RowBuilt(Step(p, e, conv).value.trace, |p.trace|, e, conv)
  {
    var q := Step(p, e, conv).value;
    assert q.trace[..|p.trace|] == p.trace;
  }

  /** A fault in a prefix of the events is the fault of the whole parse. */
  lemma {:induction false} FaultAborts(events: seq<string>, n: nat, conv: Conversions)
    requires n <= |events| && ParseAll(events[..n], conv).Err?
    ensures ParseAll(events, conv) == ParseAll(events[..n], conv)
    decreases |events| - n
  {
    if n < |events| {
      assert events[..n + 1][..n] == events[..n];
      FaultAborts(events, n + 1, conv);
    } else {
      assert events[..n] == events;
    }
  }

  /** Row i of `trace` carries `recs[i]` as its line, and is TX exactly when that line starts
      with `t`. */
  ghost predicate Follows(trace: seq<Record>, recs: seq<string>) {
    && |trace| == |recs|
    && (forall i :: 0 <= i < |trace| ==> trace[i].originalLine == recs[i])
    && (forall i :: 0 <= i < |trace| ==> |recs[i]| > 0 && (trace[i].mode == TX <==> recs[i][0] == 't'))
  }

  lemma StepFollows(m: Parsed, e: string, conv: Conversions, recs: seq<string>)
    requires Valid(m.nodes) && Step(m, e, conv).Ok? && Follows(m.trace, recs)
    ensures |e| > 0 && Follows(Step(m, e, conv).value.trace, recs + (if IsRecordEvent(e) then [e] else []))
  {
    StepFacts(m, e, conv);
    var q := Step(m, e, conv).value;
    if IsRecordEvent(e) {
      AppendFollows(m.trace, recs, q.trace, e);
    } else {
      assert recs + [] == recs;
    }
  }

  lemma AppendFollows(trace: seq<Record>, recs: seq<string>, trace': seq<Record>, e: string)
    requires Follows(trace, recs) && |e| > 0
    requires |trace'| == |trace| + 1 && trace'[..|trace|] == trace
    requires trace'[|trace|].originalLine == e && (trace'[|trace|].mode == TX <==> e[0] == 't')
    ensures Follows(trace', recs + [e])
  {
    var recs' := recs + [e];
    forall i | 0 <= i < |trace| ensures trace'[i] == trace[i] && recs'[i] == recs[i] {
      assert trace'[i] == trace'[..|trace|][i];
    }
  }

  /** One record per `t` or `r` event, in event order, carrying that event as its original
      line; MODE is TX exactly for the `t` events; no event was empty. */
  lemma {:induction false} RecordsFollowEvents(events: seq<string>, conv: Conversions)
    requires ParseAll(events, conv).Ok?
    ensures var trace := ParseAll(events, conv).value.trace;
      && |trace| == |RecordEvents(events)|
      && (forall i :: 0 <= i < |trace| ==> trace[i].originalLine == RecordEvents(events)[i])
      && (forall i :: 0 <= i < |trace| ==> (trace[i].mode == TX <==> RecordEvents(events)[i][0] == 't'))
      && (forall i :: 0 <= i < |events| ==> |events[i]| > 0)
  {
    FollowsEvents(events, conv);
  }

  lemma {:induction false} FollowsEvents(events: seq<string>, conv: Conversions)
    requires ParseAll(events, conv).Ok?
    ensures Follows(ParseAll(events, conv).value.trace, RecordEvents(events))
    ensures forall i :: 0 <= i < |events| ==> |events[i]| > 0
  {
    if |events| > 0 {
      var n := |events| - 1;
      var init := events[..n];
      assert events[..n + 1] == events;
      ParsePrefixStep(events, n, conv);
      FollowsEvents(init, conv);
      StepFollows(ParseAll(init, conv).value, events[n], conv, RecordEvents(init));
      forall i | 0 <= i < n ensures |events[i]| > 0 {
        assert events[i] == init[i];
      }
    }
  }

  /** Each row of TRACE is built from its event. */
  lemma {:induction false} RowsBuilt(events: seq<string>, conv: Conversions)
    requires ParseAll(events, conv).Ok?
    ensures var trace := ParseAll(events, conv).value.trace;
      && |trace| == |RecordEvents(events)|
      && forall i :: 0 <= i < |trace| ==> RowBuilt(trace, i, RecordEvents(events)[i], conv)
  {
    if |events| > 0 {
      var init := events[..|events| - 1];
      RowsBuilt(init, conv);
      var m := ParseAll(init, conv).value;
      var q := ParseAll(events, conv).value;
      if IsRecordEvent(events[|events| - 1]) {
        StepBuildsRow(m, events[|events| - 1], conv);
      } else {
        StepFacts(m, events[|events| - 1], conv);
      }
      forall i | 0 <= i < |m.trace| ensures RowBuilt(q.trace, i, RecordEvents(events)[i], conv) {
        RowBuiltExtends(m.trace, q.trace, i, RecordEvents(init)[i], conv);
      }
    }
  }

  /** A row stays built from its event when later rows are appended. */
  lemma RowBuiltExtends(t: seq<Record>, u: seq<Record>, i: nat, e: string, conv: Conversions)
    requires t <= u && RowBuilt(t, i, e, conv)
    ensures RowBuilt(u, i, e, conv)
  {
    assert u[..i] == t[..i];
  }

  /** The literal defaults hold for the rows of TRACE after the parse: a row whose line has no
      Size, NumForwards, Direction, Error or SA value carries 50, 0, "UNKNOWN", "False" or
      "000", and an RX row has TxTime 0.0. */
  lemma TraceRowDefaults(events: seq<string>, conv: Conversions, i: nat)
    requires ParseAll(events, conv).Ok? && i < |ParseAll(events, conv).value.trace|
    ensures var r := ParseAll(events, conv).value.trace[i];
      && (!Truthy(ParseFieldValue(r.originalLine, "Size")) ==> r.payloadSize == 50)
      && (!Truthy(ParseFieldValue(r.originalLine, "NumForwards")) ==> r.numForwards == 0)
      && (!Truthy(ParseFieldValue(r.originalLine, "Direction")) ==> r.direction == "UNKNOWN")
      && (!Truthy(ParseFieldValue(r.originalLine, "Error")) ==> r.error == "False")
      && (!Truthy(ParseFieldValue(r.originalLine, "SA")) ==> r.macSrcAddr == "000")
      && (r.mode == RX ==> r.txTime == 0.0)
      && r.txPower == TX_POWER && r.rxPower == 0.0
  {
    var trace := ParseAll(events, conv).value.trace;
    RowsBuilt(events, conv);
    assert RowBuilt(trace, i, RecordEvents(events)[i], conv);
    BuiltRowDefaults(trace[i], RecordEvents(events)[i], LastUid(trace[..i]), conv);
  }

  lemma BuiltRowDefaults(r: Record, e: string, lastUid: Option<int>, conv: Conversions)
    requires ParseRecord(e, r.mode, lastUid, conv).Ok?
    requires r == ParseRecord(e, r.mode, lastUid, conv).value.(bad := r.bad)
    ensures && (!Truthy(ParseFieldValue(r.originalLine, "Size")) ==> r.payloadSize == 50)
      && (!Truthy(ParseFieldValue(r.originalLine, "NumForwards")) ==> r.numForwards == 0)
      && (!Truthy(ParseFieldValue(r.originalLine, "Direction")) ==> r.direction == "UNKNOWN")
      && (!Truthy(ParseFieldValue(r.originalLine, "Error")) ==> r.error == "False")
      && (!Truthy(ParseFieldValue(r.originalLine, "SA")) ==> r.macSrcAddr == "000")
      && (r.mode == RX ==> r.txTime == 0.0)
      && r.txPower == TX_POWER && r.rxPower == 0.0
  {
    ParseRecordDefaults(e, r.mode, lastUid, conv);
  }

  /** An empty trace file yields the single event "", on which `line[0]` faults. */
  lemma EmptyFileFaults(conv: Conversions)
    ensures ParseAll([""], conv) == Err(IndexError)
  {
    assert [""][..0] == [];
  }

  /** The parse of the first n + 1 events is one more iteration on the parse of the first n. */
  lemma ParsePrefixStep(events: seq<string>, n: nat, conv: Conversions)
    requires n < |events| && ParseAll(events[..n + 1], conv).Ok?
    ensures ParseAll(events[..n], conv).Ok?
    ensures Step(ParseAll(events[..n], conv).value, events[n], conv) == ParseAll(events[..n + 1], conv)
  {
    assert events[..n + 1][..n] == events[..n];
  }

  /** Parsing more events only appends to TRACE: the records of a prefix of the events,
      `bad` flags included, are never revisited. */
  lemma {:induction false} ParseIsAppendOnly(events: seq<string>, n: nat, conv: Conversions)
    requires n <= |events| && ParseAll(events, conv).Ok?
    ensures ParseAll(events[..n], conv).Ok?
    ensures ParseAll(events[..n], conv).value.trace <= ParseAll(events, conv).value.trace
    decreases |events| - n
  {
    if n < |events| {
      ParseIsAppendOnly(events, n + 1, conv);
      ParsePrefixStep(events, n, conv);
      StepFacts(ParseAll(events[..n], conv).value, events[n], conv);
    } else {
      assert events[..n] == events;
    }
  }

  /** NODE_INFO `b` is `a` grown: every node of `a` is still there, none has an earlier
      busy-until time or less energy, and the total energy is not smaller. */
  ghost predicate Grows(a: NodeTable, b: NodeTable) {
    && Covers(a.order, a.states) && Covers(b.order, b.states)
    && (forall k :: k in a.states ==> k in b.states && Dominates(b.states[k], a.states[k]))
    && SumEnergy(b.order, b.states) >= SumEnergy(a.order, a.states)
  }

  lemma GrowsTransitive(a: NodeTable, b: NodeTable, c: NodeTable)
    requires Grows(a, b) && Grows(b, c)
    ensures Grows(a, c)
  {
  }

  /** One iteration with a non-negative payload grows NODE_INFO. */
  lemma StepGrows(p: Parsed, e: string, conv: Conversions)
    requires Valid(p.nodes) && Step(p, e, conv).Ok?
    requires SizesNonNegative(Step(p, e, conv).value.trace)
    ensures SizesNonNegative(p.trace)
    ensures Grows(p.nodes, Step(p, e, conv).value.nodes)
  {
    var q := Step(p, e, conv).value;
    StepFacts(p, e, conv);
    if IsRecordEvent(e) {
      forall i | 0 <= i < |p.trace| ensures p.trace[i].payloadSize >= 0 {
        assert p.trace[i] == q.trace[i];
      }
      var r := q.trace[|p.trace|];
      ApplyEventGrows(p.nodes, r.mode, r.nodeId, r.ts, r.payloadSize);
    }
  }

  /** With non-negative payloads, parsing more events never makes a node's busy-until time
      or energy decrease, and never decreases the total energy. */
  lemma {:induction false} ParseOnlyGrows(events: seq<string>, n: nat, conv: Conversions)
    requires n <= |events| && ParseAll(events, conv).Ok?
    requires SizesNonNegative(ParseAll(events, conv).value.trace)
    ensures ParseAll(events[..n], conv).Ok?
    ensures SizesNonNegative(ParseAll(events[..n], conv).value.trace)
    ensures Grows(ParseAll(events[..n], conv).value.nodes, ParseAll(events, conv).value.nodes)
    decreases |events| - n
  {
    if n < |events| {
      ParseOnlyGrows(events, n + 1, conv);
      ParsePrefixStep(events, n, conv);
      var p := ParseAll(events[..n], conv).value;
      StepGrows(p, events[n], conv);
      GrowsTransitive(p.nodes, ParseAll(events[..n + 1], conv).value.nodes, ParseAll(events, conv).value.nodes);
    } else {
      assert events[..n] == events;
    }
  }

  /** With non-negative payloads the total energy of NODE_INFO is never negative. */
  lemma EnergyNonNegative(events: seq<string>, conv: Conversions)
    requires ParseAll(events, conv).Ok?
    requires SizesNonNegative(ParseAll(events, conv).value.trace)
    ensures var q := ParseAll(events, conv).value; SumEnergy(q.nodes.order, q.nodes.states) >= 0.0
  {
    ParseOnlyGrows(events, 0, conv);
    assert events[..0] == [];
    var t := InitialTable();
    SumsOfFresh(t.order, t.states, Collisions);
  }

  /** The collision total over NODE_INFO counts exactly the records flagged `bad`, and the
      processed-RX total counts exactly the RX records not flagged. */
  lemma {:induction false} CountersMatchFlags(events: seq<string>, conv: Conversions)
    requires ParseAll(events, conv).Ok?
    ensures var p := ParseAll(events, conv).value;
      && SumCount(p.nodes.order, p.nodes.states, Collisions) == CountBad(p.trace)
      && SumCount(p.nodes.order, p.nodes.states, ProcessedRx) == CountRxOk(p.trace)
  {
    if |events| == 0 {
      var t := InitialTable();
      SumsOfFresh(t.order, t.states, Collisions);
      SumsOfFresh(t.order, t.states, ProcessedRx);
    } else {
      var init := events[..|events| - 1];
      var e := events[|events| - 1];
      ParseLastStep(events, conv);
      CountersMatchFlags(init, conv);
      var m := ParseAll(init, conv).value;
      var q := ParseAll(events, conv).value;
      StepFacts(m, e, conv);
      if IsRecordEvent(e) {
        var r := q.trace[|m.trace|];
        assert q.trace == m.trace + [r];
        CountsAppend(m.trace, r);
        ApplyEventCounts(m.nodes, r.mode, r.nodeId, r.ts, r.payloadSize);
      }
    }
  }

  /** The parse of all events is the parse of all but the last, followed by one step. */
  lemma ParseLastStep(events: seq<string>, conv: Conversions)
    requires |events| > 0 && ParseAll(events, conv).Ok?
    ensures ParseAll(events[..|events| - 1], conv).Ok?
    ensures Step(ParseAll(events[..|events| - 1], conv).value, events[|events| - 1], conv) == ParseAll(events, conv)
  {
  }

  lemma CountsAppend(trace: seq<Record>, r: Record)
    ensures CountBad(trace + [r]) == CountBad(trace) + (if r.bad then 1 else 0)
    ensures CountRxOk(trace + [r]) == CountRxOk(trace) + (if r.mode == RX && !r.bad then 1 else 0)
  {
    assert (trace + [r])[..|trace|] == trace;
  }

  /** The parse of the first i + 1 events is one iteration on the parse of the first i. */
  lemma ParseAllStep(events: seq<string>, i: nat, conv: Conversions, p: Parsed)
    requires i < |events| && ParseAll(events[..i], conv) == Ok(p)
    ensures Valid(p.nodes) && ParseAll(events[..i + 1], conv) == Step(p, events[i], conv)
  {
    assert events[..i + 1][..i] == events[..i];
  }

  /** `ensure_node_exists(node_id)` and the in-place updates of that node's NODE_INFO entry
      for one TX or RX event, returning the `bad` flag. */
  method UpdateNode(order: seq<int>, info: map<int, NodeState>, mode: Mode, id: int, ts: real, size: int)
    returns (order': seq<int>, info': map<int, NodeState>, bad: bool)
    requires Valid(NodeTable(order, info))
    ensures (NodeTable(order', info'), bad) == ApplyEvent(NodeTable(order, info), mode, id, ts, size)
  {
    order', info' := order, info;
    if id !in info' {
      order' := order' + [id];
      info' := info'[id := FRESH];
    }
    ghost var before := info';
    ghost var o := Update(info'[id], mode, ts, size);
    var air := AirTime(size);
    if mode == TX {
      info' := info'[id := info'[id].(txEnergy := info'[id].txEnergy + air * TX_POWER)];
      info' := info'[id := info'[id].(txEnergy := info'[id].txEnergy + air * IDLE_POWER)];
      if ts >= info'[id].lastTs {
        bad := false;
        info' := info'[id := info'[id].(idleEnergy := info'[id].idleEnergy + ((ts - info'[id].lastTs) / NS_PER_SECOND) * IDLE_POWER)];
        info' := info'[id := info'[id].(lastTs := ts + air)];
      } else {
        bad := true;
        info' := info'[id := info'[id].(collisions := info'[id].collisions + 1)];
      }
    } else {
      if ts - air >= info'[id].lastTs {
        bad := false;
        info' := info'[id := info'[id].(processedRx := info'[id].processedRx + 1)];
        info' := info'[id := info'[id].(idleEnergy := info'[id].idleEnergy + ((ts - info'[id].lastTs) / NS_PER_SECOND) * IDLE_POWER)];
        info' := info'[id := info'[id].(lastTs := ts)];
        info' := info'[id := info'[id].(rxEnergy := info'[id].rxEnergy + air * RX_POWER)];
      } else {
        bad := true;
        info' := info'[id := info'[id].(collisions := info'[id].collisions + 1)];
      }
    }
    assert info'[id] == o.node && bad == o.bad;
    assert info' == before[id := o.node];
  }

  /** The event loop of `parse_fields`. The local `uniqueId` is the Python local `unique_id`,
      which keeps its value from one record to the next. */
  method ParseFields(events: seq<string>, conv: Conversions) returns (res: Result<Parsed, Fault>)
    ensures res == ParseAll(events, conv)
  {
    var trace: seq<Record> := [];
    var init := InitialTable();
    var order := init.order;
    var info := init.states;
    var uniqueId: Option<int> := None;
    var i := 0;
    while i < |events|
      invariant 0 <= i <= |events|
      invariant ParseAll(events[..i], conv) == Ok(Parsed(trace, NodeTable(order, info)))
      invariant uniqueId == LastUid(trace)
    {
      var line := events[i];
      ParseAllStep(events, i, conv, Parsed(trace, NodeTable(order, info)));
      if |line| == 0 {
        FaultAborts(events, i + 1, conv);
        return Err(IndexError);
      }
      if line[0] == 't' || line[0] == 'r' {
        var mode := if line[0] == 't' then TX else RX;
        var parsed := ParseRecord(line, mode, uniqueId, conv);
        if parsed.Err? {
          FaultAborts(events, i + 1, conv);
          return Err(parsed.error);
        }
        var rec := parsed.value;
        uniqueId := Some(rec.uniqueId);
        var bad: bool;
        order, info, bad := UpdateNode(order, info, mode, rec.nodeId, rec.ts, rec.payloadSize);
        trace := trace + [rec.(bad := bad)];
      }
      i := i + 1;
    }
    assert events[..|events|] == events;
    res := Ok(Parsed(trace, NodeTable(order, info)));
  }
}
