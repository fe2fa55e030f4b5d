/** The batch view: a seeded list of items, a runner that analyses them one
    at a time in list order while updating a progress percentage, and the
    CSV export of the table. */
module BatchProcessing {
  import opened Outcomes
  import opened Text
  import opened JsonValues
  import opened Types
  import GeminiService
  import Relay

  /** The argument of every analysis call the runner makes. */
  const Placeholder: string := "BATCH_PLACEHOLDER"

  /** The outcome of the `call`-th analysis call of a run, made with
      argument `arg` (the model and the network answer as they will). */
  type Analyzer = (nat, string) -> Result<Json, GeminiService.CallError>

  /** The five seeded items, all pending and without a result. */
  function InitialBatch(): (items: seq<BatchItem>)
    ensures |items| == 5
    ensures forall k :: 0 <= k < |items| ==> items[k].status == Pending && items[k].result == None
    ensures forall k, j :: 0 <= k < j < |items| ==> items[k].id != items[j].id
  {
    [ BatchItem("BATCH-001", 28.6139, 77.2090, Pending, None),
      BatchItem("BATCH-002", 19.0760, 72.8777, Pending, None),
      BatchItem("BATCH-003", 12.9716, 77.5946, Pending, None),
      BatchItem("BATCH-004", 13.0827, 80.2707, Pending, None),
      BatchItem("BATCH-005", 22.5726, 88.3639, Pending, None) ]
  }

  /** An item once its call has settled: Completed with the resolved value,
      or Failed with its previous result left in place. */
  function Settle(item: BatchItem, outcome: Result<Json, GeminiService.CallError>): (settled: BatchItem)
    ensures settled.id == item.id && settled.lat == item.lat && settled.lng == item.lng
    ensures settled.status == Completed <==> outcome.Ok?
    ensures settled.status == Failed <==> outcome.Err?
    ensures outcome.Ok? ==> settled.result == Some(outcome.value)
    ensures outcome.Err? ==> settled.result == item.result
  {
    match outcome
    case Ok(v) => item.(status := Completed, result := Some(v))
    case Err(_) => item.(status := Failed)
  }

  /** The list once the first `done` items have been handled: those are
      settled, with their ids kept, and the rest are untouched. */
  function Processed(pre: seq<BatchItem>, analyze: Analyzer, done: nat): (items: seq<BatchItem>)
    requires done <= |pre|
    ensures |items| == |pre|
    ensures forall k :: 0 <= k < done ==>
      items[k].id == pre[k].id && (items[k].status == Completed || items[k].status == Failed)
    ensures forall k :: done <= k < |pre| ==> items[k] == pre[k]
  {
    var items := seq(|pre|, k requires 0 <= k < |pre| => if k < done then Settle(pre[k], analyze(k, Placeholder)) else pre[k]);
    assert forall k :: 0 <= k < done ==> items[k] == Settle(pre[k], analyze(k, Placeholder));
    items
  }

  /** The list while item `i` awaits its call: earlier items settled, item
      `i` marked Processing with its data and earlier result kept, later
      items untouched. */
  function InFlight(pre: seq<BatchItem>, analyze: Analyzer, i: nat): (items: seq<BatchItem>)
    requires i < |pre|
    ensures |items| == |pre|
    ensures items[i].status == Processing
    ensures items[i].id == pre[i].id && items[i].lat == pre[i].lat && items[i].lng == pre[i].lng
    ensures items[i].result == pre[i].result
    ensures forall k :: 0 <= k < i ==> items[k].status == Completed || items[k].status == Failed
    ensures forall k :: i < k < |pre| ==> items[k] == pre[k]
  {
    Processed(pre, analyze, i)[i := pre[i].(status := Processing)]
  }

  /** The `r`-th list the view is given during a run: two per item, first
      with the item in flight, then with it settled. */
  function Render(pre: seq<BatchItem>, analyze: Analyzer, r: nat): (items: seq<BatchItem>)
    requires r < 2 * |pre|
    ensures |items| == |pre|
    ensures r % 2 == 0 ==> items[r / 2].status == Processing
    ensures r % 2 == 1 ==> items[r / 2].status == Completed || items[r / 2].status == Failed
    ensures forall k :: 0 <= k < r / 2 ==> items[k].status == Completed || items[k].status == Failed
    ensures forall k :: r / 2 < k < |pre| ==> items[k] == pre[k]
  {
    if r % 2 == 0 then InFlight(pre, analyze, r / 2) else Processed(pre, analyze, r / 2 + 1)
  }

  /** `Math.round(done / total * 100)`, on exact rationals: the nearest
      whole percentage, halves rounded up. */
  function Progress(done: nat, total: nat): (p: int)
    requires 0 < total && done <= total
    ensures 2 * total * p <= 200 * done + total < 2 * total * (p + 1)
  {
    (200 * done + total) / (2 * total)
  }

  /** Multiplying by a positive number keeps the order. */
  lemma MulMonotone(a: int, b: int, d: int)
    requires a <= b && d > 0
    ensures a * d <= b * d
  {
    assert b * d - a * d == (b - a) * d;
  }

  /** Progress is a percentage, 0 before anything is done and 100 when all
      is done. */
  lemma {:induction false} ProgressBounds(done: nat, total: nat)
    requires 0 < total && done <= total
    ensures 0 <= Progress(done, total) <= 100
    ensures done == 0 ==> Progress(done, total) == 0
    ensures done == total ==> Progress(done, total) == 100
  {
    var p := Progress(done, total);
    var d := 2 * total;
    assert p * d <= 200 * done + total < (p + 1) * d;
    assert 0 < 200 * done + total < 101 * d;
    if p + 1 < 1 {
      MulMonotone(p + 1, 0, d);
    }
    if 101 < p {
      MulMonotone(101, p, d);
    }
    if done == 0 {
      assert total < d;
      if p >= 1 { MulMonotone(1, p, d); }
    }
    if done == total {
      assert 100 * d <= 201 * total;
      if p < 100 { MulMonotone(p + 1, 100, d); }
      if p > 100 { MulMonotone(101, p, d); }
    }
  }

  /** Progress never decreases as items are handled. */
  lemma {:induction false} ProgressMonotone(a: nat, b: nat, total: nat)
    requires 0 < total && a <= b <= total
    ensures Progress(a, total) <= Progress(b, total)
  {
    var pa, pb := Progress(a, total), Progress(b, total);
    var d := 2 * total;
    assert pa * d <= 200 * a + total <= 200 * b + total < (pb + 1) * d;
    if pa > pb {
      MulMonotone(pb + 1, pa, d);
    }
  }

  /** After a run every item has settled, in its own place: Completed with
      the value its call resolved with, or Failed with its earlier result
      kept; id and coordinates never change. */
  lemma RunSettlesEveryItem(pre: seq<BatchItem>, analyze: Analyzer)
    ensures var post := Processed(pre, analyze, |pre|);
      forall k :: 0 <= k < |pre| ==>
        && (post[k].status == Completed || post[k].status == Failed)
        && (post[k].status == Completed <==> analyze(k, Placeholder).Ok?)
        && post[k].result == (if analyze(k, Placeholder).Ok? then Some(analyze(k, Placeholder).value) else pre[k].result)
        && post[k].id == pre[k].id && post[k].lat == pre[k].lat && post[k].lng == pre[k].lng
  {
    var post := Processed(pre, analyze, |pre|);
    forall k | 0 <= k < |pre|
      ensures post[k] == Settle(pre[k], analyze(k, Placeholder))
    {
    }
  }

  /** While item `i` is in flight, the items before it have settled, the
      items after it are as they were, and it is the only one Processing. */
  lemma InFlightOrder(pre: seq<BatchItem>, analyze: Analyzer, i: nat)
    requires i < |pre|
    requires forall k :: 0 <= k < |pre| ==> pre[k].status != Processing
    ensures var view := InFlight(pre, analyze, i);
      && (forall k :: 0 <= k < i ==> view[k].status == Completed || view[k].status == Failed)
      && (forall k :: i < k < |pre| ==> view[k] == pre[k])
      && (forall k :: 0 <= k < |pre| ==> (view[k].status == Processing <==> k == i))
  {
    var done := Processed(pre, analyze, i);
    forall k | 0 <= k < |pre|
      ensures done[k] == if k < i then Settle(pre[k], analyze(k, Placeholder)) else pre[k]
    {
    }
  }

  /** Every item gets the same call, so what an item holds (id, coordinates)
      has no bearing on its verdict: two lists of the same length settle to
      the same statuses. */
  lemma VerdictIgnoresItem(pre1: seq<BatchItem>, pre2: seq<BatchItem>, analyze: Analyzer)
    requires |pre1| == |pre2|
    ensures forall k :: 0 <= k < |pre1| ==>
      Processed(pre1, analyze, |pre1|)[k].status == Processed(pre2, analyze, |pre2|)[k].status
  {
    forall k | 0 <= k < |pre1|
      ensures Processed(pre1, analyze, |pre1|)[k] == Settle(pre1[k], analyze(k, Placeholder))
      ensures Processed(pre2, analyze, |pre2|)[k] == Settle(pre2[k], analyze(k, Placeholder))
    {
    }
  }

  /** Every call goes through the relay: the `call`-th one meets the model
      outcome `upstream(call)` and the relay clock `clock(call)`. */
  function ViaRelay(upstream: nat -> (Json -> Option<string>), parse: string -> Option<Json>, clock: nat -> int): Analyzer
  {
    (call: nat, arg: string) => GeminiService.AnalyzeSolarImage(arg, GeminiService.ViaRelay(upstream(call), parse, clock(call)))
  }

  /** The placeholder reaches the relay unchanged and is not empty, so
      through the relay every call resolves: items fail only when the relay
      cannot be reached. */
  lemma {:induction false} BatchViaRelayCompletes(
    pre: seq<BatchItem>,
    upstream: nat -> (Json -> Option<string>),
    parse: string -> Option<Json>,
    clock: nat -> int)
    ensures GeminiService.Strip(Placeholder) == Placeholder
    ensures forall k :: 0 <= k < |pre| ==> Processed(pre, ViaRelay(upstream, parse, clock), |pre|)[k].status == Completed
  {
    assert ',' !in Placeholder;
    var analyze := ViaRelay(upstream, parse, clock);
    forall k | 0 <= k < |pre|
      ensures Processed(pre, analyze, |pre|)[k].status == Completed
    {
      GeminiService.RelayRejectsOnlyEmpty(Placeholder, upstream(k), parse, clock(k));
      assert analyze(k, Placeholder).Ok?;
      assert Processed(pre, analyze, |pre|)[k] == Settle(pre[k], analyze(k, Placeholder));
    }
  }

  /** The batch view's state. The view shares one mutable list of items with
      the runner. */
  class Batch {
    const items: array<BatchItem>
    var processing: bool
    var progress: int

    /** Progress is a percentage, and outside a run no item is Processing. */
    ghost predicate Valid()
      reads this, items
    {
      && 0 <= progress <= 100
      && (!processing ==> forall k :: 0 <= k < items.Length ==> items[k].status != Processing)
    }

    /** The view as first shown: the seed list, idle, progress 0. */
    constructor ()
      ensures Valid() && fresh(items)
      ensures items[..] == InitialBatch() && !processing && progress == 0
    {
      var seed := InitialBatch();
      items := new BatchItem[5](k requires 0 <= k < 5 => seed[k]);
      processing := false;
      progress := 0;
      new;
      assert items[..] == seed;
    }

    /** `startBatch`, started from the button (disabled while a run is in
        progress). Each item in turn is marked Processing, analysed with the
        placeholder, and settled; the list is rendered after each of these
        two steps (`renders`) and the progress after each item
        (`progressLog`, which starts with the reset to 0). */
    method StartBatch(analyze: Analyzer) returns (renders: seq<seq<BatchItem>>, progressLog: seq<int>)
      requires Valid() && !processing
      modifies this, items
      ensures Valid() && !processing
      ensures items[..] == Processed(old(items[..]), analyze, items.Length)
      ensures |renders| == 2 * items.Length
      ensures forall r :: 0 <= r < |renders| ==> renders[r] == Render(old(items[..]), analyze, r)
      ensures |progressLog| == items.Length + 1 && progressLog[0] == 0
      ensures forall k :: 1 <= k < |progressLog| ==> progressLog[k] == Progress(k, items.Length)
      ensures progress == progressLog[|progressLog| - 1]
      ensures progress == (if items.Length == 0 then 0 else 100)
    {
      ghost var pre := items[..];
      var n := items.Length;
      processing := true;
      progress := 0;
      progressLog := [0];
      renders := [];
      var i := 0;
      while i < n
        invariant 0 <= i <= n && items.Length == n
        invariant items[..] == Processed(pre, analyze, i)
        invariant processing && 0 <= progress <= 100
        invariant |renders| == 2 * i
        invariant forall r :: 0 <= r < |renders| ==> renders[r] == Render(pre, analyze, r)
        invariant |progressLog| == i + 1 && progressLog[0] == 0
        invariant forall k :: 1 <= k < |progressLog| ==> progressLog[k] == Progress(k, n)
        invariant progress == progressLog[i]
      {
        items[i] := items[i].(status := Processing);
        assert items[..] == InFlight(pre, analyze, i);
        renders := renders + [items[..]];
        var outcome := analyze(i, Placeholder);
        match outcome {
          case Ok(v) =>
            items[i] := items[i].(status := Completed, result := Some(v));
          case Err(_) =>
            items[i] := items[i].(status := Failed);
        }
        assert items[..] == Processed(pre, analyze, i + 1);
        renders := renders + [items[..]];
        ProgressBounds(i + 1, n);
        progress := Progress(i + 1, n);
        progressLog := progressLog + [progress];
        i := i + 1;
      }
      processing := false;
      RunSettlesEveryItem(pre, analyze);
      if n > 0 {
        ProgressBounds(n, n);
      }
    }
  }

  /** The CSV header. */
  const Headers: seq<string> :=
    ["Batch ID", "Latitude", "Longitude", "Status", "Solar Installed", "Confidence", "Roof Type", "Timestamp"]

  /** `i.result?.key`: undefined when there is no result or no such field. */
  function ResultField(result: Option<Json>, key: string): (v: Option<Json>)
    ensures v.Some? <==> result.Some? && Prop(result.value, key).Some?
    ensures v.Some? ==> v == Prop(result.value, key)
  {
    if result.Some? then Prop(result.value, key) else None
  }

  /** A value whose text may hold a `,` or a line break: a text, an array or
      an object. */
  predicate MayBreakCell(v: Option<Json>)
  {
    v.Some? && (v.value.JStr? || v.value.JArr? || v.value.JObj?)
  }

  /** `i.result?.key ?? ''` as `join` writes it: empty when there is no
      result or the field is absent or null, otherwise the value's text
      (so a present `false` is "false" and a present 0 is the text of 0).
      Only a text, an array or an object can put a `,` or a line break into
      the cell. */
  function ResultCell(result: Option<Json>, key: string, show: real -> string): (cell: string)
    ensures Nullish(ResultField(result, key)) ==> cell == ""
    ensures var v := ResultField(result, key);
      && (v.Some? && v.value.JStr? ==> cell == v.value.s)
      && (v.Some? && v.value.JBool? ==> (cell == "true" <==> v.value.b) && (cell == "false" <==> !v.value.b))
      && (v.Some? && v.value.JNum? ==> cell == show(v.value.x))
    ensures PlainNumbers(show) && !MayBreakCell(ResultField(result, key)) ==> PlainCell(cell)
  {
    var v := ResultField(result, key);
    if Nullish(v) then "" else Coerce(v.value, show)
  }

  /** One item's eight cells, in header order. */
  function Row(item: BatchItem, show: real -> string): (cells: seq<string>)
    ensures |cells| == |Headers|
  {
    [ item.id, show(item.lat), show(item.lng), StatusName(item.status),
      ResultCell(item.result, "solarInstalled", show),
      ResultCell(item.result, "confidence", show),
      ResultCell(item.result, "roofType", show),
      ResultCell(item.result, "timestamp", show) ]
  }

  /** The header and one row per item, in item order. */
  function Rows(items: seq<BatchItem>, show: real -> string): (rows: seq<seq<string>>)
    ensures |rows| == |items| + 1
    ensures forall k :: 0 <= k < |rows| ==> |rows[k]| == |Headers|
    ensures rows[0] == Headers
    ensures forall k :: 0 <= k < |items| ==> rows[k + 1] == Row(items[k], show)
  {
    [Headers] + seq(|items|, k requires 0 <= k < |items| => Row(items[k], show))
  }

  /** `exportCSV`'s text: cells joined by `,`, lines by a line break, no
      quoting and no final line break. `show` is JavaScript's
      number-to-string conversion. The text has a line break for each item
      at least, and exactly one per item when every cell is plain. */
  function ExportCsv(items: seq<BatchItem>, show: real -> string): (csv: string)
    ensures Count(csv, '\n') >= |items|
    ensures PlainExport(items, show) ==> Count(csv, '\n') == |items|
  {
    var rows := Rows(items, show);
    TableLineBreaks(rows);
    RowsPlain(items, show);
    Table(rows)
  }

  /** Every cell of the export is free of `,` and line breaks. */
  predicate PlainExport(items: seq<BatchItem>, show: real -> string)
  {
    forall k, j :: 0 <= k < |items| && 0 <= j < |Headers| ==> PlainCell(Row(items[k], show)[j])
  }

  /** A plain export has plain cells in every row, the header included. */
  lemma RowsPlain(items: seq<BatchItem>, show: real -> string)
    ensures var rows := Rows(items, show);
      PlainExport(items, show) ==>
      forall k, j :: 0 <= k < |rows| && 0 <= j < |rows[k]| ==> PlainCell(rows[k][j])
  {
    var rows := Rows(items, show);
    HeadersPlain();
    if PlainExport(items, show) {
      forall k, j | 0 <= k < |rows| && 0 <= j < |rows[k]|
        ensures PlainCell(rows[k][j])
      {
        if k > 0 {
          assert rows[k] == Row(items[k - 1], show);
        }
      }
    }
  }

  lemma HeadersPlain()
    ensures forall j :: 0 <= j < |Headers| ==> PlainCell(Headers[j])
  {
    forall j | 0 <= j < |Headers| ensures PlainCell(Headers[j]) {
    }
  }

  /** Reading a plain export back gives the eight header names, then each
      item's eight cells, in item order. */
  lemma {:induction false} ExportReadsBack(items: seq<BatchItem>, show: real -> string)
    requires PlainExport(items, show)
    ensures var table := ReadTable(ExportCsv(items, show));
      && |table| == |items| + 1
      && table[0] == Headers
      && forall k :: 0 <= k < |items| ==> table[k + 1] == Row(items[k], show)
  {
    RowsPlain(items, show);
    ReadTableOfPlain(Rows(items, show));
  }

  /** Without quoting, the export reads back as `n + 1` lines of exactly
      eight fields if and only if no cell holds a `,` or a line break. */
  lemma {:induction false} ExportRectangularIffPlain(items: seq<BatchItem>, show: real -> string)
    ensures Rectangular(ExportCsv(items, show), |items| + 1, |Headers|) <==> PlainExport(items, show)
  {
    var rows := Rows(items, show);
    assert ExportCsv(items, show) == Table(rows);
    RectangularIffPlain(rows, |Headers|);
    RowsPlain(items, show);
    if forall k, j :: 0 <= k < |rows| && 0 <= j < |Headers| ==> PlainCell(rows[k][j]) {
      forall k, j | 0 <= k < |items| && 0 <= j < |Headers|
        ensures PlainCell(Row(items[k], show)[j])
      {
        assert rows[k + 1] == Row(items[k], show);
      }
    }
  }

  /** An item without a result exports empty result cells; a present `false`
      or 0 is written out, not emptied, since `??` only replaces undefined
      and null. */
  lemma ResultCells(item: BatchItem, show: real -> string)
    ensures item.result.None? ==> Row(item, show)[4..] == ["", "", "", ""]
    ensures item.result.Some? && Prop(item.result.value, "solarInstalled") == Some(JBool(false)) ==>
      Row(item, show)[4] == "false"
    ensures item.result.Some? && Prop(item.result.value, "confidence") == Some(JNum(0.0)) ==>
      Row(item, show)[5] == show(0.0)
  {
  }

  /** A result with the declared shape exports its flag, confidence, roof
      type label and timestamp. */
  lemma TypedResultCells(item: BatchItem, r: VerificationResult, show: real -> string)
    requires item.result == Some(Encode(r))
    ensures Row(item, show)[4..] ==
      [if r.solarInstalled then "true" else "false", show(r.confidence), RoofTypeName(r.roofType), r.timestamp]
  {
  }

  /** With no results yet, every cell is plain once the ids are: the
      status labels and the numbers never hold a `,` or a line break, and
      the result cells are empty. */
  lemma {:induction false} UnanalysedExportPlain(items: seq<BatchItem>, show: real -> string)
    requires PlainNumbers(show)
    requires forall k :: 0 <= k < |items| ==> PlainCell(items[k].id) && items[k].result.None?
    ensures PlainExport(items, show)
  {
    forall k, j | 0 <= k < |items| && 0 <= j < |Headers|
      ensures PlainCell(Row(items[k], show)[j])
    {
      var item := items[k];
      assert PlainCell(show(item.lat)) && PlainCell(show(item.lng));
      assert PlainCell(StatusName(item.status));
    }
  }

  /** The seed list exports as six lines of eight fields: the header, then
      one line per seeded item. */
  lemma {:induction false} InitialExportReadsBack(show: real -> string)
    requires PlainNumbers(show)
    ensures Rectangular(ExportCsv(InitialBatch(), show), 6, 8)
  {
    var items := InitialBatch();
    InitialIdsPlain();
    UnanalysedExportPlain(items, show);
    ExportRectangularIffPlain(items, show);
  }

  lemma InitialIdsPlain()
    ensures forall k :: 0 <= k < |InitialBatch()| ==> PlainCell(InitialBatch()[k].id)
  {
    var items := InitialBatch();
    forall k | 0 <= k < |items|
      ensures PlainCell(items[k].id)
    {
      assert items[k].id == "BATCH-00" + [Digit(k + 1)];
    }
  }

  /** A canned relay verdict exports as plain cells ("true", its confidence,
      "Flat / Industrial", its numeric timestamp), so batches answered by
      the fallback still read back as a clean table. */
  lemma FallbackRowPlain(item: BatchItem, now: int, show: real -> string)
    requires PlainNumbers(show) && PlainCell(item.id)
    requires item.result == Some(Relay.FallbackBody(now))
    ensures forall j :: 0 <= j < |Headers| ==> PlainCell(Row(item, show)[j])
    ensures Row(item, show)[4..] == ["true", show(89.6), "Flat / Industrial", show(now as real)]
  {
    assert ResultField(item.result, "solarInstalled") == Some(JBool(true));
    assert ResultField(item.result, "confidence") == Some(JNum(89.6));
    assert ResultField(item.result, "roofType") == Some(JStr("Flat / Industrial"));
    assert ResultField(item.result, "timestamp") == Some(JNum(now as real));
    assert PlainCell(show(item.lat)) && PlainCell(show(item.lng));
    assert PlainCell(show(89.6)) && PlainCell(show(now as real));
    assert PlainCell(StatusName(item.status));
    assert PlainCell("Flat / Industrial");
  }

  /** The CSV cannot tell a canned relay verdict from a model answer that
      happens to say the same: the `fallback` marker has no column, so an
      item holding the canned verdict exports the same row as one holding
      the success body of `{solarInstalled: true, confidence: 89.6,
      roofType: "Flat / Industrial"}` stamped at the same time. */
  lemma FallbackExportsLikeAnswer(item: BatchItem, now: int, show: real -> string)
    ensures var data := JObj(map["solarInstalled" := JBool(true), "confidence" := JNum(89.6),
                                 "roofType" := JStr("Flat / Industrial")]);
      Row(item.(result := Some(Relay.FallbackBody(now))), show) ==
      Row(item.(result := Some(Relay.SuccessBody(data, now))), show)
  {
    var data := JObj(map["solarInstalled" := JBool(true), "confidence" := JNum(89.6),
                         "roofType" := JStr("Flat / Industrial")]);
    var a := Some(Relay.FallbackBody(now));
    var b := Some(Relay.SuccessBody(data, now));
    assert ResultField(a, "solarInstalled") == ResultField(b, "solarInstalled");
    assert ResultField(a, "confidence") == ResultField(b, "confidence");
    assert ResultField(a, "roofType") == ResultField(b, "roofType");
    assert ResultField(a, "timestamp") == ResultField(b, "timestamp");
  }
}
