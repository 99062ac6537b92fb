/** The line chart's data: the two generated series zipped into one row per
    day, the selector that picks what the chart plots, and the filters that
    keep only the PV and UU series in the tooltip and the legend. */
module ChartData {
  import opened JsMath
  import opened JsText
  import opened Optional
  import opened Traffic

  // ---------------------------------------------------------------------
  // The combined series

  /** One row of the "both" view: the press date and both series' numbers. */
  datatype CombinedPoint = CombinedPoint(date: string, pvPress: int, uuPress: int, pvStory: int, uuStory: int)

  /** The zip as a recursive definition: pair the heads, stop at the end of
      the shorter series. */
  function Zip(press: seq<TrafficPoint>, story: seq<TrafficPoint>): seq<CombinedPoint>
    decreases |press|
  {
    if press == [] || story == [] then []
    else [CombinedPoint(press[0].date, press[0].pv, press[0].uu, story[0].pv, story[0].uu)]
         + Zip(press[1..], story[1..])
  }

  /** The zip is as long as the shorter series, and row `i` carries the date
      and numbers of press day `i` and the numbers of story day `i`. */
  lemma {:induction false} ZipEntries(press: seq<TrafficPoint>, story: seq<TrafficPoint>)
    ensures |Zip(press, story)| == MinInt(|press|, |story|)
    ensures forall i :: 0 <= i < |Zip(press, story)| ==>
              Zip(press, story)[i] == CombinedPoint(press[i].date, press[i].pv, press[i].uu, story[i].pv, story[i].uu)
    decreases |press|
  {
    if press != [] && story != [] {
      ZipEntries(press[1..], story[1..]);
      var z := Zip(press, story);
      forall i | 0 <= i < |z|
        ensures z[i] == CombinedPoint(press[i].date, press[i].pv, press[i].uu, story[i].pv, story[i].uu)
      {
        if i > 0 {
          assert z[i] == Zip(press[1..], story[1..])[i - 1];
        }
      }
    }
  }

  /** The `combinedData` loop: one row per index below the shorter length. */
  method CombineSeries(press: seq<TrafficPoint>, story: seq<TrafficPoint>) returns (combined: seq<CombinedPoint>)
    ensures |combined| == MinInt(|press|, |story|)
    ensures forall i :: 0 <= i < |combined| ==>
              && combined[i].date == press[i].date
              && combined[i].pvPress == press[i].pv && combined[i].uuPress == press[i].uu
              && combined[i].pvStory == story[i].pv && combined[i].uuStory == story[i].uu
    ensures combined == Zip(press, story)
  {
    var len := MinInt(|press|, |story|);
    combined := [];
    var i := 0;
    while i < len
      invariant 0 <= i <= len
      invariant |combined| == i
      invariant forall k :: 0 <= k < i ==>
                  combined[k] == CombinedPoint(press[k].date, press[k].pv, press[k].uu, story[k].pv, story[k].uu)
    {
      combined := combined + [CombinedPoint(press[i].date, press[i].pv, press[i].uu, story[i].pv, story[i].uu)];
      i := i + 1;
    }
    ZipEntries(press, story);
  }

  /** The press half of a combined row, as a traffic point. */
  function PressSide(c: CombinedPoint): TrafficPoint {
    TrafficPoint(c.date, c.pvPress, c.uuPress)
  }

  /** The story half of a combined row, carrying the press date. */
  function StorySide(c: CombinedPoint): TrafficPoint {
    TrafficPoint(c.date, c.pvStory, c.uuStory)
  }

  /** Projecting the zip back gives the press series cut to the shorter
      length, and the story series too wherever the two share their dates. */
  lemma ZipProjections(press: seq<TrafficPoint>, story: seq<TrafficPoint>)
    ensures var z := Zip(press, story);
      && |z| <= |press| && |z| <= |story|
      && (forall i :: 0 <= i < |z| ==> PressSide(z[i]) == press[i])
      && (forall i :: 0 <= i < |z| && press[i].date == story[i].date ==> StorySide(z[i]) == story[i])
  {
    ZipEntries(press, story);
  }

  /** The generator's invariant holds per row of the zip when it holds for
      both series. */
  lemma ZipKeepsTrafficInvariant(press: seq<TrafficPoint>, story: seq<TrafficPoint>)
    requires forall i :: 0 <= i < |press| ==> TrafficInvariant(press[i])
    requires forall i :: 0 <= i < |story| ==> TrafficInvariant(story[i])
    ensures forall i :: 0 <= i < |Zip(press, story)| ==>
              TrafficInvariant(PressSide(Zip(press, story)[i])) && TrafficInvariant(StorySide(Zip(press, story)[i]))
  {
    ZipEntries(press, story);
  }

  // ---------------------------------------------------------------------
  // The data selector

  /** What the chart plots: one of the generated series, or the zip. */
  datatype ChartRows = TrafficRows(points: seq<TrafficPoint>) | CombinedRows(rows: seq<CombinedPoint>)

  /** The `data` selector. */
  function SelectData(key: DatasetKey, press: seq<TrafficPoint>, story: seq<TrafficPoint>): ChartRows {
    if key == Press then TrafficRows(press)
    else if key == Story then TrafficRows(story)
    else CombinedRows(Zip(press, story))
  }

  /** Each key plots its own series: the press and story keys their series
      unchanged, and "both" (the only key that plots combined rows) the zip,
      whose rows read back as the press series cut to the shorter length. */
  lemma SelectDataPicks(key: DatasetKey, press: seq<TrafficPoint>, story: seq<TrafficPoint>)
    ensures key == Press ==> SelectData(key, press, story) == TrafficRows(press)
    ensures key == Story ==> SelectData(key, press, story) == TrafficRows(story)
    ensures SelectData(key, press, story).CombinedRows? <==> key == Both
    ensures key == Both ==>
              var rows := SelectData(key, press, story).rows;
              && |rows| == MinInt(|press|, |story|)
              && forall i :: 0 <= i < |rows| ==> PressSide(rows[i]) == press[i]
  {
    ZipEntries(press, story);
  }

  // ---------------------------------------------------------------------
  // Tooltip and legend filters

  /** The JavaScript values a payload field can hold, as far as the filters
      care: a string, a number, or nothing. */
  datatype JsValue = JsString(text: string) | JsNumber(number: real) | JsUndefined

  /** A tooltip payload entry, or a falsy entry in the array. */
  datatype PayloadItem = PayloadItem(name: JsValue, value: JsValue, color: JsValue) | NullPayloadItem

  /** A legend payload entry, or a falsy entry in the array. */
  datatype LegendItem = LegendItem(value: JsValue, color: JsValue) | NullLegendItem

  /** A series name the chart shows: a string starting with "PV" or "UU". */
  predicate IsSeriesName(v: JsValue) {
    v.JsString? && (StartsWith(v.text, "PV") || StartsWith(v.text, "UU"))
  }

  predicate KeepInTooltip(p: PayloadItem) {
    p.PayloadItem? && IsSeriesName(p.name)
  }

  predicate KeepInLegend(e: LegendItem) {
    e.LegendItem? && IsSeriesName(e.value)
  }

  /** `Array.prototype.filter`. */
  function Filter<T>(xs: seq<T>, keep: T -> bool): (ys: seq<T>)
    ensures |ys| <= |xs|
    ensures forall k :: 0 <= k < |ys| ==> keep(ys[k]) && ys[k] in xs
    decreases |xs|
  {
    if xs == [] then []
    else if keep(xs[0]) then [xs[0]] + Filter(xs[1..], keep)
    else Filter(xs[1..], keep)
  }

  /** Filtering distributes over concatenation, so kept items keep their
      relative order. */
  lemma {:induction false} FilterAppend<T>(xs: seq<T>, zs: seq<T>, keep: T -> bool)
    ensures Filter(xs + zs, keep) == Filter(xs, keep) + Filter(zs, keep)
    decreases |xs|
  {
    if xs == [] {
      assert xs + zs == zs;
    } else {
      assert (xs + zs)[0] == xs[0];
      assert (xs + zs)[1..] == xs[1..] + zs;
      FilterAppend(xs[1..], zs, keep);
    }
  }

  /** Every item the predicate accepts survives. */
  lemma {:induction false} FilterComplete<T>(xs: seq<T>, keep: T -> bool)
    ensures forall k :: 0 <= k < |xs| && keep(xs[k]) ==> xs[k] in Filter(xs, keep)
    decreases |xs|
  {
    if xs != [] {
      FilterComplete(xs[1..], keep);
      assert forall k :: 1 <= k < |xs| ==> xs[k] == xs[1..][k - 1];
    }
  }

  /** Nothing survives exactly when the predicate accepts no item. */
  lemma {:induction false} FilterEmptyIff<T>(xs: seq<T>, keep: T -> bool)
    ensures Filter(xs, keep) == [] <==> forall k :: 0 <= k < |xs| ==> !keep(xs[k])
    decreases |xs|
  {
    if xs != [] {
      FilterEmptyIff(xs[1..], keep);
      assert forall k :: 1 <= k < |xs| ==> xs[k] == xs[1..][k - 1];
    }
  }

  /** `CustomTooltip`: nothing unless active with a non-empty payload, then
      the series entries, and nothing when none is left. */
  function TooltipRows(active: bool, payload: Option<seq<PayloadItem>>): (r: Option<seq<PayloadItem>>)
    ensures r.Some? <==> active && payload.Some?
                         && exists k :: 0 <= k < |payload.value| && KeepInTooltip(payload.value[k])
    ensures r.Some? ==> r.value == Filter(payload.value, KeepInTooltip)
  {
    if !active || payload.None? || |payload.value| == 0 then None
    else
      var items := Filter(payload.value, KeepInTooltip);
      FilterEmptyIff(payload.value, KeepInTooltip);
      if |items| == 0 then None else Some(items)
  }

  /** `CustomLegend`: nothing without a payload, then the series entries, and
      nothing when none is left. */
  function LegendRows(payload: Option<seq<LegendItem>>): (r: Option<seq<LegendItem>>)
    ensures r.Some? <==> payload.Some? && exists k :: 0 <= k < |payload.value| && KeepInLegend(payload.value[k])
    ensures r.Some? ==> r.value == Filter(payload.value, KeepInLegend)
  {
    if payload.None? then None
    else
      var items := Filter(payload.value, KeepInLegend);
      FilterEmptyIff(payload.value, KeepInLegend);
      if |items| == 0 then None else Some(items)
  }

  /** The rows a tooltip shows are exactly its series entries, in payload
      order: each shown row is a series entry from the payload, and every
      series entry of the payload is shown. */
  lemma TooltipShowsExactlySeries(active: bool, payload: seq<PayloadItem>)
    ensures var r := TooltipRows(active, Some(payload));
      r.Some? ==>
        && (forall k :: 0 <= k < |r.value| ==> KeepInTooltip(r.value[k]) && r.value[k] in payload)
        && (forall k :: 0 <= k < |payload| && KeepInTooltip(payload[k]) ==> payload[k] in r.value)
  {
    FilterComplete(payload, KeepInTooltip);
  }

  /** The same for the legend. */
  lemma LegendShowsExactlySeries(payload: seq<LegendItem>)
    ensures var r := LegendRows(Some(payload));
      r.Some? ==>
        && (forall k :: 0 <= k < |r.value| ==> KeepInLegend(r.value[k]) && r.value[k] in payload)
        && (forall k :: 0 <= k < |payload| && KeepInLegend(payload[k]) ==> payload[k] in r.value)
  {
    FilterComplete(payload, KeepInLegend);
  }

  /** A concrete payload: the area series, which has no name of its own and
      so is named after its data key "uu", is dropped because `startsWith`
      is case-sensitive; an unnamed entry is dropped too; the PV and UU lines
      are kept in order. */
  lemma TooltipExample()
    ensures var area := PayloadItem(JsString("uu"), JsNumber(28.0), JsUndefined);
      var pv := PayloadItem(JsString("PV（プレス）"), JsNumber(30.0), JsString("#3b82f6"));
      var uu := PayloadItem(JsString("UU（プレス）"), JsNumber(28.0), JsString("#10b981"));
      var anon := PayloadItem(JsUndefined, JsNumber(1.0), JsUndefined);
      TooltipRows(true, Some([area, pv, anon, uu])) == Some([pv, uu])
  {
    var area := PayloadItem(JsString("uu"), JsNumber(28.0), JsUndefined);
    var pv := PayloadItem(JsString("PV（プレス）"), JsNumber(30.0), JsString("#3b82f6"));
    var uu := PayloadItem(JsString("UU（プレス）"), JsNumber(28.0), JsString("#10b981"));
    var anon := PayloadItem(JsUndefined, JsNumber(1.0), JsUndefined);
    assert !KeepInTooltip(area) by {
      assert "uu"[0] == 'u';
      assert !("PV" <= "uu") && !("UU" <= "uu");
    }
    assert KeepInTooltip(pv);
    assert KeepInTooltip(uu);
    assert Filter([uu], KeepInTooltip) == [uu] by {
      assert [uu][1..] == [];
    }
    assert Filter([anon, uu], KeepInTooltip) == [uu] by {
      assert [anon, uu][1..] == [uu];
    }
    assert Filter([pv, anon, uu], KeepInTooltip) == [pv, uu] by {
      assert [pv, anon, uu][1..] == [anon, uu];
    }
    assert Filter([area, pv, anon, uu], KeepInTooltip) == [pv, uu] by {
      assert [area, pv, anon, uu][1..] == [pv, anon, uu];
    }
  }
}
