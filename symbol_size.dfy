/** The population-to-marker-size classifier and its breakpoint table. */
module SymbolSize {
  import opened JsNumbers

  /** One breakpoint: a value strictly below `value` is drawn with `size`; the legend
      shows `legendLabel` (the `label` field, renamed because `label` is a Dafny keyword). */
  datatype Stop = Stop(value: real, size: nat, legendLabel: string)

  /** The breakpoint table, in scan order. */
  const STOPS: seq<Stop> := [
    Stop(10000.0, 4, "<10000"),
    Stop(20000.0, 8, "<20000"),
    Stop(30000.0, 12, "<30000"),
    Stop(40000.0, 14, ">40000")
  ]

  /** Thresholds strictly increase along the table and sizes never decrease. */
  predicate Ascending(stops: seq<Stop>)
  {
    forall j, k :: 0 <= j < k < |stops| ==> stops[j].value < stops[k].value && stops[j].size <= stops[k].size
  }

  /** The size of the first stop, in table order, whose threshold is strictly greater
      than `v`; when there is none, the size of the last stop (the overflow bucket).
      Total on every non-empty table, and always one of the table's sizes. */
  function Classify(v: JsValue, stops: seq<Stop>): (size: nat)
    requires stops != []
    ensures exists i :: 0 <= i < |stops| && stops[i].size == size
    decreases |stops|
  {
    if LessThan(v, stops[0].value) || |stops| == 1 then
      stops[0].size
    else
      var rest := Classify(v, stops[1..]);
      assert exists i :: 0 <= i < |stops| - 1 && stops[1..][i].size == rest;
      rest
  }

  /** The scan itself: walks the table and returns on the first threshold above `value`. */
  method GetSymbolSize(value: JsValue) returns (size: nat)
    ensures size == Classify(value, STOPS)
  {
    for i := 0 to |STOPS|
      invariant forall j :: 0 <= j < i ==> !LessThan(value, STOPS[j].value)
    {
      if LessThan(value, STOPS[i].value) {
        ClassifyPicksFirstAbove(value, STOPS, i);
        return STOPS[i].size;
      }
    }
    ClassifyFallsToLast(value, STOPS);
    return STOPS[|STOPS| - 1].size;
  }

  /** If stop `i` is the first whose threshold exceeds `v`, its size is the answer. */
  lemma {:induction false} ClassifyPicksFirstAbove(v: JsValue, stops: seq<Stop>, i: nat)
    requires i < |stops|
    requires LessThan(v, stops[i].value)
    requires forall j :: 0 <= j < i ==> !LessThan(v, stops[j].value)
    ensures Classify(v, stops) == stops[i].size
  {
    if i > 0 {
      assert !LessThan(v, stops[0].value);
      ClassifyPicksFirstAbove(v, stops[1..], i - 1);
    }
  }

  /** If no threshold exceeds `v`, the last stop's size is the answer. */
  lemma {:induction false} ClassifyFallsToLast(v: JsValue, stops: seq<Stop>)
    requires stops != []
    requires forall j :: 0 <= j < |stops| ==> !LessThan(v, stops[j].value)
    ensures Classify(v, stops) == stops[|stops| - 1].size
  {
    if |stops| > 1 {
      ClassifyFallsToLast(v, stops[1..]);
    }
  }

  /** On an ascending table, a number in `[stops[i-1].value, stops[i].value)` gets
      `stops[i].size`: a value equal to a threshold falls into the next bucket, and
      anything below the first threshold, negative values included, gets the first size. */
  lemma ClassifyBand(v: real, stops: seq<Stop>, i: nat)
    requires Ascending(stops) && i < |stops|
    requires i == 0 || stops[i - 1].value <= v
    requires v < stops[i].value
    ensures Classify(Finite(v), stops) == stops[i].size
  {
    forall j | 0 <= j < i
      ensures !LessThan(Finite(v), stops[j].value)
    {
      assert j < i - 1 ==> stops[j].value < stops[i - 1].value;
    }
    ClassifyPicksFirstAbove(Finite(v), stops, i);
  }

  /** On an ascending table, any number at or above the last threshold, however large,
      gets the last size: the overflow bucket has no upper bound. */
  lemma {:induction false} ClassifyOverflow(v: real, stops: seq<Stop>)
    requires Ascending(stops) && stops != []
    requires stops[|stops| - 1].value <= v
    ensures Classify(Finite(v), stops) == stops[|stops| - 1].size
  {
    forall j | 0 <= j < |stops|
      ensures !LessThan(Finite(v), stops[j].value)
    {
      assert j < |stops| - 1 ==> stops[j].value < stops[|stops| - 1].value;
    }
    ClassifyFallsToLast(Finite(v), stops);
  }

  /** On an ascending table the size never decreases as the value grows. */
  lemma {:induction false} ClassifyMonotone(a: real, b: real, stops: seq<Stop>)
    requires Ascending(stops) && stops != []
    requires a <= b
    ensures Classify(Finite(a), stops) <= Classify(Finite(b), stops)
  {
    if a < stops[0].value {
      var i :| 0 <= i < |stops| && stops[i].size == Classify(Finite(b), stops);
      assert i > 0 ==> stops[0].size <= stops[i].size;
    } else if |stops| > 1 {
      AscendingTail(stops);
      ClassifyMonotone(a, b, stops[1..]);
    }
  }

  /** Dropping the first stop keeps a table ascending. */
  lemma AscendingTail(stops: seq<Stop>)
    requires Ascending(stops) && stops != []
    ensures Ascending(stops[1..])
  {
  }

  /** `null` is classified as the number 0. */
  lemma {:induction false} ClassifyNullAsZero(stops: seq<Stop>)
    requires stops != []
    ensures Classify(Null, stops) == Classify(Finite(0.0), stops)
  {
    if |stops| > 1 {
      ClassifyNullAsZero(stops[1..]);
    }
  }

  /** A missing (`undefined`) or NaN value is below no threshold, so it lands in the
      overflow bucket, as does +Infinity; -Infinity lands in the first bucket. */
  lemma {:induction false} ClassifyNonNumbers(stops: seq<Stop>)
    requires stops != []
    ensures Classify(Undefined, stops) == stops[|stops| - 1].size
    ensures Classify(NaN, stops) == stops[|stops| - 1].size
    ensures Classify(PosInfinity, stops) == stops[|stops| - 1].size
    ensures Classify(NegInfinity, stops) == stops[0].size
  {
    ClassifyFallsToLast(Undefined, stops);
    ClassifyFallsToLast(NaN, stops);
    ClassifyFallsToLast(PosInfinity, stops);
  }

  /** The shipped table is ascending. */
  lemma StopsAscending()
    ensures Ascending(STOPS)
  {
  }

  /** The buckets of the shipped table: below 10000 (negative values included) gives 4;
      a value equal to a threshold falls into the next bucket; 30000 and above gives 14. */
  lemma SymbolSizeBands(v: real)
    ensures v < 10000.0 ==> Classify(Finite(v), STOPS) == 4
    ensures 10000.0 <= v < 20000.0 ==> Classify(Finite(v), STOPS) == 8
    ensures 20000.0 <= v < 30000.0 ==> Classify(Finite(v), STOPS) == 12
    ensures 30000.0 <= v < 40000.0 ==> Classify(Finite(v), STOPS) == 14
    ensures 40000.0 <= v ==> Classify(Finite(v), STOPS) == 14
    ensures Classify(Finite(v), STOPS) in {4, 8, 12, 14}
  {
    StopsAscending();
    if v < 10000.0 {
      ClassifyBand(v, STOPS, 0);
    } else if v < 20000.0 {
      ClassifyBand(v, STOPS, 1);
    } else if v < 30000.0 {
      ClassifyBand(v, STOPS, 2);
    } else if v < 40000.0 {
      ClassifyBand(v, STOPS, 3);
    } else {
      ClassifyOverflow(v, STOPS);
    }
  }

  /** What the shipped table gives a population that is not a number: `null` counts as
      0 and gets 4, while a missing attribute (`undefined`) or NaN gets 14. */
  lemma SymbolSizeOfNonNumbers()
    ensures Classify(Null, STOPS) == 4
    ensures Classify(Undefined, STOPS) == 14
    ensures Classify(NaN, STOPS) == 14
  {
    ClassifyNullAsZero(STOPS);
    SymbolSizeBands(0.0);
    ClassifyNonNumbers(STOPS);
  }
}
