/**
 * `extract_info_data`: label/value pairs of the info sheet (label in column
 * A, value in column B) stored under snake_case keys, with a `_labels` entry
 * mapping each key back to the label it came from.
 */
module MetricsExtractor {
  import opened Strings
  import opened Collections
  import opened Sheets
  import opened Normalize

  /** Metric keys never begin with `_`, so none of them is `_labels`. */
  lemma MetricKeyIsNotLabels(labelText: string)
    ensures NormalizeKey(labelText) != "_labels"
  {
  }

  // ---------------------------------------------------------- the info sheet

  /** Labels that mark a header or non-data row, compared lower-cased. */
  const ReservedLabels: seq<string> := ["", "label", "metric", "name", "description", "info"]

  /** A stripped label that names a metric: non-empty, not reserved, not a `#` comment. */
  predicate IsMetricLabel(labelText: string) {
    labelText != "" && Lower(labelText) !in ReservedLabels && !StartsWith(labelText, "#")
  }

  function RowLabel(sheet: Sheet, row: int): string {
    Strip(Str(sheet.At(row, ColA)))
  }

  /** A row whose label and value are stored. */
  predicate IsMetricRow(sheet: Sheet, row: int) {
    sheet.At(row, ColA) != Empty && IsMetricLabel(RowLabel(sheet, row)) &&
    sheet.At(row, ColB) != Empty && NormalizeKey(RowLabel(sheet, row)) != ""
  }

  /** What one metric row stores: the value under the key, the label under the same key. */
  datatype Metric = Metric(key: string, labelText: string, value: Cell)

  function MetricAt(sheet: Sheet, row: int): Metric {
    Metric(NormalizeKey(RowLabel(sheet, row)), RowLabel(sheet, row), sheet.At(row, ColB))
  }

  /** The metric rows among 1..n, in row order. */
  function MetricsUpTo(sheet: Sheet, n: int): seq<Metric>
    decreases n
  {
    if n < 1 then []
    else
      var found := if IsMetricRow(sheet, n) then [MetricAt(sheet, n)] else [];
      MetricsUpTo(sheet, n - 1) + found
  }

  /** A value of the info dict: a cell value, or the `_labels` mapping. */
  datatype InfoValue = Scalar(value: Cell) | LabelMap(labels: Dict<string, string>)

  type InfoData = Dict<string, InfoValue>

  /** `info_data[key] = value` for each metric in turn. */
  function ValuesOf(ms: seq<Metric>): (d: InfoData)
    ensures d.Valid()
  {
    if ms == [] then NewDict()
    else
      var m := ms[|ms| - 1];
      ValuesOf(ms[..|ms| - 1]).Put(m.key, Scalar(m.value))
  }

  /** `label_mapping[key] = label` for each metric in turn. */
  function LabelsOf(ms: seq<Metric>): (d: Dict<string, string>)
    ensures d.Valid()
  {
    if ms == [] then NewDict()
    else
      var m := ms[|ms| - 1];
      LabelsOf(ms[..|ms| - 1]).Put(m.key, m.labelText)
  }

  /** The result of `extract_info_data`. */
  function Info(sheet: Sheet): InfoData {
    var ms := MetricsUpTo(sheet, sheet.maxRow);
    var labels := LabelsOf(ms);
    if labels.keys != [] then ValuesOf(ms).Put("_labels", LabelMap(labels)) else ValuesOf(ms)
  }

  lemma FoldStep(ms: seq<Metric>, m: Metric)
    ensures ValuesOf(ms + [m]) == ValuesOf(ms).Put(m.key, Scalar(m.value))
    ensures LabelsOf(ms + [m]) == LabelsOf(ms).Put(m.key, m.labelText)
  {
    assert (ms + [m])[..|ms|] == ms;
  }

  /** `extract_info_data`. */
  method ExtractInfo(sheet: Sheet) returns (info: InfoData)
    ensures info == Info(sheet)
  {
    info := NewDict();
    var labels: Dict<string, string> := NewDict();
    for row := 1 to sheet.maxRow + 1
      invariant info == ValuesOf(MetricsUpTo(sheet, row - 1))
      invariant labels == LabelsOf(MetricsUpTo(sheet, row - 1))
    {
      ghost var before := MetricsUpTo(sheet, row - 1);
      var labelCell := sheet.At(row, ColA);
      var valueCell := sheet.At(row, ColB);
      if labelCell != Empty {
        var labelText := Strip(Str(labelCell));
        if IsMetricLabel(labelText) {
          if valueCell != Empty {
            var key := NormalizeKey(labelText);
            if key != "" {
              assert MetricsUpTo(sheet, row) == before + [Metric(key, labelText, valueCell)];
              FoldStep(before, Metric(key, labelText, valueCell));
              info := info.Put(key, Scalar(valueCell));
              labels := labels.Put(key, labelText);
            } else {
              assert MetricsUpTo(sheet, row) == before;
            }
          } else {
            assert MetricsUpTo(sheet, row) == before;
          }
        } else {
          assert MetricsUpTo(sheet, row) == before;
        }
      } else {
        assert MetricsUpTo(sheet, row) == before;
      }
    }
    if labels.keys != [] {
      info := info.Put("_labels", LabelMap(labels));
    }
  }

  /**
   * Every stored metric comes from a metric row: its key is the normalized
   * label, never empty, and its value is a non-empty column B cell.
   */
  lemma {:induction false} MetricsFromRows(sheet: Sheet, n: int, i: int)
    requires 0 <= i < |MetricsUpTo(sheet, n)|
    ensures exists r :: 1 <= r <= n && IsMetricRow(sheet, r) && MetricsUpTo(sheet, n)[i] == MetricAt(sheet, r)
    ensures MetricsUpTo(sheet, n)[i].key == NormalizeKey(MetricsUpTo(sheet, n)[i].labelText)
    ensures MetricsUpTo(sheet, n)[i].key != "" && MetricsUpTo(sheet, n)[i].value != Empty
    decreases n
  {
    if i < |MetricsUpTo(sheet, n - 1)| {
      MetricsFromRows(sheet, n - 1, i);
    }
  }

  /** Conversely, every metric row among 1..n is stored. */
  lemma {:induction false} MetricRowsStored(sheet: Sheet, n: int, r: int)
    requires 1 <= r <= n && IsMetricRow(sheet, r)
    ensures MetricAt(sheet, r) in MetricsUpTo(sheet, n)
    decreases n
  {
    if r < n {
      MetricRowsStored(sheet, n - 1, r);
    }
  }

  /**
   * A row with an accepted label, a present value and a non-empty key puts
   * its key in the info dict, and its label under that key in `_labels`.
   */
  lemma MetricRowInInfo(sheet: Sheet, r: int)
    requires 1 <= r <= sheet.maxRow && IsMetricRow(sheet, r)
    ensures NormalizeKey(RowLabel(sheet, r)) in Info(sheet).entries
    ensures "_labels" in Info(sheet).entries
    ensures NormalizeKey(RowLabel(sheet, r)) in LabelsOf(MetricsUpTo(sheet, sheet.maxRow)).entries
  {
    var ms := MetricsUpTo(sheet, sheet.maxRow);
    MetricRowsStored(sheet, sheet.maxRow, r);
    var i :| 0 <= i < |ms| && ms[i] == MetricAt(sheet, r);
    LabelsMatchValues(ms);
    InfoShape(sheet);
  }

  /**
   * The label mapping has exactly the metric keys, in the same order: every
   * stored metric has its original label, and only stored metrics do.
   */
  lemma {:induction false} LabelsMatchValues(ms: seq<Metric>)
    ensures LabelsOf(ms).keys == ValuesOf(ms).keys
    ensures forall k :: k in ValuesOf(ms).entries <==> exists i :: 0 <= i < |ms| && ms[i].key == k
  {
    if ms != [] {
      var init, last := ms[..|ms| - 1], ms[|ms| - 1];
      LabelsMatchValues(init);
      forall k
        ensures k in ValuesOf(ms).entries <==> exists i :: 0 <= i < |ms| && ms[i].key == k
      {
        if k == last.key {
          assert ms[|ms| - 1].key == k;
        } else if exists i :: 0 <= i < |ms| && ms[i].key == k {
          var i :| 0 <= i < |ms| && ms[i].key == k;
          assert init[i].key == k;
        }
      }
    }
  }

  /**
   * The stored value of a key is the value of the last metric with that key,
   * and its label is that metric's label.
   */
  lemma {:induction false} LastMetricWins(ms: seq<Metric>, i: int)
    requires 0 <= i < |ms|
    requires forall j :: i < j < |ms| ==> ms[j].key != ms[i].key
    ensures ms[i].key in ValuesOf(ms).entries && ValuesOf(ms).entries[ms[i].key] == Scalar(ms[i].value)
    ensures ms[i].key in LabelsOf(ms).entries && LabelsOf(ms).entries[ms[i].key] == ms[i].labelText
  {
    if i < |ms| - 1 {
      var init := ms[..|ms| - 1];
      LastMetricWins(init, i);
    }
  }

  /** No metric key is `_labels`, so the metadata entry overwrites none of them. */
  lemma {:induction false} NoMetricNamedLabels(sheet: Sheet, n: int)
    ensures "_labels" !in ValuesOf(MetricsUpTo(sheet, n)).entries
  {
    var ms := MetricsUpTo(sheet, n);
    LabelsMatchValues(ms);
    forall i | 0 <= i < |ms|
      ensures ms[i].key != "_labels"
    {
      MetricsFromRows(sheet, n, i);
      MetricKeyIsNotLabels(ms[i].labelText);
    }
  }

  /**
   * The info dict holds the metrics in order of first appearance, then
   * `_labels` exactly when some metric was stored; that entry maps every
   * metric key to its label and overwrites none of them.
   */
  lemma InfoShape(sheet: Sheet)
    ensures Info(sheet).Valid()
    ensures "_labels" in Info(sheet).entries <==> MetricsUpTo(sheet, sheet.maxRow) != []
    ensures "_labels" in Info(sheet).entries ==>
      Info(sheet).keys == ValuesOf(MetricsUpTo(sheet, sheet.maxRow)).keys + ["_labels"] &&
      Info(sheet).entries["_labels"] == LabelMap(LabelsOf(MetricsUpTo(sheet, sheet.maxRow)))
    ensures forall k :: k in ValuesOf(MetricsUpTo(sheet, sheet.maxRow)).entries ==>
      k in Info(sheet).entries && Info(sheet).entries[k] == ValuesOf(MetricsUpTo(sheet, sheet.maxRow)).entries[k]
  {
    var ms := MetricsUpTo(sheet, sheet.maxRow);
    LabelsMatchValues(ms);
    NoMetricNamedLabels(sheet, sheet.maxRow);
    if ms != [] {
      assert ms[0].key in ValuesOf(ms).entries;
    }
  }
}
