/**
  `getPivotDropdownOptions(indexPattern)` of the data frame pivot editor: every aggregatable
  field of an index pattern (other than `_id`, `_index` and `_type`) offers the group-by and
  aggregation choices its type supports, each as a dropdown label `agg(field)` with a
  configuration record keyed by that label.
*/
module PivotOptions {
  import opened Wrappers

  /** The field types of an index pattern (`KBN_FIELD_TYPES`). */
  datatype FieldType =
    | Attachment | Boolean | Date | GeoPoint | GeoShape | Ip | Murmur3 | Number | String | Source | Unknown | Conflict

  /** A field of the index pattern, as far as the options depend on it. */
  datatype IndexField = IndexField(name: string, kind: FieldType, aggregatable: bool)

  /**
    The configuration behind a dropdown label: the aggregation, the field, the label of its
    form row and, for histogram group-bys, the default interval.
  */
  datatype PivotConfig = PivotConfig(agg: string, field: string, formRowLabel: string, interval: Option<string>)

  /** A group of the aggregation dropdown: its title (the field name, the `label` of the EUI option) and one label per aggregation. */
  datatype OptionGroup = OptionGroup(title: string, options: seq<string>)

  datatype DropdownOptions = DropdownOptions(
    aggOptions: seq<OptionGroup>,
    aggOptionsData: map<string, PivotConfig>,
    groupByOptions: seq<string>,
    groupByOptionsData: map<string, PivotConfig>)

  /** Fields the pivot never offers. */
  const IgnoredFieldNames := ["_id", "_index", "_type"]

  /** `pivotAggsFieldSupport`: the aggregations each field type supports, in dropdown order. */
  function AggSupport(t: FieldType): seq<string>
  {
    if t == Number then ["avg", "max", "min", "sum", "value_count"] else ["value_count"]
  }

  /** `pivotGroupByFieldSupport`: the group-by aggregations each field type supports. */
  function GroupBySupport(t: FieldType): seq<string>
  {
    match t
    case Boolean => ["terms"]
    case Ip => ["terms"]
    case String => ["terms"]
    case Number => ["histogram"]
    case Date => ["date_histogram"]
    case _ => []
  }

  /** The default interval of a group-by: `'10'` for histograms, `'1m'` for date histograms. */
  function DefaultInterval(agg: string): Option<string>
  {
    if agg == "histogram" then Some("10")
    else if agg == "date_histogram" then Some("1m")
    else None
  }

  /** The dropdown label `agg(field)`. */
  function Label(agg: string, field: string): string
  {
    agg + "(" + field + ")"
  }

  /** The configuration recorded under `Label(agg, field)`. */
  function Config(agg: string, field: string): PivotConfig
  {
    PivotConfig(agg, field, agg + "_" + field, DefaultInterval(agg))
  }

  /** The fields offered: aggregatable ones whose name is not ignored, in index-pattern order. */
  function Usable(fields: seq<IndexField>): (us: seq<IndexField>)
    ensures forall f :: f in us <==> f in fields && f.aggregatable && f.name !in IgnoredFieldNames
  {
    if fields == [] then []
    else
      var f := fields[|fields| - 1];
      var init := fields[..|fields| - 1];
      assert fields == init + [f];
      Usable(init) + (if f.aggregatable && f.name !in IgnoredFieldNames then [f] else [])
  }

  /** `xs` is `ys` with some elements left out, the rest kept in their order. */
  predicate Subsequence<T(==)>(xs: seq<T>, ys: seq<T>)
    decreases |ys|
  {
    if ys == [] then xs == []
    else
      Subsequence(xs, ys[..|ys| - 1]) ||
      (xs != [] && xs[|xs| - 1] == ys[|ys| - 1] && Subsequence(xs[..|xs| - 1], ys[..|ys| - 1]))
  }

  /** The offered fields come in index-pattern order. */
  lemma {:induction false} UsableInOrder(fields: seq<IndexField>)
    ensures Subsequence(Usable(fields), fields)
  {
    if fields != [] {
      var init, f := fields[..|fields| - 1], fields[|fields| - 1];
      UsableInOrder(init);
      var us := Usable(fields);
      if f.aggregatable && f.name !in IgnoredFieldNames {
        assert us == Usable(init) + [f];
        assert us != [] && us[|us| - 1] == f && us[..|us| - 1] == Usable(init);
        assert fields[..|fields| - 1] == init && fields[|fields| - 1] == f;
      } else {
        assert us == Usable(init);
      }
    }
  }

  /** The labels of `aggs` on one field, in order. */
  function Labels(aggs: seq<string>, field: string): (ls: seq<string>)
    ensures forall l :: l in ls <==> exists a :: a in aggs && l == Label(a, field)
  {
    if aggs == [] then []
    else
      assert forall a :: a in aggs <==> a == aggs[0] || a in aggs[1..];
      [Label(aggs[0], field)] + Labels(aggs[1..], field)
  }

  /** `data[label] = config` for every aggregation of `aggs` in order. */
  function Record(data: map<string, PivotConfig>, aggs: seq<string>, field: string): map<string, PivotConfig>
    decreases |aggs|
  {
    if aggs == [] then data else Record(data[Label(aggs[0], field) := Config(aggs[0], field)], aggs[1..], field)
  }

  /** The options of one more field: its group-by labels, then its group of aggregation labels. */
  function AddField(o: DropdownOptions, f: IndexField): DropdownOptions
  {
    var aggs, groupBys := AggSupport(f.kind), GroupBySupport(f.kind);
    DropdownOptions(
      o.aggOptions + [OptionGroup(f.name, Labels(aggs, f.name))],
      Record(o.aggOptionsData, aggs, f.name),
      o.groupByOptions + Labels(groupBys, f.name),
      Record(o.groupByOptionsData, groupBys, f.name))
  }

  /** The options of `fields`, field after field. */
  function Collect(fields: seq<IndexField>): DropdownOptions
  {
    if fields == [] then DropdownOptions([], map[], [], map[])
    else AddField(Collect(fields[..|fields| - 1]), fields[|fields| - 1])
  }

  /**
    `getPivotDropdownOptions`: one aggregation group per offered field, in order and titled with
    the field name; the group-by dropdown lists exactly the labels the group-by data holds.
  */
  function GetPivotDropdownOptions(fields: seq<IndexField>): (o: DropdownOptions)
    ensures |o.aggOptions| == |Usable(fields)|
    ensures forall i :: 0 <= i < |o.aggOptions| ==> o.aggOptions[i].title == Usable(fields)[i].name
    ensures forall l :: l in o.groupByOptions <==> l in o.groupByOptionsData
  {
    var us := Usable(fields);
    CollectGroups(us);
    CollectData(us);
    CollectMenus(us);
    Collect(us)
  }

  /** Every name of a supported aggregation or group-by, none of which contains a parenthesis. */
  predicate Plain(agg: string)
  {
    '(' !in agg
  }

  lemma SupportedArePlain(t: FieldType)
    ensures forall a :: a in AggSupport(t) ==> Plain(a)
    ensures forall a :: a in GroupBySupport(t) ==> Plain(a)
  {
  }

  /** Labels are unambiguous: the label names its aggregation and its field. */
  lemma LabelInjective(a1: string, f1: string, a2: string, f2: string)
    requires Plain(a1) && Plain(a2) && Label(a1, f1) == Label(a2, f2)
    ensures a1 == a2 && f1 == f2
  {
    var l := Label(a1, f1);
    if |a1| < |a2| {
      Opening(a1, f1, a2, f2);
      assert false;
    } else if |a2| < |a1| {
      Opening(a2, f2, a1, f1);
      assert false;
    }
    assert a1 == l[..|a1|] == a2;
    assert f1 == l[|a1| + 1..|l| - 1] == f2;
  }

  /** The label of the shorter name has its opening parenthesis where the longer name goes on. */
  lemma Opening(a: string, f: string, b: string, g: string)
    requires |a| < |b|
    ensures Label(a, f)[|a|] == '(' && Label(b, g)[|a|] == b[|a|] && b[|a|] in b
  {
  }

  /** Every entry of `data` is the configuration its label names. */
  predicate Consistent(data: map<string, PivotConfig>)
  {
    forall l :: l in data ==> Plain(data[l].agg) && l == Label(data[l].agg, data[l].field) && data[l] == Config(data[l].agg, data[l].field)
  }

  /** In a consistent map the entry under `agg(field)` is that pair's configuration. */
  lemma ConsistentLookup(data: map<string, PivotConfig>, agg: string, field: string)
    requires Consistent(data) && Plain(agg) && Label(agg, field) in data
    ensures data[Label(agg, field)] == Config(agg, field)
  {
    var c := data[Label(agg, field)];
    LabelInjective(agg, field, c.agg, c.field);
  }

  /** Recording adds exactly the labels of `aggs` and keeps the map consistent. */
  lemma {:induction false} RecordSpec(data: map<string, PivotConfig>, aggs: seq<string>, field: string)
    requires forall a :: a in aggs ==> Plain(a)
    ensures forall l :: l in Record(data, aggs, field) <==> l in data || exists a :: a in aggs && l == Label(a, field)
    ensures Consistent(data) ==> Consistent(Record(data, aggs, field))
    decreases |aggs|
  {
    if aggs != [] {
      var next := data[Label(aggs[0], field) := Config(aggs[0], field)];
      assert forall a :: a in aggs <==> a == aggs[0] || a in aggs[1..];
      RecordSpec(next, aggs[1..], field);
    }
  }

  /** The aggregations (`aggs`) or the group-bys (`!aggs`) a field type supports. */
  function Supported(t: FieldType, aggs: bool): seq<string>
  {
    if aggs then AggSupport(t) else GroupBySupport(t)
  }

  /** `l` is the label of a choice some field of `fields` supports. */
  predicate Offered(l: string, fields: seq<IndexField>, aggs: bool)
  {
    exists f, a :: f in fields && a in Supported(f.kind, aggs) && l == Label(a, f.name)
  }

  lemma OfferedStep(l: string, init: seq<IndexField>, f: IndexField, aggs: bool)
    ensures Offered(l, init + [f], aggs) <==>
      Offered(l, init, aggs) || exists a :: a in Supported(f.kind, aggs) && l == Label(a, f.name)
  {
    var fields := init + [f];
    if Offered(l, init, aggs) {
      var f', a :| f' in init && a in Supported(f'.kind, aggs) && l == Label(a, f'.name);
      assert f' in fields;
    }
    if Offered(l, fields, aggs) && !(exists a :: a in Supported(f.kind, aggs) && l == Label(a, f.name)) {
      var f', a :| f' in fields && a in Supported(f'.kind, aggs) && l == Label(a, f'.name);
      assert f' in init;
    }
  }

  /** One aggregation group per field, in field order, titled with the field name. */
  lemma {:induction false} CollectGroups(fields: seq<IndexField>)
    ensures var o := Collect(fields);
      |o.aggOptions| == |fields| &&
      forall i :: 0 <= i < |fields| ==> o.aggOptions[i] == OptionGroup(fields[i].name, Labels(AggSupport(fields[i].kind), fields[i].name))
  {
    if fields != [] {
      var init, f := fields[..|fields| - 1], fields[|fields| - 1];
      CollectGroups(init);
      var before := Collect(init).aggOptions;
      var group := OptionGroup(f.name, Labels(AggSupport(f.kind), f.name));
      assert Collect(fields).aggOptions == before + [group];
      assert fields == init + [f];
      GroupsAppend(init, f, before, group);
    }
  }

  /** Appending the group of one more field keeps one group per field, in order. */
  lemma GroupsAppend(init: seq<IndexField>, f: IndexField, before: seq<OptionGroup>, group: OptionGroup)
    requires |before| == |init|
    requires forall i :: 0 <= i < |init| ==> before[i] == OptionGroup(init[i].name, Labels(AggSupport(init[i].kind), init[i].name))
    requires group == OptionGroup(f.name, Labels(AggSupport(f.kind), f.name))
    ensures var fields, gs := init + [f], before + [group];
      forall i :: 0 <= i < |fields| ==> gs[i] == OptionGroup(fields[i].name, Labels(AggSupport(fields[i].kind), fields[i].name))
  {
    var fields, gs := init + [f], before + [group];
    forall i | 0 <= i < |fields|
      ensures gs[i] == OptionGroup(fields[i].name, Labels(AggSupport(fields[i].kind), fields[i].name))
    {
      if i < |init| {
        assert fields[i] == init[i] && gs[i] == before[i];
      }
    }
  }

  /** The configurations recorded are those of the supported choices of the fields, each the one its label names. */
  lemma {:induction false} CollectData(fields: seq<IndexField>)
    ensures var o := Collect(fields);
      (forall l :: l in o.aggOptionsData <==> Offered(l, fields, true)) &&
      (forall l :: l in o.groupByOptionsData <==> Offered(l, fields, false)) &&
      Consistent(o.aggOptionsData) && Consistent(o.groupByOptionsData)
  {
    if fields != [] {
      var init, f := fields[..|fields| - 1], fields[|fields| - 1];
      assert fields == init + [f];
      CollectData(init);
      var before := Collect(init);
      SupportedArePlain(f.kind);
      RecordSpec(before.aggOptionsData, AggSupport(f.kind), f.name);
      RecordSpec(before.groupByOptionsData, GroupBySupport(f.kind), f.name);
      forall l
        ensures Offered(l, fields, true) <==> Offered(l, init, true) || exists a :: a in AggSupport(f.kind) && l == Label(a, f.name)
        ensures Offered(l, fields, false) <==> Offered(l, init, false) || exists a :: a in GroupBySupport(f.kind) && l == Label(a, f.name)
      {
        OfferedStep(l, init, f, true);
        OfferedStep(l, init, f, false);
      }
    }
  }

  /** The dropdowns list the labels of the supported choices of the fields and no others. */
  lemma {:induction false} CollectMenus(fields: seq<IndexField>)
    ensures var o := Collect(fields);
      (forall l :: (exists g :: g in o.aggOptions && l in g.options) <==> Offered(l, fields, true)) &&
      (forall l :: l in o.groupByOptions <==> Offered(l, fields, false))
  {
    if fields != [] {
      var init, f := fields[..|fields| - 1], fields[|fields| - 1];
      assert fields == init + [f];
      CollectMenus(init);
      forall l
        ensures (exists g :: g in Collect(fields).aggOptions && l in g.options) <==> Offered(l, fields, true)
        ensures l in Collect(fields).groupByOptions <==> Offered(l, fields, false)
      {
        MenusStep(init, f, l);
      }
    }
  }

  /** One more field offers a label exactly when the earlier fields did or the new one does. */
  lemma MenusStep(init: seq<IndexField>, f: IndexField, l: string)
    requires (exists g :: g in Collect(init).aggOptions && l in g.options) <==> Offered(l, init, true)
    requires l in Collect(init).groupByOptions <==> Offered(l, init, false)
    ensures (exists g :: g in Collect(init + [f]).aggOptions && l in g.options) <==> Offered(l, init + [f], true)
    ensures l in Collect(init + [f]).groupByOptions <==> Offered(l, init + [f], false)
  {
    assert (init + [f])[..|init|] == init;
    AggMenuStep(Collect(init), f, l);
    OfferedStep(l, init, f, true);
    OfferedStep(l, init, f, false);
  }

  /** The groups after one more field: a label is in one of them when it was before or is the field's own. */
  lemma AggMenuStep(before: DropdownOptions, f: IndexField, l: string)
    ensures (exists g :: g in AddField(before, f).aggOptions && l in g.options) <==>
      (exists g :: g in before.aggOptions && l in g.options) || l in Labels(AggSupport(f.kind), f.name)
  {
    var group := OptionGroup(f.name, Labels(AggSupport(f.kind), f.name));
    assert forall g :: g in AddField(before, f).aggOptions <==> g in before.aggOptions || g == group;
  }

  /**
    The dropdowns offer a label exactly when the options data holds a configuration for it,
    and only labels `agg(field)` of a usable field and an aggregation its type supports.
  */
  lemma OptionsMatchData(fields: seq<IndexField>)
    ensures var o := GetPivotDropdownOptions(fields);
      (forall l :: l in o.aggOptionsData <==> exists g :: g in o.aggOptions && l in g.options) &&
      (forall l :: l in o.groupByOptionsData <==> l in o.groupByOptions) &&
      (forall l :: l in o.aggOptionsData <==> Offered(l, Usable(fields), true)) &&
      (forall l :: l in o.groupByOptionsData <==> Offered(l, Usable(fields), false))
  {
    CollectData(Usable(fields));
    CollectMenus(Usable(fields));
  }

  /**
    Every aggregatable field that is not ignored gets one aggregation group named after it, and
    every aggregation and group-by its type supports is recorded under `agg(field)` with form
    row label `agg_field` (and, for histograms, the default interval).
  */
  lemma UsableFieldOffered(fields: seq<IndexField>, f: IndexField)
    requires f in fields && f.aggregatable && f.name !in IgnoredFieldNames
    ensures var o := GetPivotDropdownOptions(fields);
      OptionGroup(f.name, Labels(AggSupport(f.kind), f.name)) in o.aggOptions &&
      (forall a :: a in AggSupport(f.kind) ==>
        Label(a, f.name) in o.aggOptionsData && o.aggOptionsData[Label(a, f.name)] == Config(a, f.name)) &&
      (forall a :: a in GroupBySupport(f.kind) ==>
        Label(a, f.name) in o.groupByOptionsData && o.groupByOptionsData[Label(a, f.name)] == Config(a, f.name))
  {
    var us := Usable(fields);
    var o := GetPivotDropdownOptions(fields);
    CollectGroups(us);
    CollectData(us);
    SupportedArePlain(f.kind);
    assert f in us;
    var i :| 0 <= i < |us| && us[i] == f;
    assert o.aggOptions[i] == OptionGroup(f.name, Labels(AggSupport(f.kind), f.name));
    OfferedInData(o.aggOptionsData, us, f, true);
    OfferedInData(o.groupByOptionsData, us, f, false);
  }

  /** In consistent data holding exactly the offered labels, each choice of a listed field is recorded. */
  lemma OfferedInData(data: map<string, PivotConfig>, fields: seq<IndexField>, f: IndexField, aggs: bool)
    requires f in fields && Consistent(data) && (forall l :: l in data <==> Offered(l, fields, aggs))
    requires forall a :: a in Supported(f.kind, aggs) ==> Plain(a)
    ensures forall a :: a in Supported(f.kind, aggs) ==> Label(a, f.name) in data && data[Label(a, f.name)] == Config(a, f.name)
  {
    forall a | a in Supported(f.kind, aggs)
      ensures Label(a, f.name) in data && data[Label(a, f.name)] == Config(a, f.name)
    {
      assert Offered(Label(a, f.name), fields, aggs);
      ConsistentLookup(data, a, f.name);
    }
  }

  /** The numeric field `the-field` of the index pattern `the-index-pattern-title`. */
  const TheField := IndexField("the-field", Number, true)

  /** The five aggregations of a numeric field on `the-field`, as labels and as configurations. */
  const NumericLabels := ["avg(the-field)", "max(the-field)", "min(the-field)", "sum(the-field)", "value_count(the-field)"]
  const NumericData := map[
    "avg(the-field)" := PivotConfig("avg", "the-field", "avg_the-field", None),
    "max(the-field)" := PivotConfig("max", "the-field", "max_the-field", None),
    "min(the-field)" := PivotConfig("min", "the-field", "min_the-field", None),
    "sum(the-field)" := PivotConfig("sum", "the-field", "sum_the-field", None),
    "value_count(the-field)" := PivotConfig("value_count", "the-field", "value_count_the-field", None)]

  lemma NumericLabelText()
    ensures Label("avg", "the-field") == "avg(the-field)"
    ensures Label("max", "the-field") == "max(the-field)"
    ensures Label("min", "the-field") == "min(the-field)"
    ensures Label("sum", "the-field") == "sum(the-field)"
    ensures Label("value_count", "the-field") == "value_count(the-field)"
    ensures Label("histogram", "the-field") == "histogram(the-field)"
  {
  }

  lemma NumericLabelsOf()
    ensures Labels(AggSupport(Number), "the-field") == NumericLabels
    ensures Labels(GroupBySupport(Number), "the-field") == ["histogram(the-field)"]
  {
    var name := "the-field";
    NumericLabelText();
    LabelsCons("value_count", [], name);
    LabelsCons("sum", ["value_count"], name);
    LabelsCons("min", ["sum", "value_count"], name);
    LabelsCons("max", ["min", "sum", "value_count"], name);
    LabelsCons("avg", ["max", "min", "sum", "value_count"], name);
    LabelsCons("histogram", [], name);
  }

  lemma LabelsCons(agg: string, rest: seq<string>, field: string)
    ensures Labels([agg] + rest, field) == [Label(agg, field)] + Labels(rest, field)
  {
    assert ([agg] + rest)[1..] == rest;
  }

  lemma NumericConfigText()
    ensures Config("avg", "the-field") == PivotConfig("avg", "the-field", "avg_the-field", None)
    ensures Config("max", "the-field") == PivotConfig("max", "the-field", "max_the-field", None)
    ensures Config("min", "the-field") == PivotConfig("min", "the-field", "min_the-field", None)
    ensures Config("sum", "the-field") == PivotConfig("sum", "the-field", "sum_the-field", None)
    ensures Config("value_count", "the-field") == PivotConfig("value_count", "the-field", "value_count_the-field", None)
    ensures Config("histogram", "the-field") == PivotConfig("histogram", "the-field", "histogram_the-field", Some("10"))
  {
    ConfigTextFirst();
    ConfigTextRest();
  }

  lemma ConfigTextFirst()
    ensures Config("avg", "the-field") == PivotConfig("avg", "the-field", "avg_the-field", None)
    ensures Config("max", "the-field") == PivotConfig("max", "the-field", "max_the-field", None)
    ensures Config("min", "the-field") == PivotConfig("min", "the-field", "min_the-field", None)
  {
    ConfigText("avg", "avg_the-field", None);
    ConfigText("max", "max_the-field", None);
    ConfigText("min", "min_the-field", None);
  }

  lemma ConfigTextRest()
    ensures Config("sum", "the-field") == PivotConfig("sum", "the-field", "sum_the-field", None)
    ensures Config("value_count", "the-field") == PivotConfig("value_count", "the-field", "value_count_the-field", None)
    ensures Config("histogram", "the-field") == PivotConfig("histogram", "the-field", "histogram_the-field", Some("10"))
  {
    ConfigText("sum", "sum_the-field", None);
    ConfigText("value_count", "value_count_the-field", None);
    ConfigText("histogram", "histogram_the-field", Some("10"));
  }

  /** The configuration of `agg` on `the-field`, its row label spelled out. */
  lemma ConfigText(agg: string, text: string, interval: Option<string>)
    requires text == agg + "_the-field" && interval == DefaultInterval(agg)
    ensures Config(agg, "the-field") == PivotConfig(agg, "the-field", text, interval)
  {
  }

  lemma NumericDataOf()
    ensures Record(map[], AggSupport(Number), "the-field") == NumericData
    ensures Record(map[], GroupBySupport(Number), "the-field") ==
      map["histogram(the-field)" := PivotConfig("histogram", "the-field", "histogram_the-field", Some("10"))]
  {
    var name := "the-field";
    NumericLabelText();
    NumericConfigText();
    var empty: map<string, PivotConfig> := map[];
    var aggs := ["avg", "max", "min", "sum", "value_count"];
    var m1 := empty["avg(the-field)" := Config("avg", name)];
    var m2 := m1["max(the-field)" := Config("max", name)];
    var m3 := m2["min(the-field)" := Config("min", name)];
    var m4 := m3["sum(the-field)" := Config("sum", name)];
    var m5 := m4["value_count(the-field)" := Config("value_count", name)];
    assert Record(m4, aggs[4..], name) == Record(m5, [], name) == m5;
    assert Record(m3, aggs[3..], name) == Record(m4, aggs[4..], name);
    assert Record(m2, aggs[2..], name) == Record(m3, aggs[3..], name);
    assert Record(m1, aggs[1..], name) == Record(m2, aggs[2..], name);
    assert Record(empty, aggs, name) == Record(m1, aggs[1..], name);
    assert Record(empty, ["histogram"], name) == empty["histogram(the-field)" := Config("histogram", name)];
  }

  /** The options of the numeric field: five aggregations in one group, one histogram group-by. */
  lemma NumericFieldOptions()
    ensures GetPivotDropdownOptions([TheField]) == DropdownOptions(
      [OptionGroup("the-field", NumericLabels)],
      NumericData,
      ["histogram(the-field)"],
      map["histogram(the-field)" := PivotConfig("histogram", "the-field", "histogram_the-field", Some("10"))])
  {
    NumericCollect();
    NumericAddField();
  }

  lemma NumericCollect()
    ensures GetPivotDropdownOptions([TheField]) == AddField(DropdownOptions([], map[], [], map[]), TheField)
  {
    assert Usable([TheField]) == [TheField] by {
      assert [TheField][..0] == [];
      assert "the-field" !in IgnoredFieldNames;
    }
    assert [TheField][..0] == [];
    assert Collect([TheField]) == AddField(Collect([]), TheField);
  }

  lemma NumericAddField()
    ensures AddField(DropdownOptions([], map[], [], map[]), TheField) == DropdownOptions(
      [OptionGroup("the-field", NumericLabels)],
      NumericData,
      ["histogram(the-field)"],
      map["histogram(the-field)" := PivotConfig("histogram", "the-field", "histogram_the-field", Some("10"))])
  {
    NumericLabelsOf();
    NumericDataOf();
    assert [] + ["histogram(the-field)"] == ["histogram(the-field)"];
    assert [] + [OptionGroup("the-field", NumericLabels)] == [OptionGroup("the-field", NumericLabels)];
  }
}
