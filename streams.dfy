/**
 * The report stream: the state `apply_catalog` resolves (dimensions and metrics), the schema it
 * publishes, the request parameters and row post-processing it performs page by page, and its
 * error message.
 */
module Streams {
  import opened Wrappers
  import opened Seqs
  import opened Calendar
  import opened Pagination
  import opened Selection
  import opened RequestParams
  import opened Coercion
  import opened HttpErrors

  /** A JSON document (the stream's JSON Schema is one). */
  datatype Json =
    | JNull
    | JBool(b: bool)
    | JNumber(n: Decimal)
    | JString(s: string)
    | JArray(items: seq<Json>)
    | JObject(fields: map<string, Json>)

  /** `ReportModel.schema()`: its `"properties"` entry, and every other top-level entry. */
  datatype SchemaDoc = SchemaDoc(properties: map<string, Json>, rest: map<string, Json>)

  /** The JSON Schema of an additional metric: `{"type": "number"}`. */
  const NumberProperty := JObject(map["type" := JString("number")])

  datatype StreamError = KeyError(key: string)

  datatype Outcome = Done | Failed(error: StreamError)

  /** A raising conversion propagates out of `_reshape`; otherwise the same row object comes back. */
  datatype ReshapeOutcome = Returned(row: Row) | Propagated(key: string, error: ConversionError)

  /** The part of a response the error message reads: its status, body text and URL path. */
  datatype Response = Response(statusCode: int, text: string, urlPath: string)

  /** The catalog entry of the stream, whose key properties `apply_catalog` overwrites. */
  class CatalogEntry {
    var keyProperties: seq<string>
    /** `metadata.root.table_key_properties`. */
    var tableKeyProperties: seq<string>

    constructor (keys: seq<string>, tableKeys: seq<string>)
      ensures keyProperties == keys && tableKeyProperties == tableKeys
    {
      keyProperties := keys;
      tableKeyProperties := tableKeys;
    }
  }

  /** A record as a Python dict: its keys in insertion order, and its key-to-value mapping. */
  class Row {
    var keys: seq<string>
    var values: map<string, Value>

    ghost predicate Valid()
      reads this
    {
      NoDuplicates(keys) && forall k :: k in values <==> k in keys
    }

    constructor (ks: seq<string>, vs: map<string, Value>)
      requires NoDuplicates(ks) && forall k :: k in vs <==> k in ks
      ensures keys == ks && values == vs && Valid()
    {
      keys := ks;
      values := vs;
    }

    /** `row.pop(k, None)`: removes `k` when present, keeping the order of the other keys. */
    method Pop(k: string)
      requires Valid()
      modifies this
      ensures Valid()
      ensures keys == Remove(old(keys), k) && values == old(values) - {k}
    {
      RemoveKeepsDistinct(keys, k);
      keys := Remove(keys, k);
      values := values - {k};
    }

    /** `row[k] = v` for a key already present: the key keeps its place. */
    method Set(k: string, v: Value)
      requires Valid() && k in values
      modifies this
      ensures Valid()
      ensures keys == old(keys) && values == old(values)[k := v]
    {
      values := values[k := v];
    }
  }

  /** What the conversion loop leaves behind, given the row's keys and values when it starts. */
  ghost predicate FieldsConverted(types: map<string, TypeTag>, ks: seq<string>, vs: map<string, Value>,
                                  row: Row, outcome: ReshapeOutcome)
    reads row
    requires forall j :: 0 <= j < |ks| ==> ks[j] in vs
  {
    var f := FirstRaise(types, ks, vs);
    && row.keys == ks
    && row.values == CoercedUpTo(types, ks, vs, f)
    && (outcome.Returned? <==> f == |ks|)
    && (outcome.Returned? ==> outcome.row == row)
    && (outcome.Propagated? ==> outcome.key == ks[f] && outcome.error == Step(types, ks[f], vs[ks[f]]).error)
  }

  /** What `_reshape` leaves behind, given the row's keys and values on entry. */
  ghost predicate Reshaped(types: map<string, TypeTag>, keys0: seq<string>, values0: map<string, Value>,
                           row: Row, outcome: ReshapeOutcome)
    reads row
    requires forall k :: k in values0 <==> k in keys0
  {
    FieldsConverted(types, Remove(keys0, AttrDependency), values0 - {AttrDependency}, row, outcome)
  }

  /**
   * After `_reshape`, `attr_dependency` is gone from the keys and from the values, every other key
   * is still there in its original order (all of them, unchanged, when the row had no
   * `attr_dependency`), and a completed call hands back the row it was given.
   */
  lemma ReshapedKeys(types: map<string, TypeTag>, keys0: seq<string>, values0: map<string, Value>,
                     row: Row, outcome: ReshapeOutcome)
    requires forall k :: k in values0 <==> k in keys0
    requires Reshaped(types, keys0, values0, row, outcome)
    ensures AttrDependency !in row.keys && AttrDependency !in row.values
    ensures row.keys == Remove(keys0, AttrDependency)
    ensures row.values.Keys == values0.Keys - {AttrDependency}
    ensures outcome.Returned? ==> outcome.row == row
    ensures AttrDependency !in keys0 ==> row.keys == keys0
  {
    if AttrDependency !in keys0 {
      RemoveAbsent(keys0, AttrDependency);
    }
  }

  class ReportStream {
    const path := "/control-center/reports-service/report"
    /** `replication_key`: the `day` dimension that `apply_catalog` always includes. */
    const replicationKey := Day
    /** `DIMENSIONS` and `BASE_METRICS`. */
    const fields: FieldCatalog
    /** The declared type of each field of `ReportModel`. */
    const fieldTypes: map<string, TypeTag>
    /** `ReportModel.schema()`. */
    const baseSchema: SchemaDoc
    const config: Config
    var dimensions: seq<string>
    var metrics: seq<string>

    constructor (fields: FieldCatalog, fieldTypes: map<string, TypeTag>, baseSchema: SchemaDoc, config: Config)
      ensures this.fields == fields && this.fieldTypes == fieldTypes
      ensures this.baseSchema == baseSchema && this.config == config
      ensures dimensions == [] && metrics == []
    {
      this.fields := fields;
      this.fieldTypes := fieldTypes;
      this.baseSchema := baseSchema;
      this.config := config;
      dimensions := [];
      metrics := [];
    }

    /**
     * `schema`: the model's schema with `{"type": "number"}` for every additional metric; a
     * missing `additional_metrics` option raises `KeyError`.
     */
    method Schema() returns (r: Result<SchemaDoc, StreamError>)
      ensures config.additionalMetrics.None? <==> r.Err?
      ensures r.Err? ==> r.error == KeyError("additional_metrics")
      ensures r.Ok? ==> r.value.rest == baseSchema.rest
      ensures r.Ok? ==>
        var extra := config.additionalMetrics.value;
        var props := r.value.properties;
        && props.Keys == baseSchema.properties.Keys + (set a | a in extra)
        && (forall a :: a in extra ==> props[a] == NumberProperty)
        && (forall k :: k in baseSchema.properties && k !in extra ==> props[k] == baseSchema.properties[k])
    {
      var properties := baseSchema.properties;
      if config.additionalMetrics.None? {
        return Err(KeyError("additional_metrics"));
      }
      var extra := config.additionalMetrics.value;
      var i := 0;
      while i < |extra|
        invariant 0 <= i <= |extra|
        invariant properties.Keys == baseSchema.properties.Keys + (set a | a in extra[..i])
        invariant forall a :: a in extra[..i] ==> properties[a] == NumberProperty
        invariant forall k :: k in baseSchema.properties && k !in extra[..i] ==> properties[k] == baseSchema.properties[k]
      {
        assert extra[..i + 1] == extra[..i] + [extra[i]];
        properties := properties[extra[i] := NumberProperty];
        i := i + 1;
      }
      assert extra[..i] == extra;
      return Ok(SchemaDoc(properties, baseSchema.rest));
    }

    /** `get_new_paginator`, from the already parsed start and end dates. */
    method GetNewPaginator() returns (p: DatePaginator)
      ensures fresh(p) && p.Valid()
      ensures p.start == config.startDate && p.end == config.endDate
      ensures p.currentValue == config.startDate && p.count == 0
    {
      p := new DatePaginator(config.startDate, config.endDate);
    }

    /** The `primary_keys` getter: the dimension list itself. */
    function PrimaryKeys(): (r: seq<string>)
      reads this
      ensures r == dimensions
    {
      dimensions
    }

    /** The `primary_keys` setter does nothing: the keys stay the resolved dimensions. */
    method SetPrimaryKeys(value: seq<string>)
      ensures PrimaryKeys() == old(PrimaryKeys())
    {
    }

    /** `get_url_params` for the page whose token is the day `token`. */
    function GetUrlParams(token: DateOrdinal): (r: map<string, string>)
      reads this
      ensures r == UrlParams(token, dimensions, metrics, config)
    {
      UrlParams(token, dimensions, metrics, config)
    }

    /**
     * `apply_catalog` on the resolved selection: appends the selected dimensions and metrics to
     * the lists, adds `"day"` when missing, merges the additional metrics through a set, and
     * publishes the dimensions as the entry's key properties.
     */
    method ApplyCatalog(selection: seq<Crumb>, entry: CatalogEntry) returns (r: Outcome)
      modifies this, entry
      ensures dimensions == WithDay(old(dimensions) + SelectedDimensions(fields, selection))
      ensures config.additionalMetrics.None? ==>
        && r == Failed(KeyError("additional_metrics"))
        && metrics == old(metrics) + SelectedMetrics(fields, selection)
        && entry.keyProperties == old(entry.keyProperties)
        && entry.tableKeyProperties == old(entry.tableKeyProperties)
      ensures config.additionalMetrics.Some? ==>
        && r == Done
        && NoDuplicates(metrics)
        && (forall x :: x in metrics <==>
              x in old(metrics) || x in SelectedMetrics(fields, selection) || x in config.additionalMetrics.value)
        && entry.keyProperties == dimensions && entry.tableKeyProperties == dimensions
        && PrimaryKeys() == dimensions
      ensures replicationKey in dimensions
    {
      var i := 0;
      while i < |selection|
        invariant 0 <= i <= |selection|
        invariant dimensions == old(dimensions) + SelectedDimensions(fields, selection[..i])
        invariant metrics == old(metrics) + SelectedMetrics(fields, selection[..i])
        invariant entry.keyProperties == old(entry.keyProperties)
        invariant entry.tableKeyProperties == old(entry.tableKeyProperties)
      {
        assert selection[..i + 1][..i] == selection[..i];
        var crumb := selection[i];
        if |crumb.path| > 0 && crumb.selected {
          var leaf := crumb.path[|crumb.path| - 1];
          match Classify(fields, leaf)
          case Dimension => dimensions := dimensions + [leaf];
          case Metric => metrics := metrics + [leaf];
          case Unknown =>
        }
        i := i + 1;
      }
      assert selection[..i] == selection;
      if Day !in dimensions {
        dimensions := dimensions + [Day];
      }
      if config.additionalMetrics.None? {
        return Failed(KeyError("additional_metrics"));
      }
      metrics := DistinctList(metrics + config.additionalMetrics.value);
      entry.keyProperties := dimensions;
      entry.tableKeyProperties := entry.keyProperties;
      return Done;
    }

    /** `_reshape`: drops `attr_dependency`, then converts the numeric fields in row order. */
    method Reshape(row: Row) returns (outcome: ReshapeOutcome)
      requires row.Valid()
      modifies row
      ensures row.Valid()
      ensures Reshaped(fieldTypes, old(row.keys), old(row.values), row, outcome)
    {
      row.Pop(AttrDependency);
      outcome := ConvertFields(row);
    }

    /** The loop of `_reshape` over a snapshot of the row's keys, in order. */
    method ConvertFields(row: Row) returns (outcome: ReshapeOutcome)
      requires row.Valid()
      modifies row
      ensures row.Valid()
      ensures FieldsConverted(fieldTypes, old(row.keys), old(row.values), row, outcome)
    {
      var ks := row.keys;
      ghost var vs := row.values;
      assert forall j :: 0 <= j < |ks| ==> ks[j] in vs;
      var i := 0;
      while i < |ks|
        invariant forall j :: 0 <= j < |ks| ==> ks[j] in vs
        invariant 0 <= i <= |ks| && i <= FirstRaise(fieldTypes, ks, vs)
        invariant row.Valid() && row.keys == ks
        invariant row.values == CoercedUpTo(fieldTypes, ks, vs, i)
      {
        var k := ks[i];
        ScanAt(fieldTypes, ks, vs, i);
        var err := ConvertField(row, k);
        if err.Some? {
          assert FirstRaise(fieldTypes, ks, vs) == i;
          return Propagated(k, err.value);
        }
        i := i + 1;
      }
      assert FirstRaise(fieldTypes, ks, vs) == |ks|;
      return Returned(row);
    }

    /**
     * One iteration of the `_reshape` loop: converts the value of `k` when its declared type is
     * numeric; a `TypeError` leaves it as it was, any other error is reported and nothing changes.
     */
    method ConvertField(row: Row, k: string) returns (err: Option<ConversionError>)
      requires row.Valid() && k in row.values
      modifies row
      ensures row.Valid() && row.keys == old(row.keys)
      ensures var c := Step(fieldTypes, k, old(row.values)[k]);
        && (err.Some? <==> c.OtherErr?)
        && (err.Some? ==> err.value == c.error && row.values == old(row.values))
        && (err.None? ==> row.values == old(row.values)[k := After(c, old(row.values)[k])])
    {
      var v := row.values[k];
      var c := Step(fieldTypes, k, v);
      if c.OtherErr? {
        return Some(c.error);
      }
      if c.Converted? && IsNumeric(DeclaredType(fieldTypes, k)) {
        row.Set(k, c.value);
      } else {
        assert row.values[k := v] == row.values;
      }
      return None;
    }

    /** `post_process`: the reshaped row. */
    method PostProcess(row: Row) returns (outcome: ReshapeOutcome)
      requires row.Valid()
      modifies row
      ensures row.Valid()
      ensures Reshaped(fieldTypes, old(row.keys), old(row.values), row, outcome)
    {
      outcome := Reshape(row);
    }

    /** `response_error_message`, with the response URL's path already parsed. */
    function ResponseErrorMessage(response: Response): (m: string)
      ensures m == ErrorMessage(response.statusCode, response.text, response.urlPath, path)
    {
      ErrorMessage(response.statusCode, response.text, response.urlPath, path)
    }
  }
}
