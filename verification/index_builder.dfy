/**
 * `IndexBuilder.build_index`: the full-text table's schema, the records the
 * `get_features` / `get_data` generators yield, and the statements the insert
 * loop hands to SQLite. Executing those statements is not modelled: a build is
 * the log of statements it issues, in order.
 */
module IndexBuilder {
  import opened Wrappers
  import opened Text
  import opened Settings

  // ---------------------------------------------------------------------------
  // Layers, as the plugin sees them through `roam.api.utils`.

  /** A feature: its id and `str(feature[field])` for each of its attributes. */
  datatype Feature = Feature(id: int, attributes: map<string, string>)

  /** A vector layer: its name, its field names and its features in enumeration order. */
  datatype Layer = Layer(name: string, fields: seq<string>, features: seq<Feature>)

  /** Every feature holds a value for every field of its layer, so `feature[field]` never fails. */
  predicate LayerValid(layer: Layer)
  {
    forall i, f :: 0 <= i < |layer.features| && f in layer.fields ==> f in layer.features[i].attributes
  }

  /** The loaded vector layers, in enumeration order. */
  type LayerSource = seq<Layer>

  predicate SourceValid(src: LayerSource)
  {
    forall i :: 0 <= i < |src| ==> LayerValid(src[i])
  }

  /** `layer_by_name(name)`: the first loaded layer with that name; `None` where the source catches `IndexError`. */
  function LayerByName(src: LayerSource, name: string): (r: Option<Layer>)
    ensures r.Some? ==> r.value in src && r.value.name == name
    ensures r.None? <==> forall i :: 0 <= i < |src| ==> src[i].name != name
  {
    if src == [] then None
    else if src[0].name == name then Some(src[0])
    else LayerByName(src[1..], name)
  }

  /** The selector that stands for every loaded vector layer. */
  const AllLayers: string := "_all"

  /** The layers one configuration entry covers: all of them for `_all`, else the named one if it exists. */
  function SelectedLayers(src: LayerSource, selector: string): (layers: seq<Layer>)
    ensures forall i :: 0 <= i < |layers| ==> layers[i] in src
    ensures selector == AllLayers ==> layers == src
    ensures selector != AllLayers ==> |layers| <= 1 && forall i :: 0 <= i < |layers| ==> layers[i].name == selector
    ensures selector != AllLayers ==> (layers == [] <==> forall i :: 0 <= i < |src| ==> src[i].name != selector)
  {
    if selector == AllLayers then src
    else match LayerByName(src, selector)
      case Some(layer) => [layer]
      case None => []
  }

  // ---------------------------------------------------------------------------
  // Schema: `get_columns`.

  /** `'"{}"'.format(name)`: a double-quoted column name. */
  function Quote(name: string): (q: string)
    ensures |q| == |name| + 2 && q[1..|q| - 1] == name
  {
    "\"" + name + "\""
  }

  /** The characters `Quote` adds are double quotes, and distinct fields give distinct columns. */
  lemma QuoteDelimits(name: string, other: string)
    ensures Quote(name)[0] == '"' && Quote(name)[|name| + 1] == '"'
    ensures Quote(name) == Quote(other) <==> name == other
  {
    if Quote(name) == Quote(other) {
      assert name == Quote(name)[1..|name| + 1] == Quote(other)[1..|other| + 1] == other;
    }
  }

  /** The quoted names of some fields. */
  function QuotedAll(names: set<string>): set<string>
  {
    set n | n in names :: Quote(n)
  }

  /** The quoted names of a column list. */
  function QuotedColumns(columns: seq<string>): set<string>
  {
    QuotedAll(set c | c in columns)
  }

  /** The full-text table's columns: every configured column of every entry, quoted. */
  function SchemaColumns(config: SearchConfig): set<string>
    requires WellFormed(config)
  {
    set i, c | 0 <= i < |config| && c in Columns(config[i]) :: Quote(c)
  }

  lemma SchemaColumnsSnoc(config: SearchConfig, i: nat)
    requires WellFormed(config) && i < |config|
    ensures SchemaColumns(config[..i + 1]) == SchemaColumns(config[..i]) + QuotedColumns(Columns(config[i]))
  {
    var pre, post := config[..i], config[..i + 1];
    forall q | q in SchemaColumns(post)
      ensures q in SchemaColumns(pre) + QuotedColumns(Columns(config[i]))
    {
      var k, c :| 0 <= k < |post| && c in Columns(post[k]) && q == Quote(c);
      if k < i {
        assert post[k] == pre[k];
      }
    }
    forall q | q in SchemaColumns(pre)
      ensures q in SchemaColumns(post)
    {
      var k, c :| 0 <= k < |pre| && c in Columns(pre[k]) && q == Quote(c);
      assert post[k] == pre[k];
    }
  }

  /** `get_columns()`: collects the quoted configured columns into a set. */
  method GetColumns(config: SearchConfig) returns (columns: set<string>)
    requires WellFormed(config)
    ensures columns == SchemaColumns(config)
  {
    columns := {};
    var i := 0;
    while i < |config|
      invariant 0 <= i <= |config|
      invariant columns == SchemaColumns(config[..i])
    {
      var names := Columns(config[i]);
      var j := 0;
      while j < |names|
        invariant 0 <= j <= |names|
        invariant columns == SchemaColumns(config[..i]) + QuotedColumns(names[..j])
      {
        columns := columns + {Quote(names[j])};
        assert names[..j + 1] == names[..j] + [names[j]];
        j := j + 1;
      }
      assert names[..j] == names;
      SchemaColumnsSnoc(config, i);
      i := i + 1;
    }
    assert config[..i] == config;
  }

  // ---------------------------------------------------------------------------
  // Records: `get_data` and `get_features`.

  /** One yielded row: `(rowid, layer.name(), fid, data)`. */
  datatype Record = Record(rowid: nat, layer: string, fid: int, data: map<string, string>)

  /** `set(layerfields) & set(configfields)`. */
  function MatchingFields(layer: Layer, columns: seq<string>): set<string>
  {
    (set f | f in layer.fields) * (set c | c in columns)
  }

  /**
   * A feature's data: each field, quoted, maps to `"field: value"`. (Fields the
   * feature has no value for are passed over; on a valid layer there are none.)
   */
  function Render(feature: Feature, fields: set<string>): map<string, string>
  {
    map f | f in fields && f in feature.attributes :: Quote(f) := f + ": " + feature.attributes[f]
  }

  /** The records for `features`, each rendered over `fields`, numbered from `rowid + 1`. */
  function FeatureRecords(name: string, features: seq<Feature>, fields: set<string>, rowid: nat): seq<Record>
  {
    if features == [] then []
    else [Record(rowid + 1, name, features[0].id, Render(features[0], fields))]
         + FeatureRecords(name, features[1..], fields, rowid + 1)
  }

  /** What `get_data(layer, config, rowid)` yields. */
  function LayerRecords(layer: Layer, columns: seq<string>, rowid: nat): seq<Record>
  {
    var fields := MatchingFields(layer, columns);
    if fields == {} then [] else FeatureRecords(layer.name, layer.features, fields, rowid)
  }

  lemma {:induction false} FeatureRecordsAt(name: string, features: seq<Feature>, fields: set<string>, rowid: nat)
    ensures |FeatureRecords(name, features, fields, rowid)| == |features|
    ensures forall k :: 0 <= k < |features| ==>
      FeatureRecords(name, features, fields, rowid)[k] == Record(rowid + k + 1, name, features[k].id, Render(features[k], fields))
    decreases |features|
  {
    if features != [] {
      FeatureRecordsAt(name, features[1..], fields, rowid + 1);
      forall k | 0 < k < |features|
        ensures FeatureRecords(name, features, fields, rowid)[k] == Record(rowid + k + 1, name, features[k].id, Render(features[k], fields))
      {
        assert features[1..][k - 1] == features[k];
      }
    }
  }

  /**
   * The generators' shared counter: runs `produce` over `items` in order, each
   * call starting where the records of the previous one stopped.
   */
  function Thread<X>(items: seq<X>, produce: (X, nat) -> seq<Record>, rowid: nat): seq<Record>
  {
    if items == [] then []
    else
      var first := produce(items[0], rowid);
      first + Thread(items[1..], produce, rowid + |first|)
  }

  /** `get_data` as the step of the per-entry loop over layers. */
  function PerLayer(columns: seq<string>): (Layer, nat) -> seq<Record>
  {
    (layer: Layer, rowid: nat) => LayerRecords(layer, columns, rowid)
  }

  /** What one entry yields over its layers. */
  function EntryRecords(layers: seq<Layer>, columns: seq<string>, rowid: nat): seq<Record>
  {
    Thread(layers, PerLayer(columns), rowid)
  }

  /** An entry's `columns` (validation guarantees the key; the empty list stands in otherwise). */
  function EntryColumns(entry: ConfigEntry): seq<string>
  {
    if HasColumns(entry) then Columns(entry) else []
  }

  /** One iteration of `get_features`' loop over the configuration entries. */
  function PerEntry(src: LayerSource): (ConfigEntry, nat) -> seq<Record>
  {
    (entry: ConfigEntry, rowid: nat) => EntryRecords(SelectedLayers(src, entry.selector), EntryColumns(entry), rowid)
  }

  /** What `get_features()` yields over the configuration entries `config`, the counter starting at `rowid`. */
  function ConfigRecords(config: SearchConfig, src: LayerSource, rowid: nat): seq<Record>
  {
    Thread(config, PerEntry(src), rowid)
  }

  lemma AppendAssociative<T>(x: seq<T>, y: seq<T>, z: seq<T>)
    ensures x + (y + z) == (x + y) + z
  {
  }

  /** Threading over two lists in a row is threading over the first, then over the second from where it stopped. */
  lemma {:induction false} ThreadAppend<X>(a: seq<X>, b: seq<X>, produce: (X, nat) -> seq<Record>, rowid: nat)
    ensures Thread(a + b, produce, rowid)
         == Thread(a, produce, rowid) + Thread(b, produce, rowid + |Thread(a, produce, rowid)|)
    decreases |a|
  {
    if a == [] {
      assert a + b == b;
    } else {
      assert (a + b)[0] == a[0];
      assert (a + b)[1..] == a[1..] + b;
      var first := produce(a[0], rowid);
      var next := rowid + |first|;
      ThreadAppend(a[1..], b, produce, next);
      AppendAssociative(first, Thread(a[1..], produce, next), Thread(b, produce, next + |Thread(a[1..], produce, next)|));
    }
  }

  lemma ThreadSingle<X>(x: X, produce: (X, nat) -> seq<Record>, rowid: nat)
    ensures Thread([x], produce, rowid) == produce(x, rowid)
  {
    assert [x][1..] == [];
  }

  /** One more item at the end adds what it produces from the counter the others left. */
  lemma ThreadSnoc<X>(items: seq<X>, x: X, produce: (X, nat) -> seq<Record>, rowid: nat)
    ensures Thread(items + [x], produce, rowid)
         == Thread(items, produce, rowid) + produce(x, rowid + |Thread(items, produce, rowid)|)
  {
    ThreadAppend(items, [x], produce, rowid);
    ThreadSingle(x, produce, rowid + |Thread(items, produce, rowid)|);
  }

  /** A loop that appends what item `i` produces from the running count extends the threaded result by one item. */
  lemma ThreadStep<X>(items: seq<X>, i: nat, produce: (X, nat) -> seq<Record>, rowid: nat, rows: seq<Record>)
    requires i < |items| && rows == Thread(items[..i], produce, rowid)
    ensures Thread(items[..i + 1], produce, rowid) == rows + produce(items[i], rowid + |rows|)
  {
    assert items[..i + 1] == items[..i] + [items[i]];
    ThreadSnoc(items[..i], items[i], produce, rowid);
  }

  /** `produce(x, r)` numbers its records `r + 1`, `r + 2`, ... */
  ghost predicate NumbersFrom<X(!new)>(produce: (X, nat) -> seq<Record>)
  {
    forall x, r: nat, k :: 0 <= k < |produce(x, r)| ==> produce(x, r)[k].rowid == r + k + 1
  }

  lemma {:induction false} ThreadNumbers<X(!new)>(items: seq<X>, produce: (X, nat) -> seq<Record>, rowid: nat)
    requires NumbersFrom(produce)
    ensures forall k :: 0 <= k < |Thread(items, produce, rowid)| ==> Thread(items, produce, rowid)[k].rowid == rowid + k + 1
    decreases |items|
  {
    if items != [] {
      var first := produce(items[0], rowid);
      ThreadNumbers(items[1..], produce, rowid + |first|);
    }
  }

  lemma PerLayerNumbers(columns: seq<string>)
    ensures NumbersFrom(PerLayer(columns))
  {
    forall layer, r: nat, k | 0 <= k < |PerLayer(columns)(layer, r)|
      ensures PerLayer(columns)(layer, r)[k].rowid == r + k + 1
    {
      FeatureRecordsAt(layer.name, layer.features, MatchingFields(layer, columns), r);
    }
  }

  lemma PerEntryNumbers(src: LayerSource)
    ensures NumbersFrom(PerEntry(src))
  {
    forall entry, r: nat, k | 0 <= k < |PerEntry(src)(entry, r)|
      ensures PerEntry(src)(entry, r)[k].rowid == r + k + 1
    {
      PerLayerNumbers(EntryColumns(entry));
      ThreadNumbers(SelectedLayers(src, entry.selector), PerLayer(EntryColumns(entry)), r);
    }
  }

  /** The counter is threaded without gaps: the k-th yielded record has id `rowid + k + 1`. */
  lemma ConfigRecordIds(config: SearchConfig, src: LayerSource, rowid: nat)
    ensures forall k :: 0 <= k < |ConfigRecords(config, src, rowid)| ==>
      ConfigRecords(config, src, rowid)[k].rowid == rowid + k + 1
  {
    PerEntryNumbers(src);
    ThreadNumbers(config, PerEntry(src), rowid);
  }

  /** Over a whole build the ids are 1..N in yield order, hence distinct and strictly increasing. */
  lemma BuildRecordIdsIncrease(config: SearchConfig, src: LayerSource)
    ensures var records := ConfigRecords(config, src, 0);
      && (forall k :: 0 <= k < |records| ==> records[k].rowid == k + 1)
      && (forall j, k :: 0 <= j < k < |records| ==> records[j].rowid < records[k].rowid)
  {
    ConfigRecordIds(config, src, 0);
  }

  /** On a valid layer every matching field has a value, so the data keys are exactly the quoted matching fields. */
  lemma RenderKeys(layer: Layer, fields: set<string>)
    requires LayerValid(layer) && fields <= (set f | f in layer.fields)
    ensures forall k :: 0 <= k < |layer.features| ==> Render(layer.features[k], fields).Keys == QuotedAll(fields)
  {
  }

  /**
   * What `get_data` yields: nothing when the layer shares no field with the
   * entry's columns; otherwise one record per feature, in feature order,
   * numbered from `rowid + 1`, whose data maps each shared field, quoted, to
   * `"field: value"`.
   */
  lemma LayerRecordsContents(layer: Layer, columns: seq<string>, rowid: nat)
    requires LayerValid(layer)
    ensures var rows, fields := LayerRecords(layer, columns, rowid), MatchingFields(layer, columns);
      && (fields == {} ==> rows == [])
      && (fields != {} ==> |rows| == |layer.features|)
      && forall k :: 0 <= k < |rows| ==>
        && rows[k].rowid == rowid + k + 1
        && rows[k].layer == layer.name
        && rows[k].fid == layer.features[k].id
        && rows[k].data.Keys == QuotedAll(fields)
        && (forall f :: f in fields ==> rows[k].data[Quote(f)] == f + ": " + layer.features[k].attributes[f])
  {
    var fields := MatchingFields(layer, columns);
    FeatureRecordsAt(layer.name, layer.features, fields, rowid);
    RenderKeys(layer, fields);
  }

  lemma LayerRecordsWithinColumns(layer: Layer, columns: seq<string>, rowid: nat)
    requires LayerValid(layer)
    ensures forall r :: r in LayerRecords(layer, columns, rowid) ==>
      r.data != map[] && r.data.Keys <= QuotedColumns(columns)
  {
    var fields := MatchingFields(layer, columns);
    if fields != {} {
      var records := LayerRecords(layer, columns, rowid);
      FeatureRecordsAt(layer.name, layer.features, fields, rowid);
      RenderKeys(layer, fields);
      forall r | r in records
        ensures r.data != map[] && r.data.Keys <= QuotedColumns(columns)
      {
        var k :| 0 <= k < |records| && records[k] == r;
        var f :| f in fields;
        assert Quote(f) in r.data.Keys;
      }
    }
  }

  lemma {:induction false} EntryRecordsWithinColumns(layers: seq<Layer>, columns: seq<string>, rowid: nat)
    requires forall i :: 0 <= i < |layers| ==> LayerValid(layers[i])
    ensures forall r :: r in EntryRecords(layers, columns, rowid) ==>
      r.data != map[] && r.data.Keys <= QuotedColumns(columns)
    decreases |layers|
  {
    if layers != [] {
      var first := LayerRecords(layers[0], columns, rowid);
      LayerRecordsWithinColumns(layers[0], columns, rowid);
      EntryRecordsWithinColumns(layers[1..], columns, rowid + |first|);
      assert EntryRecords(layers, columns, rowid) == first + EntryRecords(layers[1..], columns, rowid + |first|);
    }
  }

  /** Every record has data, and every data key is a column of the full-text table. */
  lemma {:induction false} RecordsWithinSchema(config: SearchConfig, src: LayerSource, rowid: nat)
    requires WellFormed(config) && SourceValid(src)
    ensures forall r :: r in ConfigRecords(config, src, rowid) ==>
      r.data != map[] && r.data.Keys <= SchemaColumns(config)
    decreases |config|
  {
    if config != [] {
      var layers := SelectedLayers(src, config[0].selector);
      var first := EntryRecords(layers, Columns(config[0]), rowid);
      EntryRecordsWithinColumns(layers, Columns(config[0]), rowid);
      RecordsWithinSchema(config[1..], src, rowid + |first|);
      assert ConfigRecords(config, src, rowid) == first + ConfigRecords(config[1..], src, rowid + |first|);
      SchemaColumnsCons(config);
    }
  }

  /** The first entry's quoted columns and the schema of the other entries both lie within the schema. */
  lemma SchemaColumnsCons(config: SearchConfig)
    requires WellFormed(config) && config != []
    ensures QuotedColumns(Columns(config[0])) <= SchemaColumns(config)
    ensures SchemaColumns(config[1..]) <= SchemaColumns(config)
  {
    forall q | q in SchemaColumns(config[1..])
      ensures q in SchemaColumns(config)
    {
      var k, c :| 0 <= k < |config[1..]| && c in Columns(config[1..][k]) && q == Quote(c);
      assert config[k + 1] == config[1..][k];
    }
    forall q | q in QuotedColumns(Columns(config[0]))
      ensures q in SchemaColumns(config)
    {
      var c :| c in Columns(config[0]) && q == Quote(c);
    }
  }

  /** An item that produces nothing for any counter value can be dropped from a threaded list. */
  lemma ThreadSkip<X>(pre: seq<X>, x: X, rest: seq<X>, produce: (X, nat) -> seq<Record>, rowid: nat)
    requires forall r: nat :: produce(x, r) == []
    ensures Thread(pre + [x] + rest, produce, rowid) == Thread(pre + rest, produce, rowid)
  {
    var tail := [x] + rest;
    assert pre + [x] + rest == pre + tail;
    ThreadAppend(pre, tail, produce, rowid);
    ThreadAppend(pre, rest, produce, rowid);
    assert tail[0] == x && tail[1..] == rest;
  }

  /** A named entry whose layer is not loaded yields nothing and does not disturb the other entries. */
  lemma MissingLayerSkipped(config: SearchConfig, src: LayerSource, i: nat, rowid: nat)
    requires i < |config|
    requires config[i].selector != AllLayers && LayerByName(src, config[i].selector).None?
    ensures ConfigRecords(config, src, rowid) == ConfigRecords(config[..i] + config[i + 1..], src, rowid)
  {
    MissingEntryProducesNothing(src, config[i]);
    ThreadSkipAt(config, i, PerEntry(src), rowid);
  }

  /** `ThreadSkip` stated on a position of the list. */
  lemma ThreadSkipAt<X>(items: seq<X>, i: nat, produce: (X, nat) -> seq<Record>, rowid: nat)
    requires i < |items| && forall r: nat :: produce(items[i], r) == []
    ensures Thread(items, produce, rowid) == Thread(items[..i] + items[i + 1..], produce, rowid)
  {
    SplitAround(items, i);
    ThreadSkip(items[..i], items[i], items[i + 1..], produce, rowid);
  }

  lemma SplitAround<X>(items: seq<X>, i: nat)
    requires i < |items|
    ensures items == items[..i] + [items[i]] + items[i + 1..]
  {
  }

  lemma MissingEntryProducesNothing(src: LayerSource, entry: ConfigEntry)
    requires entry.selector != AllLayers && LayerByName(src, entry.selector).None?
    ensures forall r: nat :: PerEntry(src)(entry, r) == []
  {
    forall r: nat
      ensures PerEntry(src)(entry, r) == []
    {
      assert SelectedLayers(src, entry.selector) == [];
    }
  }

  /** The inner `for field in fields` loop of `get_data`: builds one feature's data dictionary. */
  method RenderFeature(feature: Feature, fields: set<string>) returns (data: map<string, string>)
    requires fields <= feature.attributes.Keys
    ensures data == Render(feature, fields)
  {
    data := map[];
    var rest := fields;
    while rest != {}
      invariant rest <= fields
      invariant data == Render(feature, fields - rest)
      decreases |rest|
    {
      var field :| field in rest;
      data := data[Quote(field) := field + ": " + feature.attributes[field]];
      rest := rest - {field};
    }
  }

  /**
   * `get_data(layer, config, rowid)`: nothing when the layer shares no field with
   * the entry's columns; otherwise one record per feature, in feature order,
   * numbered from `rowid + 1`, whose data maps each shared field, quoted, to
   * `"field: value"`.
   */
  method GetData(layer: Layer, entry: ConfigEntry, rowid: nat) returns (rows: seq<Record>)
    requires LayerValid(layer) && HasColumns(entry)
    ensures rows == LayerRecords(layer, Columns(entry), rowid)
  {
    var fields := MatchingFields(layer, Columns(entry));
    if fields == {} {
      return [];
    }
    ghost var all := LayerRecords(layer, Columns(entry), rowid);
    FeatureRecordsAt(layer.name, layer.features, fields, rowid);
    rows := [];
    var count := rowid;
    var k := 0;
    while k < |layer.features|
      invariant 0 <= k <= |layer.features|
      invariant count == rowid + k
      invariant rows == all[..k]
    {
      var feature := layer.features[k];
      var data := RenderFeature(feature, fields);
      // The source's `if not data: continue` never fires: `fields` is non-empty, so `data` is too.
      count := count + 1;
      rows := rows + [Record(count, layer.name, feature.id, data)];
      k := k + 1;
    }
    assert rows == all;
  }

  /** The `_all` branch of `get_features`: `get_data` over every loaded vector layer, threading the counter. */
  method AllLayersRows(entry: ConfigEntry, src: LayerSource, rowid: nat) returns (rows: seq<Record>, last: nat)
    requires HasColumns(entry) && SourceValid(src)
    ensures rows == EntryRecords(src, Columns(entry), rowid)
    ensures last == rowid + |rows|
  {
    ghost var produce := PerLayer(Columns(entry));
    PerLayerNumbers(Columns(entry));
    rows := [];
    last := rowid;
    var j := 0;
    while j < |src|
      invariant 0 <= j <= |src|
      invariant rows == Thread(src[..j], produce, rowid)
      invariant last == rowid + |rows|
    {
      var data := GetData(src[j], entry, last);
      assert data == produce(src[j], rowid + |rows|);
      if |data| > 0 {
        last := data[|data| - 1].rowid;
      }
      ThreadStep(src, j, produce, rowid, rows);
      rows := rows + data;
      j := j + 1;
    }
    assert src[..j] == src;
  }

  /**
   * One pass of `get_features`' loop over the entries: every loaded vector layer
   * for `_all`, else the named layer, skipped when the lookup fails. Returns the
   * rows and the counter after the last of them.
   */
  method EntryRows(entry: ConfigEntry, src: LayerSource, rowid: nat) returns (rows: seq<Record>, last: nat)
    requires HasColumns(entry) && SourceValid(src)
    ensures rows == PerEntry(src)(entry, rowid)
    ensures last == rowid + |rows|
  {
    assert EntryColumns(entry) == Columns(entry);
    assert PerEntry(src)(entry, rowid) == EntryRecords(SelectedLayers(src, entry.selector), Columns(entry), rowid);
    if entry.selector == AllLayers {
      rows, last := AllLayersRows(entry, src, rowid);
    } else {
      rows, last := [], rowid;
      var found := LayerByName(src, entry.selector);
      if found.Some? {
        rows := GetData(found.value, entry, last);
        PerLayerNumbers(Columns(entry));
        if |rows| > 0 {
          last := rows[|rows| - 1].rowid;
        }
        ThreadSingle(found.value, PerLayer(Columns(entry)), rowid);
      } else {
        assert SelectedLayers(src, entry.selector) == [];
      }
    }
  }

  /**
   * `get_features()`: one row counter, starting at 0, runs over every entry and
   * every layer; `_all` covers each loaded vector layer in turn; a named layer
   * that does not exist is skipped and the remaining entries are still processed.
   */
  method GetFeatures(config: SearchConfig, src: LayerSource) returns (rows: seq<Record>)
    requires WellFormed(config) && SourceValid(src)
    ensures rows == ConfigRecords(config, src, 0)
  {
    ghost var produce := PerEntry(src);
    rows := [];
    var rowid := 0;
    var i := 0;
    while i < |config|
      invariant 0 <= i <= |config|
      invariant rows == Thread(config[..i], produce, 0)
      invariant rowid == |rows|
    {
      var data;
      data, rowid := EntryRows(config[i], src, rowid);
      ThreadStep(config, i, produce, 0, rows);
      rows := rows + data;
      i := i + 1;
    }
    assert config[..i] == config;
  }

  // ---------------------------------------------------------------------------
  // Statements handed to SQLite by `build_index`.

  datatype Statement =
    | DropTable(table: string)
      /** `CREATE TABLE featureinfo(id INTEGER PRIMARY KEY, layer, featureid)` */
    | CreateFeatureInfo
      /** `CREATE VIRTUAL TABLE search USING fts4(<columns joined by ','>)` */
    | CreateSearch(columns: seq<string>)
      /** `INSERT INTO featureinfo(id, layer, featureid) VALUES(?, ?, ?)` with its three bound values */
    | InsertFeatureInfo(id: nat, layer: string, fid: int)
      /** `INSERT INTO search(docid, <columns>) VALUES(<docid>, <placeholders>)` with its bound values */
    | InsertSearch(docid: nat, columns: seq<string>, placeholders: string, values: seq<string>)

  predicate Distinct<T(==)>(s: seq<T>)
  {
    forall j, k :: 0 <= j < k < |s| ==> s[j] != s[k]
  }

  /** The members of a set in some order, each once: the order a Python set or dict iterates in. */
  method Enumerate<T>(s: set<T>) returns (items: seq<T>)
    ensures Distinct(items) && |items| == |s|
    ensures forall x :: x in items <==> x in s
  {
    items := [];
    var rest := s;
    while rest != {}
      invariant rest <= s && Distinct(items)
      invariant forall x :: x in items <==> x in s && x !in rest
      invariant |items| + |rest| == |s|
      decreases |rest|
    {
      var x :| x in rest;
      items := items + [x];
      rest := rest - {x};
    }
  }

  /** `n` question marks. */
  function Marks(n: nat): seq<string>
  {
    seq(n, _ => "?")
  }

  /** `("?," * n).strip(',')`. */
  function Placeholders(n: nat): string
  {
    Strip(Repeat("?,", n), ',')
  }

  lemma {:induction false} RepeatMarks(n: nat)
    requires n >= 1
    ensures Repeat("?,", n) == Join(",", Marks(n)) + ","
    ensures Join(",", Marks(n))[0] == '?' && Join(",", Marks(n))[|Join(",", Marks(n))| - 1] == '?'
  {
    if n > 1 {
      RepeatMarks(n - 1);
      assert Marks(n)[1..] == Marks(n - 1);
    }
  }

  /** The placeholder list is `n` question marks separated by commas (empty for no values). */
  lemma PlaceholdersAreMarks(n: nat)
    ensures Placeholders(n) == Join(",", Marks(n))
  {
    if n > 0 {
      RepeatMarks(n);
      var joined := Join(",", Marks(n));
      var repeated := Repeat("?,", n);
      assert StripLeading(repeated, ',') == repeated;
      assert repeated[..|repeated| - 1] == joined;
      assert StripTrailing(repeated, ',') == StripTrailing(joined, ',');
    }
  }

  /** `stmt` inserts `r` into the full-text table: every key once, each value bound to its own column. */
  predicate InsertsRecord(stmt: Statement, r: Record)
  {
    && stmt.InsertSearch?
    && stmt.docid == r.rowid
    && |stmt.columns| == |stmt.values| == |r.data|
    && Distinct(stmt.columns)
    && (forall k :: 0 <= k < |stmt.columns| ==> stmt.columns[k] in r.data && stmt.values[k] == r.data[stmt.columns[k]])
    && stmt.placeholders == Join(",", Marks(|stmt.values|))
  }

  /** The two statements the insert loop issues for `r`: its `featureinfo` row, then its full-text row. */
  predicate InsertsRow(pair: (Statement, Statement), r: Record)
  {
    pair.0 == InsertFeatureInfo(r.rowid, r.layer, r.fid) && InsertsRecord(pair.1, r)
  }

  /** One pass of the `for row in get_features()` loop. */
  method InsertRow(row: Record) returns (pair: (Statement, Statement))
    ensures InsertsRow(pair, row)
  {
    var keys := Enumerate(row.data.Keys);
    var values := seq(|keys|, k requires 0 <= k < |keys| => row.data[keys[k]]);
    var placeholders := Placeholders(|values|);
    PlaceholdersAreMarks(|values|);
    pair := (InsertFeatureInfo(row.rowid, row.layer, row.fid), InsertSearch(row.rowid, keys, placeholders, values));
  }

  /** The `for row in get_features()` loop: the statements for each record, in order. */
  method InsertRows(records: seq<Record>) returns (inserts: seq<(Statement, Statement)>)
    ensures |inserts| == |records|
    ensures forall i :: 0 <= i < |records| ==> InsertsRow(inserts[i], records[i])
  {
    inserts := [];
    var i := 0;
    while i < |records|
      invariant 0 <= i <= |records|
      invariant |inserts| == i
      invariant forall j :: 0 <= j < i ==> InsertsRow(inserts[j], records[j])
    {
      var pair := InsertRow(records[i]);
      inserts := inserts + [pair];
      i := i + 1;
    }
  }

  /**
   * `build_index`: drops and recreates both tables, the full-text one with exactly
   * the configured columns, then inserts every record `get_features()` yields,
   * numbered 1..N, each naming only columns of the full-text table.
   */
  method BuildIndex(config: SearchConfig, src: LayerSource)
    returns (setup: seq<Statement>, records: seq<Record>, inserts: seq<(Statement, Statement)>)
    requires WellFormed(config) && SourceValid(src)
    ensures |setup| == 4
    ensures setup[..3] == [DropTable("search"), DropTable("featureinfo"), CreateFeatureInfo]
    ensures setup[3].CreateSearch? && Distinct(setup[3].columns)
    ensures forall c :: c in setup[3].columns <==> c in SchemaColumns(config)
    ensures records == ConfigRecords(config, src, 0)
    ensures forall k :: 0 <= k < |records| ==> records[k].rowid == k + 1
    ensures forall k :: 0 <= k < |records| ==> records[k].data != map[] && records[k].data.Keys <= SchemaColumns(config)
    ensures |inserts| == |records|
    ensures forall i :: 0 <= i < |records| ==> InsertsRow(inserts[i], records[i])
  {
    var columns := GetColumns(config);
    var columnList := Enumerate(columns);
    setup := [DropTable("search"), DropTable("featureinfo"), CreateFeatureInfo, CreateSearch(columnList)];
    records := GetFeatures(config, src);
    ConfigRecordIds(config, src, 0);
    RecordsWithinSchema(config, src, 0);
    inserts := InsertRows(records);
  }
}
