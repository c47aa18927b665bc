/**
 Contours as one layer of a vector tile, and what reads back of it under section 4.4 of the Mapbox
 Vector Tile Specification 2.1.
 */
module ContourTile {
  import opened Archive
  import opened Contour
  import opened Sorting

  const LINESTRING := 2
  const VERSION := 2
  const DEFAULT_LAYER := "contours"
  const DEFAULT_EXTENT := 4096

  type Properties = seq<(string, real)>

  datatype Feature = Feature(line: Line, properties: Properties)

  /** A feature as it is written: its properties as indices into the layer's tables. */
  datatype Encoded = Encoded(tags: seq<int>, kind: int, geometry: Option<seq<int>>)

  datatype Layer = Layer(name: string, features: seq<Encoded>, keys: seq<string>, values: seq<real>, extent: int,
                         version: int)

  function Added<T(==)>(table: seq<T>, x: T): (r: seq<T>)
    ensures table <= r && x in r
  {
    if x in table then table else table + [x]
  }

  function IndexOf<T(==)>(table: seq<T>, x: T): (i: nat)
    requires x in table
    ensures i < |table| && table[i] == x && forall j :: 0 <= j < i ==> table[j] != x
  {
    if table[0] == x then 0 else 1 + IndexOf(table[1..], x)
  }

  lemma IndexStays<T>(table: seq<T>, more: seq<T>, x: T)
    requires table <= more && x in table
    ensures x in more && IndexOf(more, x) == IndexOf(table, x)
  {
    var i, j := IndexOf(table, x), IndexOf(more, x);
    assert more[i] == table[i] == x;
    assert more[j] == x && (j < |table| ==> table[j] == x);
  }

  /** The keys and the values a layer's features refer to. */
  datatype Tables = Tables(keys: seq<string>, values: seq<real>) {
    predicate Within(t: Tables) {
      keys <= t.keys && values <= t.values
    }

    predicate Covers(properties: Properties) {
      forall i :: 0 <= i < |properties| ==> properties[i].0 in keys && properties[i].1 in values
    }

    function With(key: string, value: real): (t: Tables)
      ensures Within(t) && key in t.keys && value in t.values
    {
      Tables(Added(keys, key), Added(values, value))
    }

    function WithAll(properties: Properties): (t: Tables)
      ensures Within(t) && t.Covers(properties)
    {
      if properties == [] then this
      else
        var n := |properties| - 1;
        WithAll(properties[..n]).With(properties[n].0, properties[n].1)
    }
  }

  /** The tables of a layer: every key and value of its features, in the order they are first met. */
  function TablesOf(features: seq<Feature>): (t: Tables)
    ensures forall i :: 0 <= i < |features| ==> t.Covers(features[i].properties)
  {
    if features == [] then Tables([], [])
    else
      var n := |features| - 1;
      TablesOf(features[..n]).WithAll(features[n].properties)
  }

  function TagsOf(t: Tables, properties: Properties): (tags: seq<int>)
    requires t.Covers(properties)
    ensures |tags| == 2 * |properties|
  {
    if properties == [] then []
    else
      var n := |properties| - 1;
      TagsOf(t, properties[..n]) + [IndexOf(t.keys, properties[n].0), IndexOf(t.values, properties[n].1)]
  }

  lemma {:induction false} TagsStay(t: Tables, more: Tables, properties: Properties)
    requires t.Within(more) && t.Covers(properties)
    ensures more.Covers(properties) && TagsOf(more, properties) == TagsOf(t, properties)
  {
    if properties != [] {
      var n := |properties| - 1;
      TagsStay(t, more, properties[..n]);
      IndexStays(t.keys, more.keys, properties[n].0);
      IndexStays(t.values, more.values, properties[n].1);
    }
  }

  function GeometryOf(line: Line): Option<seq<int>> {
    if |Rounded(line)| < 2 then None else Some(Geometry(Rounded(line)))
  }

  function EncodedOf(t: Tables, f: Feature): Encoded
    requires t.Covers(f.properties)
  {
    Encoded(TagsOf(t, f.properties), LINESTRING, GeometryOf(f.line))
  }

  function AllEncoded(t: Tables, features: seq<Feature>): (encoded: seq<Encoded>)
    requires forall i :: 0 <= i < |features| ==> t.Covers(features[i].properties)
    ensures |encoded| == |features| && forall i :: 0 <= i < |features| ==> encoded[i] == EncodedOf(t, features[i])
  {
    seq(|features|, i requires 0 <= i < |features| => EncodedOf(t, features[i]))
  }

  function LayerOf(name: string, extent: int, features: seq<Feature>): Layer {
    var t := TablesOf(features);
    Layer(name, AllEncoded(t, features), t.keys, t.values, extent, VERSION)
  }

  /** What a table's index says: where each of its entries is. */
  ghost predicate Indexes<T(!new)>(index: map<T, nat>, table: seq<T>) {
    && (forall x :: x in index <==> x in table)
    && (forall x :: x in table ==> index[x] == IndexOf(table, x))
  }

  lemma IndexOneMore<T(!new)>(index: map<T, nat>, table: seq<T>, x: T)
    requires Indexes(index, table) && x !in table
    ensures Indexes(index[x := |table|], table + [x]) && IndexOf(table + [x], x) == |table|
  {
    var more := table + [x];
    assert more[IndexOf(more, x)] == x;
    forall y | y in more
      ensures index[x := |table|][y] == IndexOf(more, y)
    {
      if y != x {
        IndexStays(table, more, y);
      }
    }
  }

  /** Where something is in a table, which it is put at the end of if it is not. */
  method Enter<T(==, !new)>(table: seq<T>, index: map<T, nat>, x: T)
    returns (table': seq<T>, index': map<T, nat>, at: nat)
    requires Indexes(index, table)
    ensures table' == Added(table, x) && Indexes(index', table') && at == IndexOf(table', x)
  {
    if x in index {
      return table, index, index[x];
    }
    IndexOneMore(index, table, x);
    table', index', at := table + [x], index[x := |table|], |table|;
  }

  lemma LastTags(t: Tables, properties: Properties, n: nat)
    requires n < |properties| && t.Covers(properties[..n + 1])
    ensures t.Covers(properties[..n])
    ensures TagsOf(t, properties[..n + 1]) ==
            TagsOf(t, properties[..n]) + [IndexOf(t.keys, properties[n].0), IndexOf(t.values, properties[n].1)]
  {
    assert properties[..n + 1][..n] == properties[..n];
    hide IndexOf;
  }

  lemma CoversOneMore(t: Tables, properties: Properties, n: nat)
    requires n < |properties| && t.Covers(properties[..n]) && properties[n].0 in t.keys && properties[n].1 in t.values
    ensures t.Covers(properties[..n + 1])
  {
  }

  lemma TagsOneMore(t: Tables, properties: Properties, n: nat)
    requires n < |properties| && t.Covers(properties[..n])
    ensures var p := properties[n];
            var more := t.With(p.0, p.1);
            && more.Covers(properties[..n + 1])
            && TagsOf(more, properties[..n + 1]) ==
              TagsOf(t, properties[..n]) + [IndexOf(more.keys, p.0), IndexOf(more.values, p.1)]
  {
    hide *;
    var more := t.With(properties[n].0, properties[n].1);
    TagsStay(t, more, properties[..n]);
    CoversOneMore(more, properties, n);
    LastTags(more, properties, n);
  }

  lemma WithOneMore(t: Tables, properties: Properties, n: nat)
    requires n < |properties|
    ensures t.WithAll(properties[..n + 1]) == t.WithAll(properties[..n]).With(properties[n].0, properties[n].1)
  {
    assert properties[..n + 1][..n] == properties[..n];
  }

  /** A feature's tags, its keys and values entered into the tables as they are met. */
  method WriteTags(properties: Properties, keys: seq<string>, keyIndex: map<string, nat>, values: seq<real>,
                   valueIndex: map<real, nat>)
    returns (keys': seq<string>, keyIndex': map<string, nat>, values': seq<real>, valueIndex': map<real, nat>,
             tags: seq<int>)
    requires Indexes(keyIndex, keys) && Indexes(valueIndex, values)
    ensures Indexes(keyIndex', keys') && Indexes(valueIndex', values')
    ensures Tables(keys', values') == Tables(keys, values).WithAll(properties)
    ensures tags == TagsOf(Tables(keys', values'), properties)
  {
    ghost var t := Tables(keys, values);
    keys', keyIndex', values', valueIndex', tags := keys, keyIndex, values, valueIndex, [];
    hide Indexes, Tables.WithAll, TagsOf, Added, IndexOf;
    assert tags == TagsOf(t, properties[..0]) && t.WithAll(properties[..0]) == t by { StartsTagging(t, properties); }
    for n := 0 to |properties|
      invariant Indexes(keyIndex', keys') && Indexes(valueIndex', values')
      invariant Tables(keys', values') == t.WithAll(properties[..n])
      invariant Tables(keys', values').Covers(properties[..n]) &&
                tags == TagsOf(Tables(keys', values'), properties[..n])
    {
      var (key, value) := properties[n];
      TagsOneMore(Tables(keys', values'), properties, n);
      WithOneMore(t, properties, n);
      var k, v;
      keys', keyIndex', k := Enter(keys', keyIndex', key);
      values', valueIndex', v := Enter(values', valueIndex', value);
      tags := tags + [k, v];
    }
    assert properties[..|properties|] == properties;
  }

  lemma StartsTagging(t: Tables, properties: Properties)
    ensures t.Covers(properties[..0]) && TagsOf(t, properties[..0]) == [] && t.WithAll(properties[..0]) == t
  {
  }

  ghost predicate WrittenSoFar(features: seq<Feature>, n: nat, encoded: seq<Encoded>, t: Tables)
    requires n <= |features|
  {
    t == TablesOf(features[..n]) && encoded == AllEncoded(t, features[..n])
  }

  lemma EncodedStays(t: Tables, more: Tables, features: seq<Feature>, last: Feature)
    requires t.Within(more) && more.Covers(last.properties) && forall i :: 0 <= i < |features| ==>
             t.Covers(features[i].properties)
    ensures forall i :: 0 <= i < |features| ==> more.Covers(features[i].properties)
    ensures AllEncoded(more, features + [last]) == AllEncoded(t, features) + [EncodedOf(more, last)]
  {
    hide TagsOf, Tables.Within, Tables.Covers, GeometryOf;
    forall i | 0 <= i < |features|
      ensures more.Covers(features[i].properties) && EncodedOf(more, features[i]) == EncodedOf(t, features[i])
    {
      TagsStay(t, more, features[i].properties);
    }
    hide EncodedOf;
  }

  lemma WrittenNext(features: seq<Feature>, n: nat, encoded: seq<Encoded>, t: Tables)
    requires n < |features| && WrittenSoFar(features, n, encoded, t)
    ensures var more := t.WithAll(features[n].properties);
            WrittenSoFar(features, n + 1, encoded + [EncodedOf(more, features[n])], more)
  {
    var more := t.WithAll(features[n].properties);
    assert features[..n + 1][..n] == features[..n] && features[..n + 1] == features[..n] + [features[n]];
    assert more == TablesOf(features[..n + 1]);
    hide Tables.WithAll, TagsOf, Tables.Covers, Tables.Within, TablesOf, EncodedOf, AllEncoded;
    EncodedStays(t, more, features[..n], features[n]);
  }

  /** Writes the layer: its name, its features, and the tables they refer to. */
  method WriteLayer(name: string, extent: int, features: seq<Feature>) returns (layer: Layer)
    ensures layer == LayerOf(name, extent, features)
  {
    var keys: seq<string>, keyIndex: map<string, nat>, values: seq<real>, valueIndex: map<real, nat> := [], map[], [],
      map[];
    var encoded: seq<Encoded> := [];
    assert WrittenSoFar(features, 0, [], Tables([], []));
    for n := 0 to |features|
      invariant Indexes(keyIndex, keys) && Indexes(valueIndex, values)
      invariant WrittenSoFar(features, n, encoded, Tables(keys, values))
    {
      WrittenNext(features, n, encoded, Tables(keys, values));
      hide WrittenSoFar, Indexes, Tables.WithAll, TagsOf, Geometry;
      var tags;
      keys, keyIndex, values, valueIndex, tags := WriteTags(features[n].properties, keys, keyIndex, values, valueIndex);
      var geometry := WriteGeometry(features[n].line);
      encoded := encoded + [Encoded(tags, LINESTRING, geometry)];
    }
    assert features[..|features|] == features;
    layer := Layer(name, encoded, keys, values, extent, VERSION);
  }

  /** A line as a reader finds it. */
  datatype ReadLine = ReadLine(points: seq<Point>, properties: Properties)

  function ReadTags(tags: seq<nat>, keys: seq<string>, values: seq<real>): Option<Properties> {
    if tags == [] then Some([])
    else if |tags| == 1 then None
    else
      var n := |tags| - 2;
      var before := ReadTags(tags[..n], keys, values);
      if before.None? || tags[n] >= |keys| || tags[n + 1] >= |values| then None
      else Some(before.value + [(keys[tags[n]], values[tags[n + 1]])])
  }

  function ReadFeature(f: Encoded, keys: seq<string>, values: seq<real>, width: Width): Option<ReadLine> {
    var properties := ReadTags(ReceivedAll(f.tags, width), keys, values);
    if f.kind != LINESTRING || f.geometry.None? || properties.None? then None
    else
      var points := ReadGeometry(f.geometry.value, width);
      if points.None? then None else Some(ReadLine(points.value, properties.value))
  }

  function ReadFeatures(features: seq<Encoded>, keys: seq<string>, values: seq<real>,
                        width: Width): Option<seq<ReadLine>> {
    if features == [] then Some([])
    else
      var n := |features| - 1;
      var before, last := ReadFeatures(features[..n], keys, values, width),
        ReadFeature(features[n], keys, values, width);
      if before.None? || last.None? then None else Some(before.value + [last.value])
  }

  function ReadLayer(layer: Layer, width: Width): Option<seq<ReadLine>> {
    ReadFeatures(layer.features, layer.keys, layer.values, width)
  }

  /** As many entries as the language's arrays can hold. */
  ghost predicate IsArray<T>(s: seq<T>) {
    |s| < 0x1_0000_0000
  }

  lemma LastTagRead(tags: seq<nat>, k: nat, v: nat, keys: seq<string>, values: seq<real>)
    requires k < |keys| && v < |values|
    ensures var before := ReadTags(tags, keys, values);
            ReadTags(tags + [k, v], keys, values) ==
            if before.None? then None else Some(before.value + [(keys[k], values[v])])
  {
    var all := tags + [k, v];
    assert all[..|all| - 2] == tags && all[|all| - 2] == k && all[|all| - 1] == v;
  }

  lemma LastTagReceived(tags: seq<int>, k: nat, v: nat, width: Width)
    requires k < 0x1_0000_0000 && v < 0x1_0000_0000
    ensures ReceivedAll(tags + [k, v], width) == ReceivedAll(tags, width) + [k, v]
  {
    assert width.Received(k) == k && width.Received(v) == v;
  }

  /** A feature's properties read back from its tags. */
  lemma {:induction false} TagsReadBack(t: Tables, properties: Properties, width: Width)
    requires t.Covers(properties) && IsArray(t.keys) && IsArray(t.values)
    ensures ReadTags(ReceivedAll(TagsOf(t, properties), width), t.keys, t.values) == Some(properties)
  {
    if properties != [] {
      var n := |properties| - 1;
      assert properties[..n + 1] == properties && properties == properties[..n] + [properties[n]];
      LastTags(t, properties, n);
      TagsReadBack(t, properties[..n], width);
      var k, v := IndexOf(t.keys, properties[n].0), IndexOf(t.values, properties[n].1);
      hide TagsOf, ReadTags, ReceivedAll, IndexOf, Tables.Covers;
      LastTagReceived(TagsOf(t, properties[..n]), k, v, width);
      LastTagRead(ReceivedAll(TagsOf(t, properties[..n]), width), k, v, t.keys, t.values);
    }
  }

  /** What a feature should read back as. */
  function Meant(f: Feature): ReadLine {
    ReadLine(Rounded(f.line), f.properties)
  }

  function AllMeant(features: seq<Feature>): (lines: seq<ReadLine>)
    ensures |lines| == |features| && forall i :: 0 <= i < |features| ==> lines[i] == Meant(features[i])
  {
    seq(|features|, i requires 0 <= i < |features| => Meant(features[i]))
  }

  ghost predicate IsReadable(f: Feature, width: Width) {
    |Rounded(f.line)| >= 2 && Readable(Rounded(f.line), width)
  }

  lemma FeatureReadsBack(t: Tables, f: Feature, width: Width)
    requires t.Covers(f.properties) && IsArray(t.keys) && IsArray(t.values) && IsArray(f.line)
    ensures ReadFeature(EncodedOf(t, f), t.keys, t.values, width) == Some(Meant(f)) <==> IsReadable(f, width)
  {
    TagsReadBack(t, f.properties, width);
    var points := Rounded(f.line);
    hide TagsOf, ReadTags, ReceivedAll, ReadGeometry, Geometry, Readable;
    if |points| >= 2 {
      GeometryReadsBack(points, width);
    }
  }

  lemma LastEncoded(t: Tables, features: seq<Feature>)
    requires features != [] && forall i :: 0 <= i < |features| ==> t.Covers(features[i].properties)
    ensures var n := |features| - 1;
            && (forall i :: 0 <= i < n ==> t.Covers(features[..n][i].properties))
            && AllEncoded(t, features) == AllEncoded(t, features[..n]) + [EncodedOf(t, features[n])]
            && AllMeant(features) == AllMeant(features[..n]) + [Meant(features[n])]
  {
    hide EncodedOf, Meant;
  }

  lemma LastRead(features: seq<Encoded>, f: Encoded, keys: seq<string>, values: seq<real>, width: Width)
    ensures var before, last := ReadFeatures(features, keys, values, width), ReadFeature(f, keys, values, width);
            ReadFeatures(features + [f], keys, values, width) ==
            if before.None? || last.None? then None else Some(before.value + [last.value])
  {
    assert (features + [f])[..|features|] == features;
    hide ReadFeature;
  }

  lemma {:induction false} ReadNoMore(features: seq<Encoded>, keys: seq<string>, values: seq<real>, width: Width)
    ensures var read := ReadFeatures(features, keys, values, width); read.Some? ==> |read.value| == |features|
  {
    if features != [] {
      ReadNoMore(features[..|features| - 1], keys, values, width);
      hide ReadFeature;
    }
  }

  ghost predicate EachReadable(features: seq<Feature>, width: Width) {
    forall i :: 0 <= i < |features| ==> IsReadable(features[i], width)
  }

  /** One read more is what was meant exactly where what came before is, and it is. */
  lemma JoinedIs(read: Option<seq<ReadLine>>, last: Option<ReadLine>, meant: seq<ReadLine>, one: ReadLine)
    requires read.Some? ==> |read.value| == |meant|
    ensures (if read.None? || last.None? then None else Some(read.value + [last.value])) == Some(meant + [one]) <==>
            read == Some(meant) && last == Some(one)
  {
    if read.Some? && last.Some? {
      var n := |meant|;
      assert (read.value + [last.value])[..n] == read.value && (read.value + [last.value])[n] == last.value;
      assert (meant + [one])[..n] == meant && (meant + [one])[n] == one;
    }
  }

  lemma EachOneMore(features: seq<Feature>, width: Width)
    requires features != []
    ensures var n := |features| - 1;
            EachReadable(features, width) <==> EachReadable(features[..n], width) && IsReadable(features[n], width)
  {
    hide IsReadable;
    var n := |features| - 1;
    assert forall i :: 0 <= i < n ==> features[..n][i] == features[i];
  }

  lemma NothingReadsBack(t: Tables, width: Width)
    ensures ReadFeatures(AllEncoded(t, []), t.keys, t.values, width) == Some(AllMeant([])) && EachReadable([], width)
  {
  }

  ghost predicate Encodable(t: Tables, features: seq<Feature>) {
    forall i :: 0 <= i < |features| ==> t.Covers(features[i].properties) && IsArray(features[i].line)
  }

  lemma LastEncodable(t: Tables, features: seq<Feature>)
    requires Encodable(t, features) && features != []
    ensures var n := |features| - 1;
            Encodable(t, features[..n]) && t.Covers(features[n].properties) && IsArray(features[n].line)
  {
    hide Tables.Covers, IsArray;
  }

  lemma EncodableIsCovered(t: Tables, features: seq<Feature>)
    requires Encodable(t, features)
    ensures forall i :: 0 <= i < |features| ==> t.Covers(features[i].properties)
  {
    hide Tables.Covers, IsArray;
  }

  lemma {:induction false} FeaturesReadBack(t: Tables, features: seq<Feature>, width: Width)
    requires IsArray(t.keys) && IsArray(t.values) && Encodable(t, features)
    requires forall i :: 0 <= i < |features| ==> t.Covers(features[i].properties)
    ensures ReadFeatures(AllEncoded(t, features), t.keys, t.values, width) == Some(AllMeant(features)) <==>
            EachReadable(features, width)
  {
    hide *;
    if features == [] {
      NothingReadsBack(t, width);
    } else {
      var n := |features| - 1;
      LastEncodable(t, features);
      LastEncoded(t, features);
      EncodableIsCovered(t, features[..n]);
      FeaturesReadBack(t, features[..n], width);
      FeatureReadsBack(t, features[n], width);
      var encoded, last := AllEncoded(t, features[..n]), EncodedOf(t, features[n]);
      LastRead(encoded, last, t.keys, t.values, width);
      ReadNoMore(encoded, t.keys, t.values, width);
      JoinedIs(ReadFeatures(encoded, t.keys, t.values, width), ReadFeature(last, t.keys, t.values, width),
               AllMeant(features[..n]), Meant(features[n]));
      EachOneMore(features, width);
    }
  }

  function OrElse<T>(given: Option<T>, default: T): T {
    if given.Some? then given.value else default
  }

  datatype Height = Height(metres: real)

  /** Contours as they are handed over: to each height, the lines at it. */
  type Contours = map<Height, seq<Line>>

  predicate NoHigher(a: Height, b: Height) {
    a.metres <= b.metres
  }

  ghost predicate Climbing(heights: seq<Height>) {
    forall i, j :: 0 <= i < j < |heights| ==> heights[i].metres < heights[j].metres
  }

  /** All the heights there are, the lowest first. */
  ghost predicate AreHeights(heights: seq<Height>, lines: Contours) {
    Climbing(heights) && forall h :: h in heights <==> h in lines
  }

  function FeatureAt(height: Height, line: Line, levelOf: real -> real): Feature {
    Feature(line, [("ele", height.metres), ("level", levelOf(height.metres))])
  }

  /** The lines that go anywhere, as features. */
  function AtHeight(height: Height, lines: seq<Line>, levelOf: real -> real): seq<Feature> {
    if lines == [] then []
    else
      var n := |lines| - 1;
      AtHeight(height, lines[..n], levelOf) + if |lines[n]| < 4 then [] else [FeatureAt(height, lines[n], levelOf)]
  }

  function FeaturesOf(heights: seq<Height>, lines: Contours, levelOf: real -> real): seq<Feature>
    requires forall h :: h in heights ==> h in lines
  {
    if heights == [] then []
    else
      var n := |heights| - 1;
      FeaturesOf(heights[..n], lines, levelOf) + AtHeight(heights[n], lines[heights[n]], levelOf)
  }

  lemma FirstIsIn(heights: seq<Height>)
    ensures heights == [] || heights[0] in heights
  {
  }

  /** The order is settled by the heights alone, so two runs over the same contours write the same. */
  lemma {:induction false} OneOrder(a: seq<Height>, b: seq<Height>)
    requires Climbing(a) && Climbing(b) && forall h :: h in a <==> h in b
    ensures a == b
  {
    if a != [] && b != [] {
      var m, n := |a| - 1, |b| - 1;
      assert a[m] in b && b[n] in a;
      assert a[m] == b[n];
      forall h
        ensures h in a[..m] <==> h in b[..n]
      {
        assert h in a[..m] <==> h in a && h != a[m];
        assert h in b[..n] <==> h in b && h != b[n];
      }
      OneOrder(a[..m], b[..n]);
    } else {
      FirstIsIn(a);
      FirstIsIn(b);
    }
  }

  /** One of some heights, whichever is met first. */
  method AnyOf(heights: set<Height>) returns (h: Height)
    requires heights != {}
    ensures h in heights
  {
    h :| h in heights;
  }

  /** The heights, in order, from whatever order they come in. */
  method SortHeights(lines: Contours) returns (heights: seq<Height>)
    ensures AreHeights(heights, lines)
  {
    var found: seq<Height>, todo: set<Height> := [], lines.Keys;
    while todo != {}
      invariant NoRepeats(found) && todo <= lines.Keys && forall h :: h in found <==> h in lines && h !in todo
      decreases |todo|
    {
      var h := AnyOf(todo);
      assert h !in found;
      found, todo := found + [h], todo - {h};
    }
    heights := Sort(found, NoHigher);
    SortAscends(found, NoHigher);
    SortKeepsApart(found, NoHigher);
    forall h
      ensures h in heights <==> h in found
    {
      SortHasTheSame(found, NoHigher, h);
    }
    forall i, j | 0 <= i < j < |heights|
      ensures heights[i].metres < heights[j].metres
    {
      assert NoHigher(heights[i], heights[j]) && heights[i] != heights[j];
    }
  }

  /** One layer of features with the names and sizes asked for, if there is a feature. */
  ghost function TileOf(features: seq<Feature>, layer: Option<string>, extent: Option<int>): Option<Layer> {
    if features == [] then None
    else Some(LayerOf(OrElse(layer, DEFAULT_LAYER), OrElse(extent, DEFAULT_EXTENT), features))
  }

  lemma LinesAreLines(name: string, extent: int, features: seq<Feature>)
    requires features != []
    ensures var l := LayerOf(name, extent, features);
            && l.name == name && l.extent == extent && l.version == 2 && l.features != []
            && forall f :: f in l.features ==> f.kind == 2
  {
  }

  /** Contours as a tile, the lowest first; or none, where nothing goes anywhere. */
  method EncodeContourTile(lines: Contours, layer: Option<string>, extent: Option<int>, levelOf: real -> real)
    returns (tile: Option<Layer>)
    ensures exists heights ::
              AreHeights(heights, lines) && tile == TileOf(FeaturesOf(heights, lines, levelOf), layer, extent)
    ensures tile.Some? ==>
              && tile.value.name == (if layer.Some? then layer.value else "contours")
              && tile.value.extent == (if extent.Some? then extent.value else 4096) && tile.value.version == 2
              && tile.value.features != [] && forall f :: f in tile.value.features ==> f.kind == 2
  {
    var sorted := SortHeights(lines);
    hide LayerOf;
    var features: seq<Feature> := [];
    for n := 0 to |sorted|
      invariant features == FeaturesOf(sorted[..n], lines, levelOf)
    {
      var height := sorted[n];
      var runs := lines[height];
      assert sorted[..n + 1][..n] == sorted[..n];
      for i := 0 to |runs|
        invariant features == FeaturesOf(sorted[..n], lines, levelOf) + AtHeight(height, runs[..i], levelOf)
      {
        assert runs[..i + 1][..i] == runs[..i];
        if |runs[i]| >= 4 {
          features := features + [FeatureAt(height, runs[i], levelOf)];
        }
      }
      assert runs[..|runs|] == runs;
    }
    assert sorted[..|sorted|] == sorted;
    if |features| == 0 {
      return None;
    }
    var written := WriteLayer(OrElse(layer, DEFAULT_LAYER), OrElse(extent, DEFAULT_EXTENT), features);
    tile := Some(written);
    LinesAreLines(OrElse(layer, DEFAULT_LAYER), OrElse(extent, DEFAULT_EXTENT), features);
  }

  /** No two entries of a table are the same, however many features refer to it. */
  lemma {:induction false} EnteredOnce(t: Tables, properties: Properties)
    requires NoRepeats(t.keys) && NoRepeats(t.values)
    ensures NoRepeats(t.WithAll(properties).keys) && NoRepeats(t.WithAll(properties).values)
  {
    if properties != [] {
      EnteredOnce(t, properties[..|properties| - 1]);
    }
  }

  lemma {:induction false} TablesHoldOnce(features: seq<Feature>)
    ensures NoRepeats(TablesOf(features).keys) && NoRepeats(TablesOf(features).values)
  {
    if features != [] {
      var n := |features| - 1;
      TablesHoldOnce(features[..n]);
      hide Tables.WithAll;
      EnteredOnce(TablesOf(features[..n]), features[n].properties);
    }
  }

  lemma {:induction false} AtHeightHas(height: Height, lines: seq<Line>, levelOf: real -> real, f: Feature)
    ensures f in AtHeight(height, lines, levelOf) <==>
            exists i :: 0 <= i < |lines| && |lines[i]| >= 4 && f == FeatureAt(height, lines[i], levelOf)
  {
    if lines != [] {
      var n := |lines| - 1;
      AtHeightHas(height, lines[..n], levelOf, f);
      hide FeatureAt;
      if f in AtHeight(height, lines[..n], levelOf) {
        var i :| 0 <= i < n && |lines[..n][i]| >= 4 && f == FeatureAt(height, lines[..n][i], levelOf);
        assert lines[i] == lines[..n][i];
      }
      forall i | 0 <= i < n && |lines[i]| >= 4 && f == FeatureAt(height, lines[i], levelOf)
        ensures f in AtHeight(height, lines[..n], levelOf)
      {
        assert lines[..n][i] == lines[i];
      }
    }
  }

  /** A feature is of one of the lines that go anywhere, at its height. */
  ghost predicate IsOf(f: Feature, height: Height, lines: seq<Line>, levelOf: real -> real) {
    exists i :: 0 <= i < |lines| && |lines[i]| >= 4 && f == FeatureAt(height, lines[i], levelOf)
  }

  lemma {:induction false} FeaturesAre(heights: seq<Height>, lines: Contours, levelOf: real -> real, f: Feature)
    requires forall h :: h in heights ==> h in lines
    ensures f in FeaturesOf(heights, lines, levelOf) <==> exists h :: h in heights && IsOf(f, h, lines[h], levelOf)
  {
    if heights != [] {
      var n := |heights| - 1;
      assert heights == heights[..n] + [heights[n]];
      FeaturesAre(heights[..n], lines, levelOf, f);
      AtHeightHas(heights[n], lines[heights[n]], levelOf, f);
      assert f in AtHeight(heights[n], lines[heights[n]], levelOf) <==> IsOf(f, heights[n], lines[heights[n]], levelOf);
      hide IsOf, AtHeight;
    }
  }

  /** Every line that goes anywhere can be read back. */
  ghost predicate AllReadable(lines: Contours, width: Width) {
    forall h, i: nat :: h in lines && i < |lines[h]| && |lines[h][i]| >= 4 ==> Readable(Rounded(lines[h][i]), width)
  }

  lemma EachIsReadable(heights: seq<Height>, lines: Contours, levelOf: real -> real, width: Width, i: nat)
    requires AreHeights(heights, lines) && AllReadable(lines, width) && i < |FeaturesOf(heights, lines, levelOf)|
    ensures IsReadable(FeaturesOf(heights, lines, levelOf)[i], width)
  {
    hide Readable, FeaturesOf, Climbing;
    var f := FeaturesOf(heights, lines, levelOf)[i];
    FeaturesAre(heights, lines, levelOf, f);
    assert f in FeaturesOf(heights, lines, levelOf);
  }

  lemma LineIsReadable(heights: seq<Height>, lines: Contours, levelOf: real -> real, width: Width, h: Height, k: nat)
    requires AreHeights(heights, lines) && h in lines && k < |lines[h]| && |lines[h][k]| >= 4
    requires EachReadable(FeaturesOf(heights, lines, levelOf), width)
    ensures Readable(Rounded(lines[h][k]), width)
  {
    hide Readable, FeaturesOf, Climbing;
    var f := FeatureAt(h, lines[h][k], levelOf);
    assert IsOf(f, h, lines[h], levelOf);
    FeaturesAre(heights, lines, levelOf, f);
    var features := FeaturesOf(heights, lines, levelOf);
    var i :| 0 <= i < |features| && features[i] == f;
  }

  lemma EachOfAll(heights: seq<Height>, lines: Contours, levelOf: real -> real, width: Width)
    requires AreHeights(heights, lines) && AllReadable(lines, width)
    ensures EachReadable(FeaturesOf(heights, lines, levelOf), width)
  {
    var features := FeaturesOf(heights, lines, levelOf);
    hide FeaturesOf, AreHeights, AllReadable, IsReadable;
    forall i | 0 <= i < |features|
      ensures IsReadable(features[i], width)
    {
      EachIsReadable(heights, lines, levelOf, width, i);
    }
  }

  lemma AllOfEach(heights: seq<Height>, lines: Contours, levelOf: real -> real, width: Width)
    requires AreHeights(heights, lines) && EachReadable(FeaturesOf(heights, lines, levelOf), width)
    ensures AllReadable(lines, width)
  {
    hide FeaturesOf, AreHeights, EachReadable, Readable;
    forall h, k: nat | h in lines && k < |lines[h]| && |lines[h][k]| >= 4
      ensures Readable(Rounded(lines[h][k]), width)
    {
      LineIsReadable(heights, lines, levelOf, width, h, k);
    }
  }

  lemma ReadableLines(heights: seq<Height>, lines: Contours, levelOf: real -> real, width: Width)
    requires AreHeights(heights, lines)
    ensures AllReadable(lines, width) <==> EachReadable(FeaturesOf(heights, lines, levelOf), width)
  {
    hide FeaturesOf, AllReadable, EachReadable, Climbing;
    if AllReadable(lines, width) {
      EachOfAll(heights, lines, levelOf, width);
    }
    if EachReadable(FeaturesOf(heights, lines, levelOf), width) {
      AllOfEach(heights, lines, levelOf, width);
    }
  }

  lemma {:induction false} ContourKeys(heights: seq<Height>, lines: Contours, levelOf: real -> real)
    requires AreHeights(heights, lines)
    ensures |TablesOf(FeaturesOf(heights, lines, levelOf)).keys| <= 2
  {
    var features := FeaturesOf(heights, lines, levelOf);
    forall i | 0 <= i < |features|
      ensures IsContour(features[i])
    {
      FeaturesAre(heights, lines, levelOf, features[i]);
      assert features[i] in features;
    }
    hide FeaturesOf;
    TwoKeys(features);
  }

  ghost predicate IsContour(f: Feature) {
    |f.properties| == 2 && f.properties[0].0 == "ele" && f.properties[1].0 == "level"
  }

  lemma KeysOfTwo(t: Tables, properties: Properties)
    requires |properties| == 2 && properties[0].0 == "ele" && properties[1].0 == "level" &&
             (t.keys == [] || t.keys == ["ele", "level"])
    ensures t.WithAll(properties).keys == ["ele", "level"]
  {
    var one := t.WithAll(properties[..1]);
    assert properties[..1][..0] == [];
    assert t.WithAll(properties[..0]) == t;
    assert "ele" in ["ele", "level"];
    assert ["ele", "level"][1] == "level";
    assert one == t.With("ele", properties[0].1);
    assert t.WithAll(properties) == one.With("level", properties[1].1);
    assert "ele" != "level" by { assert |"ele"| != |"level"|; }
  }

  lemma {:induction false} TwoKeys(features: seq<Feature>)
    requires forall i :: 0 <= i < |features| ==> IsContour(features[i])
    ensures TablesOf(features).keys == if features == [] then [] else ["ele", "level"]
  {
    if features != [] {
      var n := |features| - 1;
      TwoKeys(features[..n]);
      hide Tables.WithAll;
      KeysOfTwo(TablesOf(features[..n]), features[n].properties);
    }
  }

  /**
   Reading a tile returns what was meant exactly where every line of at least
   two points can be read back: no step of one is too long for its reader, and
   none has too many. What was meant is said of `AllMeant` by `ReadInOrder` and
   `EveryLineIsRead`.
   */
  lemma TileReadsBack(heights: seq<Height>, lines: Contours, levelOf: real -> real, name: string, extent: int,
                      width: Width)
    requires AreHeights(heights, lines) && IsArray(TablesOf(FeaturesOf(heights, lines, levelOf)).values)
    requires forall h, i :: h in lines && 0 <= i < |lines[h]| ==> IsArray(lines[h][i])
    ensures var features := FeaturesOf(heights, lines, levelOf);
            ReadLayer(LayerOf(name, extent, features), width) == Some(AllMeant(features)) <==> AllReadable(lines, width)
  {
    var features := FeaturesOf(heights, lines, levelOf);
    forall i | 0 <= i < |features|
      ensures IsArray(features[i].line)
    {
      FeaturesAre(heights, lines, levelOf, features[i]);
      assert features[i] in features;
    }
    hide FeaturesOf, AllReadable, AreHeights, EachReadable, TablesOf, ReadFeatures, AllEncoded, AllMeant, Tables.Covers;
    ContourKeys(heights, lines, levelOf);
    ReadableLines(heights, lines, levelOf, width);
    FeaturesReadBack(TablesOf(features), features, width);
  }

  /** A line read at a height, with its level. */
  ghost predicate IsAt(r: ReadLine, height: Height, levelOf: real -> real) {
    r.properties == [("ele", height.metres), ("level", levelOf(height.metres))]
  }

  lemma {:induction false} HeightsOfFeatures(heights: seq<Height>, lines: Contours, levelOf: real -> real, i: nat,
                                             j: nat, a: Height, b: Height)
    requires Climbing(heights) && forall h :: h in heights ==> h in lines
    requires i < j < |FeaturesOf(heights, lines, levelOf)|
    requires FeaturesOf(heights, lines, levelOf)[i].properties == [("ele", a.metres), ("level", levelOf(a.metres))]
    requires FeaturesOf(heights, lines, levelOf)[j].properties == [("ele", b.metres), ("level", levelOf(b.metres))]
    ensures a.metres <= b.metres
  {
    var n := |heights| - 1;
    var before, last := FeaturesOf(heights[..n], lines, levelOf), AtHeight(heights[n], lines[heights[n]], levelOf);
    if j < |before| {
      HeightsOfFeatures(heights[..n], lines, levelOf, i, j, a, b);
    } else {
      AtHeightHas(heights[n], lines[heights[n]], levelOf, last[j - |before|]);
      assert last[j - |before|] in last;
      assert b == heights[n];
      if i < |before| {
        assert before[i] in before;
        FeaturesAre(heights[..n], lines, levelOf, before[i]);
      } else {
        AtHeightHas(heights[n], lines[heights[n]], levelOf, last[i - |before|]);
        assert last[i - |before|] in last;
      }
    }
  }

  /** What is read comes in ascending order of height. */
  lemma ReadInOrder(heights: seq<Height>, lines: Contours, levelOf: real -> real, i: nat, j: nat, a: Height, b: Height)
    requires AreHeights(heights, lines) && i < j < |AllMeant(FeaturesOf(heights, lines, levelOf))|
    requires IsAt(AllMeant(FeaturesOf(heights, lines, levelOf))[i], a, levelOf) &&
             IsAt(AllMeant(FeaturesOf(heights, lines, levelOf))[j], b, levelOf)
    ensures a.metres <= b.metres
  {
    HeightsOfFeatures(heights, lines, levelOf, i, j, a, b);
  }

  /** The lines read at one height. */
  ghost function PointsAt(read: seq<ReadLine>, height: Height, levelOf: real -> real): seq<seq<Point>> {
    if read == [] then []
    else
      var n := |read| - 1;
      PointsAt(read[..n], height, levelOf) + if IsAt(read[n], height, levelOf) then [read[n].points] else []
  }

  /** Those of some lines that go anywhere, in whole tile units. */
  ghost function LongRounded(lines: seq<Line>): seq<seq<Point>> {
    if lines == [] then []
    else
      var n := |lines| - 1;
      LongRounded(lines[..n]) + if |lines[n]| < 4 then [] else [Rounded(lines[n])]
  }

  lemma {:induction false} PointsAtBoth(a: seq<ReadLine>, b: seq<ReadLine>, height: Height, levelOf: real -> real)
    ensures PointsAt(a + b, height, levelOf) == PointsAt(a, height, levelOf) + PointsAt(b, height, levelOf)
  {
    if b == [] {
      assert a + b == a;
    } else {
      var n := |b| - 1;
      PointsAtBoth(a, b[..n], height, levelOf);
      assert (a + b)[..|a + b| - 1] == a + b[..n];
      hide IsAt;
    }
  }

  lemma MeantBoth(a: seq<Feature>, b: seq<Feature>)
    ensures AllMeant(a + b) == AllMeant(a) + AllMeant(b)
  {
    hide Meant;
  }

  lemma {:induction false} PointsOfHeight(height: Height, lines: seq<Line>, levelOf: real -> real, h: Height)
    ensures PointsAt(AllMeant(AtHeight(height, lines, levelOf)), h, levelOf) ==
            if h == height then LongRounded(lines) else []
  {
    if lines != [] {
      var n := |lines| - 1;
      PointsOfHeight(height, lines[..n], levelOf, h);
      var last := if |lines[n]| < 4 then [] else [FeatureAt(height, lines[n], levelOf)];
      assert AtHeight(height, lines, levelOf) == AtHeight(height, lines[..n], levelOf) + last;
      MeantBoth(AtHeight(height, lines[..n], levelOf), last);
      PointsAtBoth(AllMeant(AtHeight(height, lines[..n], levelOf)), AllMeant(last), h, levelOf);
      OneAtHeight(height, lines[n], levelOf, h);
      hide AllMeant, FeatureAt, PointsAt;
      NoneAt(h, levelOf);
    }
  }

  lemma NoneAt(h: Height, levelOf: real -> real)
    ensures PointsAt(AllMeant([]), h, levelOf) == []
  {
  }

  lemma OneAtHeight(height: Height, line: Line, levelOf: real -> real, h: Height)
    ensures PointsAt(AllMeant([FeatureAt(height, line, levelOf)]), h, levelOf) ==
            if h == height then [Rounded(line)] else []
  {
    var read := AllMeant([FeatureAt(height, line, levelOf)]);
    assert read[..0] == [] && PointsAt(read[..0], h, levelOf) == [];
    assert read[0].properties == [("ele", height.metres), ("level", levelOf(height.metres))];
    assert read[0].properties[0] == ("ele", height.metres);
    assert [("ele", h.metres), ("level", levelOf(h.metres))][0] == ("ele", h.metres);
  }

  /**
   Every line of at least two points is read at its height, in its order, in whole tile units; and
   nothing else is.
   */
  lemma {:induction false} EveryLineIsRead(heights: seq<Height>, lines: Contours, levelOf: real -> real, h: Height)
    requires Climbing(heights) && forall g :: g in heights ==> g in lines
    ensures PointsAt(AllMeant(FeaturesOf(heights, lines, levelOf)), h, levelOf) ==
            if h in heights then LongRounded(lines[h]) else []
  {
    if heights == [] {
      NoneAt(h, levelOf);
    } else {
      var n := |heights| - 1;
      var before, last := FeaturesOf(heights[..n], lines, levelOf), AtHeight(heights[n], lines[heights[n]], levelOf);
      assert heights == heights[..n] + [heights[n]] && heights[n] !in heights[..n];
      EveryLineIsRead(heights[..n], lines, levelOf, h);
      MeantBoth(before, last);
      PointsAtBoth(AllMeant(before), AllMeant(last), h, levelOf);
      PointsOfHeight(heights[n], lines[heights[n]], levelOf, h);
      hide AllMeant, PointsAt, AtHeight, LongRounded;
    }
  }
}
