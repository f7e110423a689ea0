/** Unpacking a table response of the Stat-Xplore table end point into long-format columns
    (stat_xplore_table.py: json_response_to_dataframe, unpack_cube_data, unpack_field_items). */
module CubeTable {
  import opened Wrappers
  import opened Coordinates

  /** One item of a response field: its labels and its uris. */
  datatype FieldItem = FieldItem(labels: seq<string>, uris: seq<string>)

  /** A field of the response: its label (the column header) and its items, in axis order. */
  datatype Field = Field(labelText: string, items: seq<FieldItem>)

  datatype Measure = Measure(uri: string, labelText: string)

  /** The `values` array of a cube, indexed [x][y][z]; rows may be ragged. */
  type Cube<V> = seq<seq<seq<V>>>

  datatype TableResponse<V> = TableResponse(fields: seq<Field>, measures: seq<Measure>, cubes: map<string, Cube<V>>)

  /** The exceptions the source raises on malformed input, and the unsupported field count. */
  datatype TableError =
    | UnknownItemKey        // KeyError: an item key other than 'labels' or 'uris'
    | EmptyItemValues       // IndexError: an item with an empty labels (or uris) list
    | NoMeasures            // IndexError: `measures[0]` of an empty list
    | MissingCube           // KeyError: no cube under the first measure's uri
    | UnsupportedShape(fieldCount: nat)  // not three fields: `dictData` is never bound
    | CubeTooSmall          // IndexError: the cube is smaller than the label lists

  /** A cell of the long table: a label in a field column, a number in the 'value' column. */
  datatype Cell<V> = Label(text: string) | Number(value: V)

  /** The dictionary of lists that `unpack_cube_data` builds, keyed by column header. */
  type Columns<V> = map<string, seq<Cell<V>>>

  const ValueHeader: string := "value"

  predicate KnownItemKey(key: string)
  {
    key == "labels" || key == "uris"
  }

  function ItemValues(item: FieldItem, key: string): seq<string>
    requires KnownItemKey(key)
  {
    if key == "labels" then item.labels else item.uris
  }

  /** `unpack_field_items`: the first label (or uri) of every item, in item order. An unknown key only
      warns, so it fails on the first lookup, and not at all when there are no items. */
  method UnpackFieldItems(items: seq<FieldItem>, key: string) returns (r: Result<seq<string>, TableError>)
    ensures r.Success? <==>
      |items| == 0 || (KnownItemKey(key) && forall i :: 0 <= i < |items| ==> |ItemValues(items[i], key)| > 0)
    ensures r.Failure? ==> r.error == if KnownItemKey(key) then EmptyItemValues else UnknownItemKey
    ensures r.Success? ==> |r.value| == |items|
    ensures r.Success? ==> forall i :: 0 <= i < |items| ==> r.value[i] == ItemValues(items[i], key)[0]
  {
    var values: seq<string> := [];
    for i := 0 to |items|
      invariant |values| == i
      invariant i > 0 ==> KnownItemKey(key)
      invariant forall j :: 0 <= j < i ==>
        |ItemValues(items[j], key)| > 0 && values[j] == ItemValues(items[j], key)[0]
    {
      if !KnownItemKey(key) {
        return Failure(UnknownItemKey);
      }
      var vs := ItemValues(items[i], key);
      if |vs| == 0 {
        return Failure(EmptyItemValues);
      }
      values := values + [vs[0]];
    }
    return Success(values);
  }

  /** The label lists and column headers of the three axes, in the order of the response's fields. */
  datatype Axes = Axes(labelsX: seq<string>, labelsY: seq<string>, labelsZ: seq<string>,
                       headerX: string, headerY: string, headerZ: string)

  /** The number of rows of the long table. */
  function RowCount(a: Axes): nat
  {
    |a.labelsX| * |a.labelsY| * |a.labelsZ|
  }

  predicate InAxes(a: Axes, c: Coord)
  {
    InBounds(c, |a.labelsX|, |a.labelsY|, |a.labelsZ|)
  }

  /** `cubes_values[x][y][z]` exists. */
  predicate CubeHas<V>(cube: Cube<V>, c: Coord)
  {
    c.x < |cube| && c.y < |cube[c.x]| && c.z < |cube[c.x][c.y]|
  }

  /** The cube has a value for every coordinate the label lists span (so no IndexError). */
  ghost predicate CubeCovers<V>(a: Axes, cube: Cube<V>)
  {
    forall c :: InAxes(a, c) ==> CubeHas(cube, c)
  }

  /** The four headers are pairwise different, so the dictionary has four separate lists. */
  predicate DistinctHeaders(a: Axes)
  {
    a.headerX != a.headerY && a.headerX != a.headerZ && a.headerY != a.headerZ &&
    a.headerX != ValueHeader && a.headerY != ValueHeader && a.headerZ != ValueHeader
  }

  /** The dictionary literal `{headerX: [], headerY: [], headerZ: [], 'value': []}`. */
  function EmptyColumns<V>(a: Axes): Columns<V>
  {
    map[a.headerX := [], a.headerY := [], a.headerZ := [], ValueHeader := []]
  }

  /** The four appends of one iteration, each to the list found under its header. */
  function AppendRow<V>(a: Axes, cube: Cube<V>, d: Columns<V>, c: Coord): (r: Columns<V>)
    requires d.Keys == EmptyColumns<V>(a).Keys
    requires InAxes(a, c) && CubeHas(cube, c)
    ensures r.Keys == d.Keys
  {
    var d1 := d[a.headerX := d[a.headerX] + [Label(a.labelsX[c.x])]];
    var d2 := d1[a.headerY := d1[a.headerY] + [Label(a.labelsY[c.y])]];
    var d3 := d2[a.headerZ := d2[a.headerZ] + [Label(a.labelsZ[c.z])]];
    d3[ValueHeader := d3[ValueHeader] + [Number(cube[c.x][c.y][c.z])]]
  }

  /** The dictionary after the appends for the given coordinates, in order. */
  function Fill<V>(a: Axes, cube: Cube<V>, coords: seq<Coord>): (r: Columns<V>)
    requires forall j :: 0 <= j < |coords| ==> InAxes(a, coords[j]) && CubeHas(cube, coords[j])
    ensures r.Keys == EmptyColumns<V>(a).Keys
    decreases |coords|
  {
    if |coords| == 0 then EmptyColumns(a)
    else AppendRow(a, cube, Fill(a, cube, coords[..|coords| - 1]), coords[|coords| - 1])
  }

  /** One more coordinate is one more row appended. */
  lemma FillStep<V>(a: Axes, cube: Cube<V>, coords: seq<Coord>, i: nat)
    requires i < |coords|
    requires forall j :: 0 <= j <= i ==> InAxes(a, coords[j]) && CubeHas(cube, coords[j])
    ensures Fill(a, cube, coords[..i + 1]) == AppendRow(a, cube, Fill(a, cube, coords[..i]), coords[i])
  {
    assert coords[..i + 1][..i] == coords[..i];
  }

  /** The dictionary `unpack_cube_data` returns: one row per coordinate of `gen_xyz`. */
  function Unpacked<V>(a: Axes, cube: Cube<V>): Columns<V>
    requires CubeCovers(a, cube)
  {
    GridFacts(|a.labelsX|, |a.labelsY|, |a.labelsZ|);
    Fill(a, cube, Grid(|a.labelsX|, |a.labelsY|, |a.labelsZ|))
  }

  /** The long table: exactly the four columns, all of RowCount(a) cells, and row
      (x * |Y| + y) * |Z| + z holds labelsX[x], labelsY[y], labelsZ[z] and the cube value at [x][y][z]. */
  ghost predicate IsLongTable<V>(a: Axes, cube: Cube<V>, d: Columns<V>)
  {
    && d.Keys == {a.headerX, a.headerY, a.headerZ, ValueHeader}
    && |d[a.headerX]| == RowCount(a) && |d[a.headerY]| == RowCount(a)
    && |d[a.headerZ]| == RowCount(a) && |d[ValueHeader]| == RowCount(a)
    && forall c :: InAxes(a, c) ==>
      && CubeHas(cube, c)
      && Offset(c, |a.labelsY|, |a.labelsZ|) < RowCount(a)
      && d[a.headerX][Offset(c, |a.labelsY|, |a.labelsZ|)] == Label(a.labelsX[c.x])
      && d[a.headerY][Offset(c, |a.labelsY|, |a.labelsZ|)] == Label(a.labelsY[c.y])
      && d[a.headerZ][Offset(c, |a.labelsY|, |a.labelsZ|)] == Label(a.labelsZ[c.z])
      && d[ValueHeader][Offset(c, |a.labelsY|, |a.labelsZ|)] == Number(cube[c.x][c.y][c.z])
  }

  /** With distinct headers every column is the per-coordinate sequence of its own cells. */
  lemma {:induction false} FillColumns<V>(a: Axes, cube: Cube<V>, coords: seq<Coord>)
    requires DistinctHeaders(a)
    requires forall j :: 0 <= j < |coords| ==> InAxes(a, coords[j]) && CubeHas(cube, coords[j])
    ensures var d := Fill(a, cube, coords);
      && |d[a.headerX]| == |coords| && |d[a.headerY]| == |coords|
      && |d[a.headerZ]| == |coords| && |d[ValueHeader]| == |coords|
      && forall j :: 0 <= j < |coords| ==>
        var c := coords[j];
        && d[a.headerX][j] == Label(a.labelsX[c.x])
        && d[a.headerY][j] == Label(a.labelsY[c.y])
        && d[a.headerZ][j] == Label(a.labelsZ[c.z])
        && d[ValueHeader][j] == Number(cube[c.x][c.y][c.z])
    decreases |coords|
  {
    if |coords| > 0 {
      var init := coords[..|coords| - 1];
      var c := coords[|coords| - 1];
      var before := Fill(a, cube, init);
      FillColumns(a, cube, init);
      AppendRowColumns(a, cube, before, c);
      var d := Fill(a, cube, coords);
      assert d == AppendRow(a, cube, before, c);
      forall j | 0 <= j < |coords|
        ensures var c := coords[j];
          && d[a.headerX][j] == Label(a.labelsX[c.x])
          && d[a.headerY][j] == Label(a.labelsY[c.y])
          && d[a.headerZ][j] == Label(a.labelsZ[c.z])
          && d[ValueHeader][j] == Number(cube[c.x][c.y][c.z])
      {
        if j < |init| {
          assert coords[j] == init[j];
          assert d[a.headerX][j] == before[a.headerX][j];
          assert d[a.headerY][j] == before[a.headerY][j];
          assert d[a.headerZ][j] == before[a.headerZ][j];
          assert d[ValueHeader][j] == before[ValueHeader][j];
        }
      }
    }
  }

  /** With distinct headers one row appends one cell to each of the four lists. */
  lemma AppendRowColumns<V>(a: Axes, cube: Cube<V>, d: Columns<V>, c: Coord)
    requires DistinctHeaders(a)
    requires d.Keys == EmptyColumns<V>(a).Keys
    requires InAxes(a, c) && CubeHas(cube, c)
    ensures var r := AppendRow(a, cube, d, c);
      && r[a.headerX] == d[a.headerX] + [Label(a.labelsX[c.x])]
      && r[a.headerY] == d[a.headerY] + [Label(a.labelsY[c.y])]
      && r[a.headerZ] == d[a.headerZ] + [Label(a.labelsZ[c.z])]
      && r[ValueHeader] == d[ValueHeader] + [Number(cube[c.x][c.y][c.z])]
  {
  }

  /** `unpack_cube_data` yields the long table whenever the four headers differ. */
  lemma UnpackedIsLongTable<V>(a: Axes, cube: Cube<V>)
    requires CubeCovers(a, cube) && DistinctHeaders(a)
    ensures IsLongTable(a, cube, Unpacked(a, cube))
  {
    var X, Y, Z := |a.labelsX|, |a.labelsY|, |a.labelsZ|;
    GridFacts(X, Y, Z);
    FillColumns(a, cube, Grid(X, Y, Z));
    forall c | InAxes(a, c)
      ensures Offset(c, Y, Z) < RowCount(a) && Grid(X, Y, Z)[Offset(c, Y, Z)] == c
    {
      GridAt(X, Y, Z, c);
    }
  }

  /** The cube covers the axes exactly when it has a value at every coordinate `gen_xyz` yields. */
  lemma GridCovered<V>(a: Axes, cube: Cube<V>)
    ensures var g := Grid(|a.labelsX|, |a.labelsY|, |a.labelsZ|);
      CubeCovers(a, cube) <==> forall j :: 0 <= j < |g| ==> CubeHas(cube, g[j])
  {
    var g := Grid(|a.labelsX|, |a.labelsY|, |a.labelsZ|);
    GridFacts(|a.labelsX|, |a.labelsY|, |a.labelsZ|);
    forall c | InAxes(a, c)
      ensures Offset(c, |a.labelsY|, |a.labelsZ|) < |g| && g[Offset(c, |a.labelsY|, |a.labelsZ|)] == c
    {
      GridAt(|a.labelsX|, |a.labelsY|, |a.labelsZ|, c);
    }
  }

  /** Having filled a row for every coordinate of `gen_xyz` means the cube covers the axes and the
      dictionary is the long table. */
  lemma UnpackedWhenCovered<V>(a: Axes, cube: Cube<V>, data: Columns<V>)
    requires var g := Grid(|a.labelsX|, |a.labelsY|, |a.labelsZ|);
      (forall j :: 0 <= j < |g| ==> InAxes(a, g[j]) && CubeHas(cube, g[j])) && data == Fill(a, cube, g)
    ensures CubeCovers(a, cube) && data == Unpacked(a, cube)
    ensures DistinctHeaders(a) ==> IsLongTable(a, cube, data)
  {
    GridCovered(a, cube);
    if DistinctHeaders(a) {
      UnpackedIsLongTable(a, cube);
    }
  }

  /** `unpack_cube_data`: walks the coordinates of `gen_xyz` and appends, for each, the three labels
      and the cube value to the lists under their headers. */
  method UnpackCubeData<V>(labelsX: seq<string>, labelsY: seq<string>, labelsZ: seq<string>,
                           headerX: string, headerY: string, headerZ: string, cube: Cube<V>)
    returns (r: Result<Columns<V>, TableError>)
    ensures var a := Axes(labelsX, labelsY, labelsZ, headerX, headerY, headerZ);
      && (r.Success? <==> CubeCovers(a, cube))
      && (r.Failure? ==> r.error == CubeTooSmall)
      && (r.Success? ==> r.value == Unpacked(a, cube))
      && (r.Success? && DistinctHeaders(a) ==> IsLongTable(a, cube, r.value))
  {
    var a := Axes(labelsX, labelsY, labelsZ, headerX, headerY, headerZ);
    var xyz := GenXyz(|labelsX|, |labelsY|, |labelsZ|);
    var data: Columns<V> := map[headerX := [], headerY := [], headerZ := [], ValueHeader := []];
    for i := 0 to |xyz|
      invariant forall j :: 0 <= j < i ==> CubeHas(cube, xyz[j])
      invariant data == Fill(a, cube, xyz[..i])
    {
      var c := xyz[i];
      if !(c.x < |cube| && c.y < |cube[c.x]| && c.z < |cube[c.x][c.y]|) {
        assert InAxes(a, c) && !CubeHas(cube, c);
        return Failure(CubeTooSmall);
      }
      FillStep(a, cube, xyz, i);
      data := AppendRow(a, cube, data, c);
    }
    assert xyz[..|xyz|] == xyz;
    UnpackedWhenCovered(a, cube, data);
    return Success(data);
  }

  predicate FieldHasLabels(f: Field)
  {
    forall i :: 0 <= i < |f.items| ==> |f.items[i].labels| > 0
  }

  predicate AllFieldsHaveLabels<V>(resp: TableResponse<V>)
  {
    forall k :: 0 <= k < |resp.fields| ==> FieldHasLabels(resp.fields[k])
  }

  /** The first label of every item of a field. */
  function FirstLabels(f: Field): seq<string>
    requires FieldHasLabels(f)
  {
    seq(|f.items|, i requires 0 <= i < |f.items| => f.items[i].labels[0])
  }

  /** Every field unpacks and the first measure's cube is present. */
  predicate CubeFound<V>(resp: TableResponse<V>)
  {
    AllFieldsHaveLabels(resp) && |resp.measures| > 0 && resp.measures[0].uri in resp.cubes
  }

  /** The three axes of a three-field response, in the response's own field order. */
  function ResponseAxes<V>(resp: TableResponse<V>): Axes
    requires |resp.fields| == 3 && AllFieldsHaveLabels(resp)
  {
    var f := resp.fields;
    Axes(FirstLabels(f[0]), FirstLabels(f[1]), FirstLabels(f[2]), f[0].labelText, f[1].labelText, f[2].labelText)
  }

  /** `json_response_to_dataframe`, up to the dictionary handed to `pd.DataFrame`: unpacks every
      field's labels, takes the cube of the first measure, and unpacks it when there are exactly
      three fields. The failure reported is the first one the source runs into. */
  method JsonResponseToDataframe<V>(resp: TableResponse<V>) returns (r: Result<Columns<V>, TableError>)
    ensures !AllFieldsHaveLabels(resp) ==> r == Failure(EmptyItemValues)
    ensures AllFieldsHaveLabels(resp) && |resp.measures| == 0 ==> r == Failure(NoMeasures)
    ensures AllFieldsHaveLabels(resp) && |resp.measures| > 0 && resp.measures[0].uri !in resp.cubes ==>
      r == Failure(MissingCube)
    ensures CubeFound(resp) && |resp.fields| != 3 ==> r == Failure(UnsupportedShape(|resp.fields|))
    ensures CubeFound(resp) && |resp.fields| == 3 ==>
      var a := ResponseAxes(resp);
      var cube := resp.cubes[resp.measures[0].uri];
      r == if CubeCovers(a, cube) then Success(Unpacked(a, cube)) else Failure(CubeTooSmall)
  {
    var fieldItems: seq<seq<string>> := [];
    var fieldHeaders: seq<string> := [];
    for k := 0 to |resp.fields|
      invariant |fieldItems| == k && |fieldHeaders| == k
      invariant forall j :: 0 <= j < k ==> FieldHasLabels(resp.fields[j])
      invariant forall j :: 0 <= j < k ==>
        fieldItems[j] == FirstLabels(resp.fields[j]) && fieldHeaders[j] == resp.fields[j].labelText
    {
      var labels := UnpackFieldItems(resp.fields[k].items, "labels");
      if labels.Failure? {
        return Failure(labels.error);
      }
      assert labels.value == FirstLabels(resp.fields[k]);
      fieldItems := fieldItems + [labels.value];
      fieldHeaders := fieldHeaders + [resp.fields[k].labelText];
    }
    if |resp.measures| == 0 {
      return Failure(NoMeasures);
    }
    var measureUri := resp.measures[0].uri;
    if measureUri !in resp.cubes {
      return Failure(MissingCube);
    }
    var cubeValues := resp.cubes[measureUri];
    if |fieldItems| != 3 {
      return Failure(UnsupportedShape(|fieldItems|));
    }
    r := UnpackCubeData(fieldItems[0], fieldItems[1], fieldItems[2],
                        fieldHeaders[0], fieldHeaders[1], fieldHeaders[2], cubeValues);
  }
}
