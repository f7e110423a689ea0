# Stat-Xplore client core in Dafny

This project models the pure and sequential logic in a small Python client for the Stat-Xplore
statistics web API. It covers two parts.

- **Table requests and responses** (`stat_xplore_table.py`). The model builds the body of a table
  request: the database id taken from the measure id, the measures list, the dimensions list and the
  geography recodes. It flattens the `labels` of the response's field items. It unpacks the 3-D value
  cube of the first measure into four parallel long-format columns. The unpacking walks the
  coordinates that `gen_xyz` yields, in row-major order.
- **Schema tree walk** (`stat_xplore_schema.py`). The model fetches the children of a schema url,
  either from a cached schema table or live. Live children are tagged with the parent's id. It
  gathers one tier of children for the distinct locations of a parent table. It walks the tree tier
  by tier, from the root.

Modules:

- `Wrappers`: `Option` and `Result`.
- `Collections`: filter, first-occurrence de-duplication, concatenation and singleton wrapping, with
  their lemmas.
- `Coordinates`: `gen_xyz`.
- `CubeTable`: `unpack_field_items`, `unpack_cube_data` and `json_response_to_dataframe`.
- `RequestBody`: `get_measures_request_body`, `get_dimensions_body`, `format_recodes_for_api`,
  `build_request_body`, and Python's `str.split` and `str.join`.
- `Schema`: `get_children_schema_of_url`, `get_lower_tier_schema_from_upper_tier_schema` and
  `get_full_schema`.

How Python constructs are represented:

- **Exceptions.** Each exception the source would raise on malformed input is a `Failure` of a
  `Result`. The exceptions covered are an `IndexError` on `split(':')[-2]`, on `measures[0]`, on the
  first key of an empty recode dictionary, on a field item with an empty `labels` list and on a
  cube smaller than its label lists. Two `KeyError`s are covered too: a missing cube and an unknown
  item key. So is the unbound `dictData` when a response does not have three fields.
- **Dictionaries.** The recode dictionary is an ordered association list, because its first key
  depends on Python's insertion order. The column dictionary of `unpack_cube_data` is a `map`, so two
  equal headers share one list, as they do in Python.
- **Schema tables.** These are sequences of `SchemaNode` records. The root row has no `parent_id`.
- **The schema request.** `request_schema` is a function parameter `fetch: string -> Option<SchemaResponse>`.
  `None` stands for the `{'success': False}` result that the callers handle. As written,
  `request_schema` never returns that result, because `raise_for_status()` raises on a failed
  request instead of returning a value. See "## Left out".
- **The cache file.** This is an `Option<seq<SchemaNode>>`, where `None` means the file is absent or
  unreadable. `get_full_schema` writes its table after every tier to the same file the cache lookup
  reads. The model threads this file through the walk. `Schema.WalkStepFile` proves that each pass
  after the first reads the file the previous pass wrote.
- **Outside helpers.** `get_database_fields` and `geography_recodes_for_geog_folder_geog_level` are
  not part of this model. `BuildRequestBody` takes their results, the database's field ids and the
  geography recodes, as parameters.

Where the code and the intended design differ, the model follows the code. With no field ids,
`get_dimensions_body` returns the database's field ids unwrapped, not as one-element lists. So
`GetDimensionsBody` then yields `BareId` entries. The recode fields that `build_request_body`
appends are still one-element lists.

`get_full_schema` keeps no visited set, so on cyclic schema data it would never stop. The model
walks at most `fuel` tiers, and `OutOfFuel` reports a walk cut short. The walk is specified by the
recursive function `Schema.WalkFrom`, and the method `Schema.GetFullSchema` is proved equal to it.
Lemmas about `WalkFrom` cover the trace of passes: each pass's frontier, the file it read and the
tier it fetched. These lemmas are stated for any tier function, and `FullSchema` applies them to
the real one.

## Model

| member | source | states |
|---|---|---|
| Coordinates.GenXyz | stat_xplore_table.py:281-296 | The triple-nested range loops collect exactly xMax*yMax*zMax triples; the i-th is within bounds and has row-major offset i |
| Coordinates.GridFacts | stat_xplore_table.py:293-296 | The generated sequence has length xMax*yMax*zMax and the triple at index i is in bounds and sits at offset (x*yMax+y)*zMax+z = i |
| Coordinates.PlaneFacts | stat_xplore_table.py:294-296 | One x-slice of the generator has yMax*zMax triples, all with that x, in (y, z) row-major order |
| Coordinates.LineFacts | stat_xplore_table.py:295-296 | The innermost loop yields the z values below zMax in increasing order for fixed x, y |
| Coordinates.GridAt | stat_xplore_table.py:293-296 | Every in-bounds triple is yielded, at index equal to its row-major offset |
| Coordinates.OffsetInjective | stat_xplore_table.py:293-296 | Different in-bounds triples have different offsets, so no triple is yielded twice |
| Coordinates.GridSorted | stat_xplore_table.py:293-296 | The triples come in strictly increasing lexicographic order, x outermost and z innermost |
| CubeTable.UnpackFieldItems | stat_xplore_table.py:69-89 | Success exactly when every item has a value under a known key (or there are no items); then the result keeps length and order and element i is items[i][key][0]; an unknown key fails on the first lookup, an empty list with IndexError |
| CubeTable.AppendRow | stat_xplore_table.py:62-65 | One loop iteration's four appends leave the set of dictionary keys unchanged |
| CubeTable.AppendRowColumns | stat_xplore_table.py:62-65 | With four distinct headers each append extends only its own list by the label or the cube value |
| CubeTable.Fill | stat_xplore_table.py:60-65 | Whatever the coordinates, the dictionary keeps exactly the four keys of the initial literal |
| CubeTable.FillColumns | stat_xplore_table.py:61-65 | With distinct headers each column has one cell per coordinate and cell j holds the labels and cube value of the j-th coordinate |
| CubeTable.GridCovered | stat_xplore_table.py:59-65 | The cube has a value at every label triple exactly when it has one at every coordinate gen_xyz yields |
| CubeTable.UnpackedIsLongTable | stat_xplore_table.py:59-66 | With distinct headers the result has exactly the four columns, each of length |X|*|Y|*|Z|, and row (x*|Y|+y)*|Z|+z holds labelsX[x], labelsY[y], labelsZ[z] and cubes_values[x][y][z] |
| CubeTable.UnpackedWhenCovered | stat_xplore_table.py:59-66 | Having appended a row for every generated coordinate means the cube covers the labels and the dictionary is the unpacked table |
| CubeTable.UnpackCubeData | stat_xplore_table.py:43-66 | Succeeds exactly when the cube covers the label lists (else IndexError); the result is one row per generated coordinate and, with distinct headers, the long table |
| CubeTable.JsonResponseToDataframe | stat_xplore_table.py:14-41 | Reports the first failure the source meets (field labels, no measure, no cube for the first measure's uri, not three fields) and otherwise unpacks the first measure's cube with the three fields' labels and headers |
| RequestBody.GetMeasuresRequestBody | stat_xplore_table.py:195-208 | A single measure id becomes a one-element list; a list is returned unchanged |
| RequestBody.GetDimensionsBody | stat_xplore_table.py:169-193 | No field ids: all database field ids unwrapped, in order; otherwise every entry is a one-element list of an id both requested and known, and every requested known id appears |
| RequestBody.DimensionsInInputOrder | stat_xplore_table.py:190-191 | The kept ids stay in input order: the dimensions of a concatenated request are the two halves' dimensions concatenated |
| RequestBody.DimensionsKeepKnownIds | stat_xplore_table.py:190-191 | A request made only of known ids is passed through, each id wrapped in a one-element list |
| RequestBody.Split | stat_xplore_table.py:149 | Python's split always returns at least one piece |
| RequestBody.SplitJoin | stat_xplore_table.py:149 | The pieces of a split contain no separator and joining them with it gives back the string |
| RequestBody.JoinSplit | stat_xplore_table.py:149 | Splitting the join of separator-free pieces gives back the pieces |
| RequestBody.FormatRecodesForApi | stat_xplore_table.py:233-279 | Fails (IndexError) exactly on an empty dictionary; otherwise exactly one key, the first input key, whose map wraps each value in its own list in input order and whose total is include_total |
| RequestBody.BuildRequestBody | stat_xplore_table.py:129-167 | Fails exactly when the measure id has fewer than two ':' pieces or there is no recode field; otherwise database is 'str:database:' + the second-to-last piece, measures is [measure_id], recodes are the formatted geography recodes with total set, dimensions are the dimensions followed by the recode field as a one-element list, and every recode key appears as such a dimension |
| Schema.CachedChildren | stat_xplore_schema.py:109-114 | A cache hit happens only when some row has the url, and is never empty and never longer than the table |
| Schema.GetChildrenSchemaOfUrl | stat_xplore_schema.py:88-139 | Fails only when the live request fails; a cache result requires check_cache and a readable file and is non-empty; a live result has one row per child of the response |
| Schema.LowerTier | stat_xplore_schema.py:71-86 | Every row the lower tier of a parent table holds has a parent id |
| Schema.FullSchema | stat_xplore_schema.py:15-53 | The walk fails exactly when the root request fails, and then leaves the file as it was |
| Collections.DistinctMember | stat_xplore_schema.py:71 | unique() keeps exactly the values that occur: a location is among the distinct ones exactly when some parent has it |
| Collections.DistinctNoDuplicates | stat_xplore_schema.py:71 | unique() yields no value twice, so each parent location is fetched once |
| Collections.DistinctPrefix | stat_xplore_schema.py:71 | The distinct values of any prefix come first and in the same order, which makes the order that of first occurrence |
| Schema.FirstWithLocation | stat_xplore_schema.py:110 | Finds the first cached row whose location is the url, or reports that none has it |
| Schema.CachedChildrenRows | stat_xplore_schema.py:106-118 | A cache hit is non-empty and consists exactly of the rows whose parent id is the id of the first row at the url; there is no hit exactly when no row has the url or no row has that parent id |
| Schema.ChildrenSchemaCases | stat_xplore_schema.py:88-139 | A cache result happens exactly when the cache is checked, the file is there and holds a hit; a live result is the response's children in order, each tagged with the response id; failure happens exactly when there is no hit and the request fails |
| Schema.EmptyCacheEntryFallsThrough | stat_xplore_schema.py:110-127 | A url absent from the cache, or whose parent has no cached children, gives the same result as not checking the cache |
| Schema.ChildrenHaveParent | stat_xplore_schema.py:111-137 | Every returned child row, cached or live, has a parent id |
| Schema.TierMembers | stat_xplore_schema.py:77-83 | A row is in the tier of a list of locations exactly when it is among the children found at one of them; failed locations contribute nothing |
| Schema.TierConcat | stat_xplore_schema.py:77-83 | The tier of two location lists is the concatenation of their tiers, so children stay grouped in location order |
| Schema.TierHasParents | stat_xplore_schema.py:77-86 | Every row of a tier has a parent id |
| Schema.LowerTierMembers | stat_xplore_schema.py:71-86 | A row is in the lower tier exactly when it is a child found at the location of some parent row |
| Schema.GetLowerTierSchemaFromUpperTierSchema | stat_xplore_schema.py:57-86 | Fetches the distinct parent locations once each in first-occurrence order, skips failures and concatenates the successful children lists; every row has a parent id |
| Schema.SelectRows | stat_xplore_schema.py:46 | The next frontier holds exactly the tier's rows whose type is to be included |
| Schema.WalkFrom | stat_xplore_schema.py:39-53 | A walk that has started never reports a failed root |
| Schema.WalkSteps | stat_xplore_schema.py:40-51 | A walk makes at most fuel passes |
| Schema.WalkGrows | stat_xplore_schema.py:39-53 | The schema only grows (the start is a prefix of the result); the file is rewritten with the final schema exactly when a row was added; running out of fuel comes only after fuel non-empty tiers |
| Schema.WalkRowsHaveParents | stat_xplore_schema.py:36-48 | The first row is kept and every later row has a parent id |
| Schema.WalkAppendsTiers | stat_xplore_schema.py:40-48 | The final schema is the starting schema followed by each fetched tier in order |
| Schema.WalkStepsFetch | stat_xplore_schema.py:40-42 | Each pass expanded a non-empty frontier into the non-empty lower tier of that frontier, read against the file recorded for the pass |
| Schema.PrependTier | stat_xplore_schema.py:48 | Appending the first pass's tier and then the later passes' tiers equals appending all the passes' tiers at once |
| Schema.WalkStepFile | stat_xplore_schema.py:42-51 | The file pass k+1 reads is the to_csv output of pass k: the starting schema followed by the tiers of passes 0 to k |
| Schema.WalkFrontiers | stat_xplore_schema.py:39-53 | The first pass expands the starting frontier and each later frontier is exactly the previous tier's rows of an included type; the walk completes exactly when the last frontier is empty; it stops on an empty tier only when the last frontier's lower tier is empty |
| Schema.TierIgnoresFile | stat_xplore_schema.py:106 | Without the cache check the tier does not depend on the file |
| Schema.WalkIgnoresFile | stat_xplore_schema.py:40-51 | A walk whose tier function ignores the file gives the same outcome from any starting file |
| Schema.FullSchemaIgnoresFileWithoutCache | stat_xplore_schema.py:15-53 | With check_cache off, get_full_schema gives the same schema whatever the cache file holds |
| Schema.FullSchemaTiers | stat_xplore_schema.py:27-53 | After a successful root request the schema is the root row followed by each fetched tier, the first tier being the root's children and each tier the lower tier of its frontier; the first pass reads the given file and every later pass reads the root followed by the tiers fetched before it, as the previous pass wrote it |
| Schema.GetFullSchema | stat_xplore_schema.py:15-53 | Equals the walk specification; fails exactly when the root request fails; otherwise the schema starts with the root row without children, every later row has a parent id, and the file holds the final schema unless nothing was added |

## Left out

- HTTP: `request_schema`, `request_table` and `requests.get`/`post` are not modelled. The schema
  request is the `fetch` parameter. The table request is outside the model.
- File I/O: `to_csv`, `read_csv` and `os.path.exists` become the `CacheFile` value. Reading back a
  CSV can change column types, for example numeric ids or a NaN `parent_id`. The model does not
  capture such changes.
- pandas: `pd.DataFrame(dictData)` is not modelled, because it is library code. The model stops at
  the dictionary. When headers collide, the lists under a shared header can end up with a different
  length from the others, which pandas rejects. Other collisions, such as headers `A`, `A` and
  `value`, give lists of equal length and so a frame with fewer columns. The model does not say
  which case applies.
- pandas `concat(join='outer')`: column-union semantics are not modelled. Every model row has the
  same five fields. In the source the root row, `pd.DataFrame([root_json])`
  (stat_xplore_schema.py:36), has no `parent_id` column. The outer join at :48 fills that column
  with NaN, and the model's `parentId == None` stands for that NaN.
- `print` and constants: the warnings that `print` emits, `json.dumps`, the API key and the header
  constants are not modelled. None of them affects a result.
- Orchestration and outside helpers: `get_stat_xplore_measure_data` is orchestration over I/O and
  is not modelled. `get_database_fields` and `geography_recodes_for_geog_folder_geog_level` are not
  part of this model; their results are inputs.
- `get_geography_recodes_request_body` is not a separate member. It calls
  `geography_recodes_for_geog_folder_geog_level`, which is not part of this model; its result is
  the `geographyRecodes` input. It then calls `format_recodes_for_api(..., include_total=True)`.
  `BuildRequestBody` states that composition directly.
- GetFullSchema: the walk is bounded by `fuel` tiers and reports `OutOfFuel` when the bound is
  reached. The source has no such bound and does not stop on cyclic schema data.
- GetFullSchema: an empty tier is reported as `EmptyTier`, which stands in for the pandas
  `KeyError` on `new_schema['type']`. The model does not raise anything.
- FormatRecodesForApi: `include_total` is a `bool`. Python's `== False` comparison for non-boolean
  values, such as 0, is not modelled.
- Failed schema requests: the model's `Failed` and `RootFailed` outcomes are the
  `success == False` handling the code intends. As written, `request_schema` (stat_xplore_schema.py:151)
  calls `raise_for_status()`, which raises `HTTPError` on a failed request. Nothing in
  `get_children_schema_of_url` (its `try` wraps only the cache read),
  `get_lower_tier_schema_from_upper_tier_schema` or `get_full_schema` catches it, so one failed
  request ends the whole walk with an exception. The model does not capture that abort. It skips a
  failed location (`TierMembers`, `GetLowerTierSchemaFromUpperTierSchema`) and reports a failed
  root as `RootFailed` (`GetFullSchema`).
- Missing `children` key: `SchemaResponse` always has a `children` list. The `KeyError` that
  `del root_json['children']` (stat_xplore_schema.py:33) or `schema_response_json['children']`
  (:136) raises on a response without one is not modelled. Nothing in the source catches it.
- UnpackFieldItems: the unknown-key warning is not modelled. Only the lookup failure that follows
  it is.
- JsonResponseToDataframe: the response is a typed record. It always has `fields` (each with
  `label` and `items`), `measures` (each with `uri`) and `cubes`, and each cube is its `values`
  array. The model does not include the `KeyError` the source raises when one of the `fields`,
  `items`, `label`, `measures`, `uri`, `cubes` or `values` keys is missing
  (stat_xplore_table.py:30-35). It does model the missing cube under the measure's uri as
  `MissingCube`.
