/** Walking the Stat-Xplore schema tree tier by tier, with an optional read of the cached schema table
    (stat_xplore_schema.py: get_full_schema, get_lower_tier_schema_from_upper_tier_schema,
    get_children_schema_of_url). The schema end point is a function from url to response. */
module Schema {
  import opened Wrappers
  import opened Collections

  /** A child entry of a schema response. */
  datatype SchemaItem = SchemaItem(id: string, kind: string, labelText: string, location: string)

  /** A successful schema response: the item at the url and its children. */
  datatype SchemaResponse = SchemaResponse(id: string, kind: string, labelText: string, location: string,
                                           children: seq<SchemaItem>)

  /** A row of the schema table (columns id, type, label, location, parent_id); the root row has no
      parent id. */
  datatype SchemaNode = SchemaNode(id: string, kind: string, labelText: string, location: string,
                                   parentId: Option<string>)

  /** `request_schema`: the response at a url, or None for the `success` False result the callers
      handle (as written, a failed request raises instead; see README, "Left out"). */
  type Fetch = string -> Option<SchemaResponse>

  /** The cached schema file: its rows, or None when it does not exist or cannot be read. */
  type CacheFile = Option<seq<SchemaNode>>

  /** The dictionary `get_children_schema_of_url` returns: `success` False with no schema, or the
      children rows and whether they came from the cache. */
  datatype ChildrenResult = Failed | Found(schema: seq<SchemaNode>, fromCache: bool)

  /** The root response with its `children` key deleted, as the first row of the schema table. */
  function RootNode(resp: SchemaResponse): SchemaNode
  {
    SchemaNode(resp.id, resp.kind, resp.labelText, resp.location, None)
  }

  function Tagged(item: SchemaItem, parentId: string): SchemaNode
  {
    SchemaNode(item.id, item.kind, item.labelText, item.location, Some(parentId))
  }

  /** `pd.DataFrame(children)` with the `parent_id` column set to the response's id. */
  function TagChildren(resp: SchemaResponse): seq<SchemaNode>
  {
    seq(|resp.children|, i requires 0 <= i < |resp.children| => Tagged(resp.children[i], resp.id))
  }

  /** The index of the first row whose location is the url. */
  function FirstWithLocation(rows: seq<SchemaNode>, url: string): (r: Option<nat>)
    ensures r.Some? ==> r.value < |rows| && rows[r.value].location == url
    ensures r.Some? ==> forall j :: 0 <= j < r.value ==> rows[j].location != url
    ensures r.None? ==> forall j :: 0 <= j < |rows| ==> rows[j].location != url
    decreases |rows|
  {
    if |rows| == 0 then None
    else if rows[0].location == url then Some(0)
    else match FirstWithLocation(rows[1..], url)
      case None => None
      case Some(i) => Some(i + 1)
  }

  /** The rows whose parent id is the given id, in table order. */
  function ChildrenOf(rows: seq<SchemaNode>, parentId: string): seq<SchemaNode>
  {
    Filter(rows, (n: SchemaNode) => n.parentId == Some(parentId))
  }

  /** The cache lookup: the children of the first row at the url, or None when no row has the url or
      that row has no children (the `IndexError` and the failed `assert`). */
  function CachedChildren(rows: seq<SchemaNode>, url: string): (r: Option<seq<SchemaNode>>)
    ensures r.Some? ==> FirstWithLocation(rows, url).Some? && |r.value| > 0
    ensures r.Some? ==> |r.value| <= |rows|
  {
    match FirstWithLocation(rows, url)
    case None => None
    case Some(i) =>
      var kids := ChildrenOf(rows, rows[i].id);
      if |kids| == 0 then None else Some(kids)
  }

  /** A cache hit is exactly the set of rows whose parent id is the id of the first row at the url. */
  lemma CachedChildrenRows(rows: seq<SchemaNode>, url: string)
    ensures CachedChildren(rows, url).Some? ==>
      && FirstWithLocation(rows, url).Some?
      && |CachedChildren(rows, url).value| > 0
      && forall n :: n in CachedChildren(rows, url).value <==>
        n in rows && n.parentId == Some(rows[FirstWithLocation(rows, url).value].id)
    ensures CachedChildren(rows, url).None? <==>
      || FirstWithLocation(rows, url).None?
      || forall n :: n in rows ==> n.parentId != Some(rows[FirstWithLocation(rows, url).value].id)
  {
    var first := FirstWithLocation(rows, url);
    if first.Some? {
      var pid := rows[first.value].id;
      var p := (n: SchemaNode) => n.parentId == Some(pid);
      var kids := ChildrenOf(rows, pid);
      forall n {
        FilterMember(rows, p, n);
      }
      if |kids| > 0 {
        assert kids[0] in kids;
      }
    }
  }

  /** `get_children_schema_of_url`: the cached children when the cache is to be checked, the file is
      there and holds children for the url; otherwise the live response's children tagged with its
      id; `Failed` when that request fails. */
  function GetChildrenSchemaOfUrl(fetch: Fetch, url: string, checkCache: bool, cacheFile: CacheFile): (r: ChildrenResult)
    ensures r.Failed? ==> fetch(url).None?
    ensures r.Found? && r.fromCache ==> checkCache && cacheFile.Some? && 0 < |r.schema| <= |cacheFile.value|
    ensures r.Found? && !r.fromCache ==> fetch(url).Some? && |r.schema| == |fetch(url).value.children|
  {
    var cached := if checkCache && cacheFile.Some? then CachedChildren(cacheFile.value, url) else None;
    if cached.Some? then Found(cached.value, true)
    else match fetch(url)
      case None => Failed
      case Some(resp) => Found(TagChildren(resp), false)
  }

  /** The three outcomes of `get_children_schema_of_url`: a cache hit is a non-empty list of cached
      rows; a live result is the response's children, in order, tagged with the response's id; the
      lookup fails exactly when there is no hit and the request fails. */
  lemma ChildrenSchemaCases(fetch: Fetch, url: string, checkCache: bool, cacheFile: CacheFile)
    ensures var r := GetChildrenSchemaOfUrl(fetch, url, checkCache, cacheFile);
      && (r.Found? && r.fromCache <==>
            checkCache && cacheFile.Some? && CachedChildren(cacheFile.value, url).Some?)
      && (r.Found? && r.fromCache ==>
            r.schema == CachedChildren(cacheFile.value, url).value && |r.schema| > 0)
      && (r.Found? && !r.fromCache ==>
            && fetch(url).Some?
            && |r.schema| == |fetch(url).value.children|
            && forall i :: 0 <= i < |r.schema| ==>
                 r.schema[i] == Tagged(fetch(url).value.children[i], fetch(url).value.id))
      && (r.Failed? <==>
            !(checkCache && cacheFile.Some? && CachedChildren(cacheFile.value, url).Some?) && fetch(url).None?)
  {
  }

  /** An empty list of children from the cache is never a hit: the lookup falls through to the live
      request, whose outcome is then the result. */
  lemma EmptyCacheEntryFallsThrough(fetch: Fetch, url: string, cacheFile: CacheFile)
    requires cacheFile.Some?
    requires var first := FirstWithLocation(cacheFile.value, url);
      first.Some? ==> forall n :: n in cacheFile.value ==> n.parentId != Some(cacheFile.value[first.value].id)
    ensures GetChildrenSchemaOfUrl(fetch, url, true, cacheFile) == GetChildrenSchemaOfUrl(fetch, url, false, cacheFile)
  {
    CachedChildrenRows(cacheFile.value, url);
  }

  function SchemaOf(r: ChildrenResult): seq<SchemaNode>
  {
    if r.Found? then r.schema else []
  }

  /** Every row `get_children_schema_of_url` returns has a parent id. */
  lemma ChildrenHaveParent(fetch: Fetch, url: string, checkCache: bool, cacheFile: CacheFile)
    ensures forall n :: n in SchemaOf(GetChildrenSchemaOfUrl(fetch, url, checkCache, cacheFile)) ==> n.parentId.Some?
  {
    if checkCache && cacheFile.Some? {
      CachedChildrenRows(cacheFile.value, url);
    }
  }

  function Locations(rows: seq<SchemaNode>): seq<string>
  {
    seq(|rows|, i requires 0 <= i < |rows| => rows[i].location)
  }

  /** The children of each location in turn, concatenated; a failed location contributes nothing. */
  function TierOf(fetch: Fetch, locations: seq<string>, checkCache: bool, cacheFile: CacheFile): seq<SchemaNode>
    decreases |locations|
  {
    if |locations| == 0 then []
    else
      TierOf(fetch, locations[..|locations| - 1], checkCache, cacheFile) +
      SchemaOf(GetChildrenSchemaOfUrl(fetch, locations[|locations| - 1], checkCache, cacheFile))
  }

  /** What `get_lower_tier_schema_from_upper_tier_schema` returns for a table of parent rows. */
  function LowerTier(fetch: Fetch, parents: seq<SchemaNode>, checkCache: bool, cacheFile: CacheFile): (r: seq<SchemaNode>)
    ensures forall n :: n in r ==> n.parentId.Some?
  {
    TierHasParents(fetch, Distinct(Locations(parents)), checkCache, cacheFile);
    TierOf(fetch, Distinct(Locations(parents)), checkCache, cacheFile)
  }

  /** The tier of a list of locations holds exactly the children found for each of them. */
  lemma {:induction false} TierMembers(fetch: Fetch, locations: seq<string>, checkCache: bool, cacheFile: CacheFile, n: SchemaNode)
    ensures n in TierOf(fetch, locations, checkCache, cacheFile) <==>
      exists i :: 0 <= i < |locations| && n in SchemaOf(GetChildrenSchemaOfUrl(fetch, locations[i], checkCache, cacheFile))
    decreases |locations|
  {
    if |locations| > 0 {
      var init := locations[..|locations| - 1];
      TierMembers(fetch, init, checkCache, cacheFile, n);
      assert forall i :: 0 <= i < |init| ==> init[i] == locations[i];
    }
  }

  /** Tiers of consecutive location lists are consecutive: the children lists stay in location order. */
  lemma {:induction false} TierConcat(fetch: Fetch, xs: seq<string>, ys: seq<string>, checkCache: bool, cacheFile: CacheFile)
    ensures TierOf(fetch, xs + ys, checkCache, cacheFile) ==
      TierOf(fetch, xs, checkCache, cacheFile) + TierOf(fetch, ys, checkCache, cacheFile)
    decreases |ys|
  {
    if |ys| > 0 {
      var ys' := ys[..|ys| - 1];
      var whole := xs + ys;
      assert whole[..|whole| - 1] == xs + ys';
      assert whole[|whole| - 1] == ys[|ys| - 1];
      TierConcat(fetch, xs, ys', checkCache, cacheFile);
      assert TierOf(fetch, whole, checkCache, cacheFile) ==
        TierOf(fetch, xs + ys', checkCache, cacheFile) +
        SchemaOf(GetChildrenSchemaOfUrl(fetch, ys[|ys| - 1], checkCache, cacheFile));
    } else {
      assert xs + ys == xs;
    }
  }

  /** Every row of a tier has a parent id. */
  lemma {:induction false} TierHasParents(fetch: Fetch, locations: seq<string>, checkCache: bool, cacheFile: CacheFile)
    ensures forall n :: n in TierOf(fetch, locations, checkCache, cacheFile) ==> n.parentId.Some?
    decreases |locations|
  {
    if |locations| > 0 {
      TierHasParents(fetch, locations[..|locations| - 1], checkCache, cacheFile);
      ChildrenHaveParent(fetch, locations[|locations| - 1], checkCache, cacheFile);
    }
  }

  /** The lower tier of a parent table holds exactly the children found at the parents' locations. */
  lemma LowerTierMembers(fetch: Fetch, parents: seq<SchemaNode>, checkCache: bool, cacheFile: CacheFile, n: SchemaNode)
    ensures n in LowerTier(fetch, parents, checkCache, cacheFile) <==>
      exists i :: 0 <= i < |parents| &&
        n in SchemaOf(GetChildrenSchemaOfUrl(fetch, parents[i].location, checkCache, cacheFile))
  {
    var locs := Distinct(Locations(parents));
    TierMembers(fetch, locs, checkCache, cacheFile, n);
    if n in LowerTier(fetch, parents, checkCache, cacheFile) {
      var i :| 0 <= i < |locs| && n in SchemaOf(GetChildrenSchemaOfUrl(fetch, locs[i], checkCache, cacheFile));
      DistinctMember(Locations(parents), locs[i]);
      var k :| 0 <= k < |parents| && Locations(parents)[k] == locs[i];
      assert parents[k].location == locs[i];
    }
    if exists i :: 0 <= i < |parents| &&
        n in SchemaOf(GetChildrenSchemaOfUrl(fetch, parents[i].location, checkCache, cacheFile)) {
      var i :| 0 <= i < |parents| &&
        n in SchemaOf(GetChildrenSchemaOfUrl(fetch, parents[i].location, checkCache, cacheFile));
      assert Locations(parents)[i] == parents[i].location;
      DistinctMember(Locations(parents), parents[i].location);
      var k :| 0 <= k < |locs| && locs[k] == parents[i].location;
    }
  }

  /** `get_lower_tier_schema_from_upper_tier_schema`: fetches the children of each distinct parent
      location once, in order of first occurrence, skips a location that fails, and concatenates. */
  method GetLowerTierSchemaFromUpperTierSchema(fetch: Fetch, parents: seq<SchemaNode>, checkCache: bool,
                                               cacheFile: CacheFile)
    returns (lowerTier: seq<SchemaNode>)
    ensures lowerTier == LowerTier(fetch, parents, checkCache, cacheFile)
    ensures forall n :: n in lowerTier ==> n.parentId.Some?
  {
    var parentLocations := Distinct(Locations(parents));
    lowerTier := [];
    for i := 0 to |parentLocations|
      invariant lowerTier == TierOf(fetch, parentLocations[..i], checkCache, cacheFile)
    {
      assert parentLocations[..i + 1][..i] == parentLocations[..i];
      var childrenResult := GetChildrenSchemaOfUrl(fetch, parentLocations[i], checkCache, cacheFile);
      if childrenResult.Failed? {
        continue;
      }
      lowerTier := lowerTier + childrenResult.schema;
    }
    assert parentLocations[..|parentLocations|] == parentLocations;
    TierHasParents(fetch, parentLocations, checkCache, cacheFile);
  }

  /** `new_schema.loc[new_schema['type'].isin(types_to_include)]` */
  function Select(tier: seq<SchemaNode>, typesToInclude: seq<string>): seq<SchemaNode>
  {
    Filter(tier, (n: SchemaNode) => n.kind in typesToInclude)
  }

  /** The next frontier is exactly the rows of the tier whose type is to be included. */
  lemma SelectRows(tier: seq<SchemaNode>, typesToInclude: seq<string>)
    ensures forall n :: n in Select(tier, typesToInclude) <==> n in tier && n.kind in typesToInclude
  {
    forall n {
      FilterMember(tier, (n: SchemaNode) => n.kind in typesToInclude, n);
    }
  }

  /** How a walk ended. The source returns None when the root request fails, and its `DataFrame`
      when the frontier runs empty; on a tier with no rows it raises `KeyError` on
      `new_schema['type']`. `OutOfFuel` is the model's bound on the number of tiers. */
  datatype WalkOutcome =
    | RootFailed
    | Complete(schema: seq<SchemaNode>)
    | EmptyTier(schema: seq<SchemaNode>)
    | OutOfFuel(schema: seq<SchemaNode>)

  /** The outcome of a walk together with the schema file as it was last written. */
  datatype Walk = Walk(outcome: WalkOutcome, fileAfter: CacheFile)

  /** A function from a parent table and the schema file to the parents' lower tier. */
  type TierFunction = (seq<SchemaNode>, CacheFile) -> seq<SchemaNode>

  /** The tier function the walk uses: `get_lower_tier_schema_from_upper_tier_schema` over the fetch. */
  function LowerTierOf(fetch: Fetch, checkCache: bool): TierFunction
  {
    (parents: seq<SchemaNode>, file: CacheFile) => LowerTier(fetch, parents, checkCache, file)
  }

  /** The walk from a frontier: while the frontier is not empty, append its lower tier (read against
      the file as last written) to the schema, rewrite the file with the schema, and make the tier's
      rows of an included type the next frontier. */
  function WalkFrom(lower: TierFunction, typesToInclude: seq<string>, fullSchema: seq<SchemaNode>,
                    stillToMap: seq<SchemaNode>, file: CacheFile, fuel: nat): (w: Walk)
    ensures !w.outcome.RootFailed?
    decreases fuel
  {
    if |stillToMap| == 0 then Walk(Complete(fullSchema), file)
    else if fuel == 0 then Walk(OutOfFuel(fullSchema), file)
    else
      var newSchema := lower(stillToMap, file);
      if |newSchema| == 0 then Walk(EmptyTier(fullSchema), file)
      else WalkFrom(lower, typesToInclude, fullSchema + newSchema, Select(newSchema, typesToInclude),
                    Some(fullSchema + newSchema), fuel - 1)
  }

  /** The whole walk from the url: the root response's row is both the first schema row and the
      first frontier. */
  function FullSchema(fetch: Fetch, url: string, typesToInclude: seq<string>, checkCache: bool,
                      cacheFile: CacheFile, fuel: nat): (w: Walk)
    ensures w.outcome.RootFailed? <==> fetch(url).None?
    ensures w.outcome.RootFailed? ==> w.fileAfter == cacheFile
  {
    match fetch(url)
    case None => Walk(RootFailed, cacheFile)
    case Some(resp) =>
      WalkFrom(LowerTierOf(fetch, checkCache), typesToInclude, [RootNode(resp)], [RootNode(resp)], cacheFile, fuel)
  }

  /** The schema only grows: the walk ends with the schema it started from followed by the rows it
      added, and the file is untouched exactly when no row was added. Running out of fuel happens
      only after `fuel` non-empty tiers. */
  lemma {:induction false} WalkGrows(lower: TierFunction, typesToInclude: seq<string>, fullSchema: seq<SchemaNode>,
                                     stillToMap: seq<SchemaNode>, file: CacheFile, fuel: nat)
    ensures var w := WalkFrom(lower, typesToInclude, fullSchema, stillToMap, file, fuel);
      && fullSchema <= w.outcome.schema
      && w.fileAfter == (if |w.outcome.schema| == |fullSchema| then file else Some(w.outcome.schema))
      && (w.outcome.OutOfFuel? ==> |w.outcome.schema| >= |fullSchema| + fuel)
    decreases fuel
  {
    if |stillToMap| > 0 && fuel > 0 {
      var newSchema := lower(stillToMap, file);
      if |newSchema| > 0 {
        var grown := fullSchema + newSchema;
        WalkGrows(lower, typesToInclude, grown, Select(newSchema, typesToInclude), Some(grown), fuel - 1);
        var w := WalkFrom(lower, typesToInclude, grown, Select(newSchema, typesToInclude), Some(grown), fuel - 1);
        assert grown[..|fullSchema|] == fullSchema;
        assert w.outcome.schema[..|fullSchema|] == grown[..|fullSchema|];
        assert |w.outcome.schema| >= |grown| > |fullSchema|;
        if |w.outcome.schema| == |grown| {
          assert w.outcome.schema == w.outcome.schema[..|grown|] == grown;
        }
      }
    }
  }

  /** Every row after the first carries a parent id when every row the tier function returns does. */
  lemma {:induction false} WalkRowsHaveParents(lower: TierFunction, typesToInclude: seq<string>,
                                               fullSchema: seq<SchemaNode>, stillToMap: seq<SchemaNode>,
                                               file: CacheFile, fuel: nat)
    requires |fullSchema| >= 1
    requires forall n :: n in fullSchema[1..] ==> n.parentId.Some?
    requires forall parents, f, n :: n in lower(parents, f) ==> n.parentId.Some?
    ensures var w := WalkFrom(lower, typesToInclude, fullSchema, stillToMap, file, fuel);
      !w.outcome.RootFailed? && |w.outcome.schema| >= 1 && w.outcome.schema[0] == fullSchema[0] &&
      forall n :: n in w.outcome.schema[1..] ==> n.parentId.Some?
    decreases fuel
  {
    if |stillToMap| > 0 && fuel > 0 {
      var newSchema := lower(stillToMap, file);
      if |newSchema| > 0 {
        var grown := fullSchema + newSchema;
        assert grown[1..] == fullSchema[1..] + newSchema;
        WalkRowsHaveParents(lower, typesToInclude, grown, Select(newSchema, typesToInclude), Some(grown), fuel - 1);
      }
    }
  }

  /** Every row of every lower tier of the walk carries a parent id. */
  lemma LowerTierOfHasParents(fetch: Fetch, checkCache: bool)
    ensures forall parents, f, n :: n in LowerTierOf(fetch, checkCache)(parents, f) ==> n.parentId.Some?
  {
    forall parents, f
      ensures forall n :: n in LowerTierOf(fetch, checkCache)(parents, f) ==> n.parentId.Some?
    {
      TierHasParents(fetch, Distinct(Locations(parents)), checkCache, f);
    }
  }

  /** One pass of the walk's loop: the frontier, the file as it stood, and the tier fetched. */
  datatype Step = Step(parents: seq<SchemaNode>, file: CacheFile, rows: seq<SchemaNode>)

  /** The passes a walk makes, in order. */
  function WalkSteps(lower: TierFunction, typesToInclude: seq<string>, fullSchema: seq<SchemaNode>,
                     stillToMap: seq<SchemaNode>, file: CacheFile, fuel: nat): (steps: seq<Step>)
    ensures |steps| <= fuel
    decreases fuel
  {
    if |stillToMap| == 0 || fuel == 0 then []
    else
      var newSchema := lower(stillToMap, file);
      if |newSchema| == 0 then []
      else
        var rest := WalkSteps(lower, typesToInclude, fullSchema + newSchema, Select(newSchema, typesToInclude),
                              Some(fullSchema + newSchema), fuel - 1);
        [Step(stillToMap, file, newSchema)] + rest
  }

  function RowsOf(steps: seq<Step>): seq<seq<SchemaNode>>
  {
    seq(|steps|, i requires 0 <= i < |steps| => steps[i].rows)
  }

  lemma RowsOfCons(step: Step, steps: seq<Step>)
    ensures RowsOf([step] + steps) == [step.rows] + RowsOf(steps)
  {
    assert forall k :: 1 <= k < |steps| + 1 ==> ([step] + steps)[k] == steps[k - 1];
  }

  /** The tiers of a first pass and of the passes after it, appended to a schema. */
  lemma PrependTier(fullSchema: seq<SchemaNode>, step: Step, rest: seq<Step>)
    ensures fullSchema + Concat(RowsOf([step] + rest)) == (fullSchema + step.rows) + Concat(RowsOf(rest))
  {
    RowsOfCons(step, rest);
    ConcatCons(step.rows, RowsOf(rest));
  }

  /** The frontier after the given passes. */
  function LastFrontier(stillToMap: seq<SchemaNode>, typesToInclude: seq<string>, steps: seq<Step>): seq<SchemaNode>
  {
    if |steps| == 0 then stillToMap else Select(steps[|steps| - 1].rows, typesToInclude)
  }

  /** The walk's schema is the starting schema followed by each fetched tier in order. */
  lemma {:induction false} WalkAppendsTiers(lower: TierFunction, typesToInclude: seq<string>, fullSchema: seq<SchemaNode>,
                                            stillToMap: seq<SchemaNode>, file: CacheFile, fuel: nat)
    ensures var steps := WalkSteps(lower, typesToInclude, fullSchema, stillToMap, file, fuel);
      && WalkFrom(lower, typesToInclude, fullSchema, stillToMap, file, fuel).outcome.schema ==
         fullSchema + Concat(RowsOf(steps))
    decreases fuel
  {
    var steps := WalkSteps(lower, typesToInclude, fullSchema, stillToMap, file, fuel);
    if |stillToMap| > 0 && fuel > 0 && |lower(stillToMap, file)| > 0 {
      var newSchema := lower(stillToMap, file);
      var grown := fullSchema + newSchema;
      var rest := WalkSteps(lower, typesToInclude, grown, Select(newSchema, typesToInclude), Some(grown), fuel - 1);
      WalkAppendsTiers(lower, typesToInclude, grown, Select(newSchema, typesToInclude), Some(grown), fuel - 1);
      assert WalkFrom(lower, typesToInclude, fullSchema, stillToMap, file, fuel) ==
        WalkFrom(lower, typesToInclude, grown, Select(newSchema, typesToInclude), Some(grown), fuel - 1);
      assert steps == [Step(stillToMap, file, newSchema)] + rest;
      PrependTier(fullSchema, Step(stillToMap, file, newSchema), rest);
    } else {
      assert steps == [];
      assert Concat(RowsOf(steps)) == [];
      assert fullSchema + [] == fullSchema;
    }
  }

  /** The pass expanded a non-empty frontier into the non-empty tier the tier function gives for it. */
  predicate StepFetched(lower: TierFunction, step: Step)
  {
    |step.parents| > 0 && |step.rows| > 0 && step.rows == lower(step.parents, step.file)
  }

  /** Each pass fetched the non-empty lower tier of its non-empty frontier, read against the file as
      it stood then. */
  lemma {:induction false} WalkStepsFetch(lower: TierFunction, typesToInclude: seq<string>, fullSchema: seq<SchemaNode>,
                                          stillToMap: seq<SchemaNode>, file: CacheFile, fuel: nat)
    ensures forall step :: step in WalkSteps(lower, typesToInclude, fullSchema, stillToMap, file, fuel) ==>
      StepFetched(lower, step)
    decreases fuel
  {
    var steps := WalkSteps(lower, typesToInclude, fullSchema, stillToMap, file, fuel);
    if |stillToMap| > 0 && fuel > 0 && |lower(stillToMap, file)| > 0 {
      var newSchema := lower(stillToMap, file);
      var grown := fullSchema + newSchema;
      var rest := WalkSteps(lower, typesToInclude, grown, Select(newSchema, typesToInclude), Some(grown), fuel - 1);
      WalkStepsFetch(lower, typesToInclude, grown, Select(newSchema, typesToInclude), Some(grown), fuel - 1);
      assert steps == [Step(stillToMap, file, newSchema)] + rest;
    }
  }

  /** Pass k + 1 reads the file as pass k left it: `to_csv` of the starting schema followed by the
      tiers of passes 0 to k. */
  lemma {:induction false} WalkStepFile(lower: TierFunction, typesToInclude: seq<string>, fullSchema: seq<SchemaNode>,
                                        stillToMap: seq<SchemaNode>, file: CacheFile, fuel: nat, k: nat)
    requires k + 1 < |WalkSteps(lower, typesToInclude, fullSchema, stillToMap, file, fuel)|
    ensures var steps := WalkSteps(lower, typesToInclude, fullSchema, stillToMap, file, fuel);
      steps[k + 1].file == Some(fullSchema + Concat(RowsOf(steps[..k + 1])))
    decreases fuel
  {
    var steps := WalkSteps(lower, typesToInclude, fullSchema, stillToMap, file, fuel);
    var newSchema := lower(stillToMap, file);
    var grown := fullSchema + newSchema;
    var next := Select(newSchema, typesToInclude);
    var rest := WalkSteps(lower, typesToInclude, grown, next, Some(grown), fuel - 1);
    var first := Step(stillToMap, file, newSchema);
    assert steps == [first] + rest;
    assert steps[..k + 1] == [first] + rest[..k];
    assert steps[k + 1] == rest[k];
    PrependTier(fullSchema, first, rest[..k]);
    if k == 0 {
      assert rest[..0] == [];
      assert Concat(RowsOf(rest[..0])) == [];
      assert grown + [] == grown;
    } else {
      WalkStepFile(lower, typesToInclude, grown, next, Some(grown), fuel - 1, k - 1);
    }
  }

  /** The first pass expands the starting frontier, and every later frontier is exactly the previous
      tier's rows of an included type: rows of other types are appended but never expanded. The walk
      completes exactly when the last frontier is empty; it stops on an empty tier only when the
      last frontier's lower tier is empty, and runs out of fuel only after `fuel` passes. */
  lemma {:induction false} WalkFrontiers(lower: TierFunction, typesToInclude: seq<string>, fullSchema: seq<SchemaNode>,
                                         stillToMap: seq<SchemaNode>, file: CacheFile, fuel: nat)
    ensures var steps := WalkSteps(lower, typesToInclude, fullSchema, stillToMap, file, fuel);
      var w := WalkFrom(lower, typesToInclude, fullSchema, stillToMap, file, fuel);
      var last := LastFrontier(stillToMap, typesToInclude, steps);
      && (|steps| > 0 ==> steps[0].parents == stillToMap && steps[0].file == file)
      && (forall k :: 0 <= k < |steps| - 1 ==> steps[k + 1].parents == Select(steps[k].rows, typesToInclude))
      && (w.outcome.Complete? <==> |last| == 0)
      && (w.outcome.EmptyTier? ==> |steps| < fuel && lower(last, w.fileAfter) == [])
      && (w.outcome.OutOfFuel? ==> |steps| == fuel)
    decreases fuel
  {
    var steps := WalkSteps(lower, typesToInclude, fullSchema, stillToMap, file, fuel);
    if |stillToMap| > 0 && fuel > 0 && |lower(stillToMap, file)| > 0 {
      var newSchema := lower(stillToMap, file);
      var grown := fullSchema + newSchema;
      var next := Select(newSchema, typesToInclude);
      var rest := WalkSteps(lower, typesToInclude, grown, next, Some(grown), fuel - 1);
      WalkFrontiers(lower, typesToInclude, grown, next, Some(grown), fuel - 1);
      assert WalkFrom(lower, typesToInclude, fullSchema, stillToMap, file, fuel) ==
        WalkFrom(lower, typesToInclude, grown, next, Some(grown), fuel - 1);
      assert steps == [Step(stillToMap, file, newSchema)] + rest;
      assert forall k :: 1 <= k < |steps| ==> steps[k] == rest[k - 1];
      assert LastFrontier(stillToMap, typesToInclude, steps) == LastFrontier(next, typesToInclude, rest);
    }
  }

  /** Without the cache check the file is never read. */
  lemma {:induction false} TierIgnoresFile(fetch: Fetch, locations: seq<string>, file1: CacheFile, file2: CacheFile)
    ensures TierOf(fetch, locations, false, file1) == TierOf(fetch, locations, false, file2)
    decreases |locations|
  {
    if |locations| > 0 {
      TierIgnoresFile(fetch, locations[..|locations| - 1], file1, file2);
    }
  }

  /** A walk whose tier function does not read the file does not depend on the file it starts from. */
  lemma {:induction false} WalkIgnoresFile(lower: TierFunction, typesToInclude: seq<string>, fullSchema: seq<SchemaNode>,
                                           stillToMap: seq<SchemaNode>, file1: CacheFile, file2: CacheFile, fuel: nat)
    requires forall parents, f1, f2 :: lower(parents, f1) == lower(parents, f2)
    ensures WalkFrom(lower, typesToInclude, fullSchema, stillToMap, file1, fuel).outcome ==
            WalkFrom(lower, typesToInclude, fullSchema, stillToMap, file2, fuel).outcome
    decreases fuel
  {
    if |stillToMap| > 0 && fuel > 0 {
      var newSchema := lower(stillToMap, file1);
      assert lower(stillToMap, file2) == newSchema;
      if |newSchema| > 0 {
        var grown := fullSchema + newSchema;
        WalkIgnoresFile(lower, typesToInclude, grown, Select(newSchema, typesToInclude), Some(grown), Some(grown), fuel - 1);
      }
    }
  }

  /** With the cache check off, `get_full_schema` gives the same schema whatever the file holds. */
  lemma FullSchemaIgnoresFileWithoutCache(fetch: Fetch, url: string, typesToInclude: seq<string>,
                                          file1: CacheFile, file2: CacheFile, fuel: nat)
    ensures FullSchema(fetch, url, typesToInclude, false, file1, fuel).outcome ==
            FullSchema(fetch, url, typesToInclude, false, file2, fuel).outcome
  {
    var lower := LowerTierOf(fetch, false);
    forall parents, f1, f2
      ensures lower(parents, f1) == lower(parents, f2)
    {
      TierIgnoresFile(fetch, Distinct(Locations(parents)), f1, f2);
    }
    if fetch(url).Some? {
      var root := RootNode(fetch(url).value);
      WalkIgnoresFile(lower, typesToInclude, [root], [root], file1, file2, fuel);
    }
  }

  /** After a successful root request the schema is the root row followed by every tier the walk
      fetched, in order; the first tier is the root's and each tier is the lower tier of its frontier
      read against the file as it stood then: the given file for the first pass, and for every later
      pass the file the previous pass wrote. */
  lemma FullSchemaTiers(fetch: Fetch, url: string, typesToInclude: seq<string>, checkCache: bool,
                        cacheFile: CacheFile, fuel: nat)
    requires fetch(url).Some?
    ensures var root := RootNode(fetch(url).value);
      var steps := WalkSteps(LowerTierOf(fetch, checkCache), typesToInclude, [root], [root], cacheFile, fuel);
      && FullSchema(fetch, url, typesToInclude, checkCache, cacheFile, fuel).outcome.schema == [root] + Concat(RowsOf(steps))
      && (|steps| > 0 ==> steps[0].parents == [root] && steps[0].file == cacheFile)
      && (forall step :: step in steps ==>
           |step.rows| > 0 && step.rows == LowerTier(fetch, step.parents, checkCache, step.file))
      && forall j :: 1 <= j < |steps| ==> steps[j].file == Some([root] + Concat(RowsOf(steps[..j])))
  {
    var root := RootNode(fetch(url).value);
    var lower := LowerTierOf(fetch, checkCache);
    var steps := WalkSteps(lower, typesToInclude, [root], [root], cacheFile, fuel);
    forall j | 1 <= j < |steps|
      ensures steps[j].file == Some([root] + Concat(RowsOf(steps[..j])))
    {
      WalkStepFile(lower, typesToInclude, [root], [root], cacheFile, fuel, j - 1);
    }
    WalkAppendsTiers(lower, typesToInclude, [root], [root], cacheFile, fuel);
    WalkStepsFetch(lower, typesToInclude, [root], [root], cacheFile, fuel);
    WalkFrontiers(lower, typesToInclude, [root], [root], cacheFile, fuel);
  }

  /** `get_full_schema`: fetches the root, then walks tier by tier, rewriting the schema file after
      each tier. */
  method GetFullSchema(fetch: Fetch, url: string, typesToInclude: seq<string>, checkCache: bool,
                       cacheFile: CacheFile, fuel: nat)
    returns (outcome: WalkOutcome, fileAfter: CacheFile)
    ensures Walk(outcome, fileAfter) == FullSchema(fetch, url, typesToInclude, checkCache, cacheFile, fuel)
    ensures outcome.RootFailed? <==> fetch(url).None?
    ensures !outcome.RootFailed? ==>
      && |outcome.schema| >= 1
      && outcome.schema[0] == RootNode(fetch(url).value)
      && (forall n :: n in outcome.schema[1..] ==> n.parentId.Some?)
      && fileAfter == (if |outcome.schema| == 1 then cacheFile else Some(outcome.schema))
  {
    var rootResponse := fetch(url);
    if rootResponse.None? {
      return RootFailed, cacheFile;
    }
    var root := RootNode(rootResponse.value);
    ghost var lower := LowerTierOf(fetch, checkCache);
    WalkGrows(lower, typesToInclude, [root], [root], cacheFile, fuel);
    LowerTierOfHasParents(fetch, checkCache);
    WalkRowsHaveParents(lower, typesToInclude, [root], [root], cacheFile, fuel);
    var fullSchema := [root];
    var stillToMap := [root];
    var file := cacheFile;
    var remaining: nat := fuel;
    while |stillToMap| > 0
      invariant WalkFrom(lower, typesToInclude, fullSchema, stillToMap, file, remaining) ==
                FullSchema(fetch, url, typesToInclude, checkCache, cacheFile, fuel)
      decreases remaining
    {
      if remaining == 0 {
        return OutOfFuel(fullSchema), file;
      }
      var newSchema := GetLowerTierSchemaFromUpperTierSchema(fetch, stillToMap, checkCache, file);
      if |newSchema| == 0 {
        return EmptyTier(fullSchema), file;
      }
      stillToMap := Select(newSchema, typesToInclude);
      fullSchema := fullSchema + newSchema;
      file := Some(fullSchema);
      remaining := remaining - 1;
    }
    return Complete(fullSchema), file;
  }
}
