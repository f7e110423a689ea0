/** Building the body of a table request (stat_xplore_table.py: build_request_body, get_dimensions_body,
    get_measures_request_body, format_recodes_for_api). */
module RequestBody {
  import opened Wrappers
  import opened Collections

  /** An argument that the source accepts either as one id string or as a list of ids. */
  datatype Ids = OneId(id: string) | IdList(ids: seq<string>)

  /** `[ids] if isinstance(ids, str) else ids` */
  function AsList(ids: Ids): seq<string>
  {
    match ids
    case OneId(id) => [id]
    case IdList(xs) => xs
  }

  /** `get_measures_request_body`: a single measure id becomes a one-element list; a list is kept. */
  function GetMeasuresRequestBody(measureIds: Ids): (r: seq<string>)
    ensures measureIds.OneId? ==> r == [measureIds.id]
    ensures measureIds.IdList? ==> r == measureIds.ids
  {
    AsList(measureIds)
  }

  /** An entry of the request's dimensions list: a field id wrapped in a list, or (from the branch that
      returns the database's field ids as they are) a bare field id. */
  datatype Dimension = BareId(id: string) | IdGroup(ids: seq<string>)

  /** `[[i] for i in ids]` */
  function Group(ids: seq<string>): seq<Dimension>
  {
    seq(|ids|, i requires 0 <= i < |ids| => IdGroup([ids[i]]))
  }

  lemma {:induction false} GroupConcat(xs: seq<string>, ys: seq<string>)
    ensures Group(xs + ys) == Group(xs) + Group(ys)
  {
  }

  /** `get_dimensions_body`, with the database's field ids (the values of `get_database_fields`) given.
      No field ids: all of the database's field ids, unwrapped. Otherwise: the requested ids that the
      database has, each wrapped as a one-element list. */
  function GetDimensionsBody(allFieldIds: seq<string>, fieldIds: Option<Ids>): (r: seq<Dimension>)
    ensures fieldIds.None? ==>
      |r| == |allFieldIds| && forall i :: 0 <= i < |r| ==> r[i] == BareId(allFieldIds[i])
    ensures fieldIds.Some? ==> forall d :: d in r ==>
      d.IdGroup? && |d.ids| == 1 && d.ids[0] in allFieldIds && d.ids[0] in AsList(fieldIds.value)
    ensures fieldIds.Some? ==> forall id :: id in AsList(fieldIds.value) && id in allFieldIds ==>
      IdGroup([id]) in r
  {
    match fieldIds
    case None => seq(|allFieldIds|, i requires 0 <= i < |allFieldIds| => BareId(allFieldIds[i]))
    case Some(ids) =>
      var kept := Filter(AsList(ids), id => id in allFieldIds);
      assert forall id :: id in kept <==> id in AsList(ids) && id in allFieldIds by {
        forall id { FilterMember(AsList(ids), id => id in allFieldIds, id); }
      }
      assert forall k :: 0 <= k < |kept| ==> Group(kept)[k] == IdGroup([kept[k]]);
      Group(kept)
  }

  /** The requested ids are kept in input order: the dimensions for a concatenated request are the
      dimensions of its two halves, one after the other. */
  lemma DimensionsInInputOrder(allFieldIds: seq<string>, xs: seq<string>, ys: seq<string>)
    ensures GetDimensionsBody(allFieldIds, Some(IdList(xs + ys))) ==
      GetDimensionsBody(allFieldIds, Some(IdList(xs))) + GetDimensionsBody(allFieldIds, Some(IdList(ys)))
  {
    var p := id => id in allFieldIds;
    FilterConcat(xs, ys, p);
    GroupConcat(Filter(xs, p), Filter(ys, p));
  }

  /** A requested list made only of the database's field ids is passed through, each id wrapped. */
  lemma DimensionsKeepKnownIds(allFieldIds: seq<string>, xs: seq<string>)
    requires forall i :: 0 <= i < |xs| ==> xs[i] in allFieldIds
    ensures GetDimensionsBody(allFieldIds, Some(IdList(xs))) == Group(xs)
  {
    FilterKeepsAll(xs, id => id in allFieldIds);
  }

  /** Python's `s.split(sep)`: the pieces between separators, including empty ones. */
  function Split(s: string, sep: char): (parts: seq<string>)
    ensures |parts| >= 1
    decreases |s|
  {
    if |s| == 0 then [""]
    else
      var rest := Split(s[1..], sep);
      if s[0] == sep then [""] + rest else [[s[0]] + rest[0]] + rest[1..]
  }

  /** `sep.join(parts)` */
  function Join(parts: seq<string>, sep: char): string
    requires |parts| >= 1
    decreases |parts|
  {
    if |parts| == 1 then parts[0] else parts[0] + [sep] + Join(parts[1..], sep)
  }

  /** Splitting loses nothing: the pieces hold no separator and joining them gives back the string. */
  lemma {:induction false} SplitJoin(s: string, sep: char)
    ensures forall i :: 0 <= i < |Split(s, sep)| ==> sep !in Split(s, sep)[i]
    ensures Join(Split(s, sep), sep) == s
    decreases |s|
  {
    if |s| > 0 {
      var rest := Split(s[1..], sep);
      SplitJoin(s[1..], sep);
      if s[0] == sep {
        assert ([""] + rest)[1..] == rest;
      } else {
        var parts := Split(s, sep);
        assert parts[0] == [s[0]] + rest[0];
        assert parts[1..] == rest[1..];
        if |rest| > 1 {
          assert Join(rest, sep) == rest[0] + [sep] + Join(rest[1..], sep);
        }
        assert s == [s[0]] + s[1..];
      }
    }
  }

  /** A string that does not start with the separator puts its first character on the first piece. */
  lemma SplitGlue(s: string, sep: char)
    requires |s| > 0 && s[0] != sep
    ensures Split(s, sep) == [[s[0]] + Split(s[1..], sep)[0]] + Split(s[1..], sep)[1..]
  {
  }

  /** A separator-free prefix is glued onto the first piece of what follows it. */
  lemma {:induction false} SplitAfterWord(w: string, t: string, sep: char)
    requires sep !in w
    ensures Split(w + t, sep) == [w + Split(t, sep)[0]] + Split(t, sep)[1..]
    decreases |w|
  {
    var rest := Split(t, sep);
    if |w| == 0 {
      assert w + t == t && w + rest[0] == rest[0];
      assert rest == [rest[0]] + rest[1..];
    } else {
      var wt := w + t;
      assert wt[0] == w[0] && wt[1..] == w[1..] + t;
      SplitGlue(wt, sep);
      SplitAfterWord(w[1..], t, sep);
      assert [w[0]] + (w[1..] + rest[0]) == w + rest[0];
    }
  }

  /** Joining separator-free pieces and splitting again gives back the pieces. */
  lemma {:induction false} JoinSplit(parts: seq<string>, sep: char)
    requires |parts| >= 1
    requires forall i :: 0 <= i < |parts| ==> sep !in parts[i]
    ensures Split(Join(parts, sep), sep) == parts
    decreases |parts|
  {
    if |parts| == 1 {
      SplitAfterWord(parts[0], "", sep);
      assert parts[0] + "" == parts[0];
    } else {
      var t := Join(parts[1..], sep);
      JoinSplit(parts[1..], sep);
      assert parts[0] + [sep] + t == parts[0] + ([sep] + t);
      SplitAfterWord(parts[0], [sep] + t, sep);
      assert ([sep] + t)[1..] == t;
      assert parts[0] + "" == parts[0];
      assert parts == [parts[0]] + parts[1..];
    }
  }

  /** A Python dictionary of recodes in insertion order: field id and the values to select. A
      sequence with a repeated field id stands for no dictionary of the source; on one,
      `FormatRecodesForApi` takes the first pair's values. */
  type RecodeDict = seq<(string, seq<string>)>

  /** One entry of the request's recodes object: `{'map': [[v1], [v2], ...], 'total': ...}`. */
  datatype Recode = Recode(groups: seq<seq<string>>, total: bool)

  datatype RequestError =
    | MalformedMeasureId  // IndexError: `measure_id.split(':')[-2]` with fewer than two pieces
    | NoRecodeField       // IndexError: `list(recodes_dict.keys())[0]` of an empty dictionary

  /** The keys of an insertion-ordered dictionary, in order. */
  function Keys<V>(d: seq<(string, V)>): seq<string>
  {
    seq(|d|, i requires 0 <= i < |d| => d[i].0)
  }

  /** `format_recodes_for_api`: only the first recode field is kept; its values are wrapped one per
      list and the total flag is set from `include_total`. */
  function FormatRecodesForApi(recodes: RecodeDict, includeTotal: bool): (r: Result<seq<(string, Recode)>, RequestError>)
    ensures r.Success? <==> |recodes| > 0
    ensures r.Failure? ==> r.error == NoRecodeField
    ensures r.Success? ==> Keys(r.value) == [recodes[0].0]
    ensures r.Success? ==> forall g :: g in r.value[0].1.groups ==> |g| == 1
    ensures r.Success? ==> Concat(r.value[0].1.groups) == recodes[0].1
    ensures r.Success? ==> r.value[0].1.total == includeTotal
  {
    if |recodes| == 0 then Failure(NoRecodeField)
    else
      var fieldId := recodes[0].0;
      var fieldValues := recodes[0].1;
      ConcatWrap(fieldValues);
      var totalValue := if includeTotal == false then false else true;
      var entry := [(fieldId, Recode(Wrap(fieldValues), totalValue))];
      assert Keys(entry) == [fieldId];
      Success(entry)
  }

  /** The table request body. */
  datatype TableRequest = TableRequest(database: string, measures: seq<string>,
                                       recodes: seq<(string, Recode)>, dimensions: seq<Dimension>)

  const DatabasePrefix: string := "str:database:"

  /** `build_request_body`, with the database's field ids and the geography recodes (the results of
      `get_database_fields` and `geography_recodes_for_geog_folder_geog_level`) given. The database id
      comes from the second-to-last ':'-separated piece of the measure id, and every recode field is
      added to the dimensions as a one-element list. */
  function BuildRequestBody(measureId: string, fieldIds: Option<Ids>, allFieldIds: seq<string>,
                            geographyRecodes: RecodeDict): (r: Result<TableRequest, RequestError>)
    ensures r.Success? <==> |Split(measureId, ':')| >= 2 && |geographyRecodes| > 0
    ensures |Split(measureId, ':')| < 2 ==> r == Failure(MalformedMeasureId)
    ensures |Split(measureId, ':')| >= 2 && |geographyRecodes| == 0 ==> r == Failure(NoRecodeField)
    ensures r.Success? ==>
      var pieces := Split(measureId, ':');
      r.value.database == DatabasePrefix + pieces[|pieces| - 2]
    ensures r.Success? ==> r.value.measures == [measureId]
    ensures r.Success? ==> r.value.recodes == FormatRecodesForApi(geographyRecodes, true).value
    ensures r.Success? ==>
      r.value.dimensions == GetDimensionsBody(allFieldIds, fieldIds) + [IdGroup([geographyRecodes[0].0])]
    ensures r.Success? ==> forall k :: k in Keys(r.value.recodes) ==> IdGroup([k]) in r.value.dimensions
  {
    var pieces := Split(measureId, ':');
    if |pieces| < 2 then Failure(MalformedMeasureId)
    else
      var databaseId := DatabasePrefix + pieces[|pieces| - 2];
      var measuresValues := GetMeasuresRequestBody(OneId(measureId));
      match FormatRecodesForApi(geographyRecodes, true)
      case Failure(e) => Failure(e)
      case Success(recodesValues) =>
        var dimensionsValues := GetDimensionsBody(allFieldIds, fieldIds) + Group(Keys(recodesValues));
        assert Group(Keys(recodesValues)) == [IdGroup([geographyRecodes[0].0])];
        Success(TableRequest(databaseId, measuresValues, recodesValues, dimensionsValues))
  }
}
