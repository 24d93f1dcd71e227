/** The scan of a file's header row (`name:TYPE` columns) that locates the
    optional LABEL column of a vertex file and the endpoint columns of an
    edge file. */
module HeaderScan {
  import opened Outcomes
  import opened Text
  import opened IdentityRegistry

  /** `s.split(':').collect()[1]`: the TYPE part of a column; a column without
      `:` has none (indexing `v[1]` panics). */
  function ColumnType(column: string): Option<string> {
    var parts := Split(column, ':');
    if |parts| < 2 then None else Some(parts[1])
  }

  predicate Typed(column: string) {
    ColumnType(column).Some?
  }

  predicate IsLabelColumn(column: string) {
    ColumnType(column) == Some("LABEL")
  }

  predicate TypeStartsWith(column: string, prefix: string) {
    ColumnType(column).Some? && StartsWith(ColumnType(column).value, prefix)
  }

  /** What the vertex header scan accepts and what it finds, stated over the
      whole header at once: every column is typed, an `ID…` column may only
      be the first one, at most one column is `LABEL`; the result is the
      position of that column, if any. */
  ghost function VertexColumns(header: seq<string>): Result<Option<nat>> {
    if && (forall i :: 0 <= i < |header| ==> Typed(header[i]))
       && (forall i :: 0 <= i < |header| && TypeStartsWith(header[i], "ID") ==> i == 0)
       && (forall i, j :: 0 <= i < j < |header| && IsLabelColumn(header[i]) ==> !IsLabelColumn(header[j]))
    then
      if exists i :: 0 <= i < |header| && IsLabelColumn(header[i])
      then Ok(Some(var i :| 0 <= i < |header| && IsLabelColumn(header[i]); i))
      else Ok(None)
    else Fatal
  }

  /** The column found is the one and only LABEL column; when none is found
      there is none. */
  lemma LabelColumnUnique(header: seq<string>)
    ensures VertexColumns(header).Ok? && VertexColumns(header).value.Some? ==>
      var k := VertexColumns(header).value.value;
      k < |header| && IsLabelColumn(header[k]) && forall j :: 0 <= j < |header| && j != k ==> !IsLabelColumn(header[j])
    ensures VertexColumns(header) == Ok(None) ==> forall j :: 0 <= j < |header| ==> !IsLabelColumn(header[j])
  {
    if VertexColumns(header).Ok? && VertexColumns(header).value.Some? {
      var k := VertexColumns(header).value.value;
      forall j | 0 <= j < |header| && j != k ensures !IsLabelColumn(header[j]) {
        if j < k {
          assert IsLabelColumn(header[k]);
        }
      }
    }
  }

  /** The header loop of `import_vertex`. */
  method ScanVertexHeader(header: seq<string>) returns (r: Result<Option<nat>>)
    ensures r == VertexColumns(header)
  {
    var labelIndex: Option<nat> := None;
    var idIndex := 0;
    for i := 0 to |header|
      invariant forall k :: 0 <= k < i ==> Typed(header[k])
      invariant forall k :: 0 <= k < i && TypeStartsWith(header[k], "ID") ==> k == 0
      invariant forall k, l :: 0 <= k < l < i && IsLabelColumn(header[k]) ==> !IsLabelColumn(header[l])
      invariant labelIndex.None? ==> forall k :: 0 <= k < i ==> !IsLabelColumn(header[k])
      invariant labelIndex.Some? ==> labelIndex.value < i && IsLabelColumn(header[labelIndex.value])
    {
      var v := Split(header[i], ':');
      if |v| < 2 {
        return Fatal;
      }
      var propType := v[1];
      if propType == "LABEL" {
        assert !StartsWith(propType, "ID") by {
          assert propType[..2] == "LA";
        }
        if labelIndex.Some? {
          return Fatal;
        }
        labelIndex := Some(i);
      } else if StartsWith(propType, "ID") {
        if idIndex != i {
          return Fatal;
        }
      }
    }
    r := Ok(labelIndex);
  }

  /** For each endpoint of an edge file, the registry its ids are resolved
      through, if any. */
  datatype Endpoints = Endpoints(src: Option<Family>, dst: Option<Family>)

  /** What the edge header scan accepts and what it finds: every column is
      typed, a `START_ID…` column may only be the first one and an `END_ID…`
      column only the second one; an endpoint is resolved through a registry
      exactly when its column is present and its nominal label is `Place` or
      `Organisation`. */
  ghost function EdgeColumns(header: seq<string>, srcLabel: string, dstLabel: string): Result<Endpoints> {
    if && (forall i :: 0 <= i < |header| ==> Typed(header[i]))
       && (forall i :: 0 <= i < |header| && TypeStartsWith(header[i], "START_ID") ==> i == 0)
       && (forall i :: 0 <= i < |header| && TypeStartsWith(header[i], "END_ID") ==> i == 1)
    then
      Ok(Endpoints(
        if 0 < |header| && TypeStartsWith(header[0], "START_ID") then NominalFamily(srcLabel) else None,
        if 1 < |header| && TypeStartsWith(header[1], "END_ID") then NominalFamily(dstLabel) else None))
    else Fatal
  }

  /** No column type starts with both endpoint prefixes. */
  lemma EndpointPrefixesDisjoint(t: string)
    ensures StartsWith(t, "START_ID") ==> !StartsWith(t, "END_ID")
  {
    if StartsWith(t, "START_ID") {
      assert t[0] == "START_ID"[0];
    }
  }

  /** The header loop of `import_edge`. Attaching a registry to an endpoint
      that already has one is fatal (the second half of each guard); since
      each endpoint column must sit at a fixed index, that half can never be
      the reason a header is refused, and `EdgeColumns` does not mention it. */
  method ScanEdgeHeader(header: seq<string>, srcLabel: string, dstLabel: string) returns (r: Result<Endpoints>)
    ensures r == EdgeColumns(header, srcLabel, dstLabel)
  {
    var srcIdIndex, dstIdIndex := 0, 1;
    var srcMap: Option<Family> := None;
    var dstMap: Option<Family> := None;
    for i := 0 to |header|
      invariant forall k :: 0 <= k < i ==> Typed(header[k])
      invariant forall k :: 0 <= k < i && TypeStartsWith(header[k], "START_ID") ==> k == 0
      invariant forall k :: 0 <= k < i && TypeStartsWith(header[k], "END_ID") ==> k == 1
      invariant srcMap == if 0 < i && TypeStartsWith(header[0], "START_ID") then NominalFamily(srcLabel) else None
      invariant dstMap == if 1 < i && TypeStartsWith(header[1], "END_ID") then NominalFamily(dstLabel) else None
    {
      var v := Split(header[i], ':');
      if |v| < 2 {
        return Fatal;
      }
      var propType := v[1];
      EndpointPrefixesDisjoint(propType);
      if StartsWith(propType, "START_ID") {
        var family := NominalFamily(srcLabel);
        if srcIdIndex != i || (family.Some? && srcMap.Some?) {
          return Fatal;
        }
        if family.Some? {
          srcMap := family;
        }
      } else if StartsWith(propType, "END_ID") {
        var family := NominalFamily(dstLabel);
        if dstIdIndex != i || (family.Some? && dstMap.Some?) {
          return Fatal;
        }
        if family.Some? {
          dstMap := family;
        }
      }
    }
    r := Ok(Endpoints(srcMap, dstMap));
  }
}
