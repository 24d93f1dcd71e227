/** What one row does to the importer's state, as functions of the state
    before it, and what a whole file of rows does. These are the
    specifications the imperative importer in `Importer` is proved against. */
module Accumulation {
  import opened Outcomes
  import opened Text
  import opened Tables
  import opened IdentityRegistry
  import opened HeaderScan

  /** The importer's whole state (`Context`): the statistics and the two registries. */
  datatype State = State(vertex: VertexTable, edge: EdgeTable, place: map<nat, string>, organisation: map<nat, string>)

  const Initial: State := State(map[], map[], map[], map[])

  function Registry(st: State, family: Family): map<nat, string> {
    match family
    case PlaceFamily => st.place
    case OrganisationFamily => st.organisation
  }

  /** `record[index].parse::<u64>()`: a missing field or a malformed number fails. */
  function IdAt(row: seq<string>, index: nat): Option<nat> {
    if index < |row| then ParseU64(row[index]) else None
  }

  // ---------------------------------------------------------------------------
  // Vertex files.

  /** The label a vertex row counts under: its LABEL field if the file has
      that column, the file's label otherwise; a row too short to hold its
      LABEL field has none. */
  function RowLabel(labelIndex: Option<nat>, fileLabel: string, row: seq<string>): Option<string> {
    match labelIndex
    case None => Some(fileLabel)
    case Some(k) => if k < |row| then Some(row[k]) else None
  }

  /** The registry insertion for a row whose label is known from a LABEL
      column: City/Country/Continent go to `place`, University/Company to
      `organisation`, keyed by the id in column 0; any other label leaves the
      registries alone. A duplicate id is fatal. */
  function Register(st: State, rowLabel: string, row: seq<string>): Result<State> {
    match LabelFamily(rowLabel)
    case None => Ok(st)
    case Some(family) =>
      match IdAt(row, 0)
      case None => Fatal
      case Some(id) =>
        if id in Registry(st, family) then Fatal
        else if family == PlaceFamily then Ok(st.(place := st.place[id := rowLabel]))
        else Ok(st.(organisation := st.organisation[id := rowLabel]))
  }

  /** One vertex row: registry insertion (only with a LABEL column), then one
      more for the row's label and one more for the wildcard. */
  function VertexRow(st: State, labelIndex: Option<nat>, fileLabel: string, row: seq<string>): Result<State> {
    match RowLabel(labelIndex, fileLabel, row)
    case None => Fatal
    case Some(l) =>
      match (if labelIndex.Some? then Register(st, l, row) else Ok(st))
      case Fatal => Fatal
      case Ok(s) => Ok(s.(vertex := Inc(Inc(s.vertex, l), "")))
  }

  /** The rows of a vertex file, in file order; the first failing row aborts. */
  function VertexRows(st: State, labelIndex: Option<nat>, fileLabel: string, rows: seq<seq<string>>): Result<State>
    decreases |rows|
  {
    if rows == [] then Ok(st)
    else
      match VertexRows(st, labelIndex, fileLabel, rows[..|rows| - 1])
      case Fatal => Fatal
      case Ok(s) => VertexRow(s, labelIndex, fileLabel, rows[|rows| - 1])
  }

  /** `import_vertex` on a file with this header and these rows. */
  ghost function ImportVertexSpec(st: State, header: seq<string>, fileLabel: string, rows: seq<seq<string>>): Result<State> {
    match VertexColumns(header)
    case Fatal => Fatal
    case Ok(labelIndex) => VertexRows(st, labelIndex, fileLabel, rows)
  }

  // ---------------------------------------------------------------------------
  // Edge files.

  /** An endpoint's label: the file's nominal label, or, when the endpoint is
      resolved through a registry, the label registered for its id (an
      unknown id is fatal). */
  function EndpointLabel(st: State, family: Option<Family>, nominal: string, id: nat): Result<string> {
    match family
    case None => Ok(nominal)
    case Some(f) => if id in Registry(st, f) then Ok(Registry(st, f)[id]) else Fatal
  }

  /** One edge row: both ids parsed (columns 0 and 1), both endpoints
      resolved, then the 8 cells of the resolved triple bumped. */
  function EdgeRow(st: State, endpoints: Endpoints, src: string, edge: string, dst: string, row: seq<string>): Result<State> {
    match (IdAt(row, 0), IdAt(row, 1))
    case (Some(srcId), Some(dstId)) =>
      (match (EndpointLabel(st, endpoints.src, src, srcId), EndpointLabel(st, endpoints.dst, dst, dstId))
       case (Ok(s), Ok(d)) => Ok(st.(edge := AddEdge(st.edge, s, edge, d)))
       case _ => Fatal)
    case _ => Fatal
  }

  /** The rows of an edge file, in file order; the first failing row aborts. */
  function EdgeRows(st: State, endpoints: Endpoints, src: string, edge: string, dst: string, rows: seq<seq<string>>): Result<State>
    decreases |rows|
  {
    if rows == [] then Ok(st)
    else
      match EdgeRows(st, endpoints, src, edge, dst, rows[..|rows| - 1])
      case Fatal => Fatal
      case Ok(s) => EdgeRow(s, endpoints, src, edge, dst, rows[|rows| - 1])
  }

  /** `import_edge` on a file with this header and these rows. */
  ghost function ImportEdgeSpec(st: State, header: seq<string>, src: string, edge: string, dst: string, rows: seq<seq<string>>): Result<State> {
    match EdgeColumns(header, src, dst)
    case Fatal => Fatal
    case Ok(endpoints) => EdgeRows(st, endpoints, src, edge, dst, rows)
  }

  // ---------------------------------------------------------------------------
  // Aborting: once a prefix of the rows fails, the file fails.

  lemma {:induction false} VertexRowsStop(st: State, labelIndex: Option<nat>, fileLabel: string, rows: seq<seq<string>>, i: nat)
    requires i <= |rows|
    requires VertexRows(st, labelIndex, fileLabel, rows[..i]).Fatal?
    ensures VertexRows(st, labelIndex, fileLabel, rows).Fatal?
    decreases |rows| - i
  {
    if i < |rows| {
      assert rows[..i + 1][..i] == rows[..i];
      VertexRowsStop(st, labelIndex, fileLabel, rows, i + 1);
    } else {
      assert rows[..i] == rows;
    }
  }

  lemma {:induction false} EdgeRowsStop(st: State, endpoints: Endpoints, src: string, edge: string, dst: string, rows: seq<seq<string>>, i: nat)
    requires i <= |rows|
    requires EdgeRows(st, endpoints, src, edge, dst, rows[..i]).Fatal?
    ensures EdgeRows(st, endpoints, src, edge, dst, rows).Fatal?
    decreases |rows| - i
  {
    if i < |rows| {
      assert rows[..i + 1][..i] == rows[..i];
      EdgeRowsStop(st, endpoints, src, edge, dst, rows, i + 1);
    } else {
      assert rows[..i] == rows;
    }
  }

  // ---------------------------------------------------------------------------
  // Properties of one vertex row.

  /** A vertex row adds one to its own label and one to the wildcard and
      changes no other count; the edge table is untouched. */
  lemma VertexRowCounts(st: State, labelIndex: Option<nat>, fileLabel: string, row: seq<string>)
    requires VertexRow(st, labelIndex, fileLabel, row).Ok?
    ensures RowLabel(labelIndex, fileLabel, row).Some?
    ensures var l := RowLabel(labelIndex, fileLabel, row).value;
      var after := VertexRow(st, labelIndex, fileLabel, row).value;
      && (forall x :: Count(after.vertex, x) == Count(st.vertex, x) + (if x == l then 1 else 0) + (if x == "" then 1 else 0))
      && after.edge == st.edge
  {
  }

  /** When a vertex row fails: its LABEL field is missing, or its label
      belongs to a registry family and its id is malformed or already
      registered in that family. */
  lemma VertexRowFatal(st: State, labelIndex: Option<nat>, fileLabel: string, row: seq<string>)
    ensures VertexRow(st, labelIndex, fileLabel, row).Fatal? <==>
      labelIndex.Some? &&
      (labelIndex.value >= |row| ||
       (LabelFamily(row[labelIndex.value]).Some? &&
        (IdAt(row, 0).None? || IdAt(row, 0).value in Registry(st, LabelFamily(row[labelIndex.value]).value))))
  {
  }

  /** How a vertex row changes the registries: with a LABEL column, a
      City/Country/Continent row records its id in `place`, a
      University/Company row in `organisation`; nothing else is recorded. */
  lemma VertexRowRegistry(st: State, labelIndex: Option<nat>, fileLabel: string, row: seq<string>)
    requires VertexRow(st, labelIndex, fileLabel, row).Ok?
    ensures var after := VertexRow(st, labelIndex, fileLabel, row).value;
      var l := RowLabel(labelIndex, fileLabel, row).value;
      && after.place == (if labelIndex.Some? && l in PlaceLabels then st.place[IdAt(row, 0).value := l] else st.place)
      && after.organisation == (if labelIndex.Some? && l in OrganisationLabels then st.organisation[IdAt(row, 0).value := l] else st.organisation)
      && (labelIndex.Some? && LabelFamily(l).Some? ==> IdAt(row, 0).value !in Registry(st, LabelFamily(l).value))
  {
  }

  /** The labels a file's rows count under are all non-empty. */
  ghost predicate LabelsNonEmpty(labelIndex: Option<nat>, fileLabel: string, rows: seq<seq<string>>) {
    match labelIndex
    case None => fileLabel != ""
    case Some(k) => forall j :: 0 <= j < |rows| && k < |rows[j]| ==> rows[j][k] != ""
  }

  /** The invariants of the importer's state: the vertex wildcard is the sum
      of the concrete vertex counts, every wildcard edge cell is the sum of its
      refinements at each level, and the registries hold only labels of their
      own family. */
  ghost predicate Consistent(st: State) {
    && VertexRollUp(st.vertex)
    && EdgeTableRollUp(st.edge)
    && Recorded(st.place, st.organisation)
  }

  lemma InitialConsistent()
    ensures Consistent(Initial)
  {
  }

  /** A vertex file: the wildcard grows by exactly the number of rows, the
      state stays consistent and the edge table is untouched. */
  lemma {:induction false} VertexRowsTotal(st: State, labelIndex: Option<nat>, fileLabel: string, rows: seq<seq<string>>)
    requires VertexRows(st, labelIndex, fileLabel, rows).Ok?
    requires LabelsNonEmpty(labelIndex, fileLabel, rows)
    requires Consistent(st)
    ensures var after := VertexRows(st, labelIndex, fileLabel, rows).value;
      && Count(after.vertex, "") == Count(st.vertex, "") + |rows|
      && Consistent(after)
      && after.edge == st.edge
    decreases |rows|
  {
    if rows != [] {
      var init := rows[..|rows| - 1];
      var last := rows[|rows| - 1];
      assert LabelsNonEmpty(labelIndex, fileLabel, init) by {
        if labelIndex.Some? {
          forall j | 0 <= j < |init| && labelIndex.value < |init[j]| ensures init[j][labelIndex.value] != "" {
            assert init[j] == rows[j];
          }
        }
      }
      VertexRowsTotal(st, labelIndex, fileLabel, init);
      var mid := VertexRows(st, labelIndex, fileLabel, init).value;
      var l := RowLabel(labelIndex, fileLabel, last).value;
      assert l != "";
      VertexRowCounts(mid, labelIndex, fileLabel, last);
      VertexRowRegistry(mid, labelIndex, fileLabel, last);
      var registered := if labelIndex.Some? then Register(mid, l, last).value else mid;
      IncPairRollUp(registered.vertex, l);
    }
  }

  // ---------------------------------------------------------------------------
  // Properties of one edge row.

  /** An edge row succeeds exactly when both ids parse and every endpoint
      resolved through a registry finds its id there; it then bumps the 8
      cells of the resolved triple, whose endpoint labels are the registered
      labels (not the nominal ones) for registry endpoints, and changes nothing
      else. */
  lemma EdgeRowResolution(st: State, endpoints: Endpoints, src: string, edge: string, dst: string, row: seq<string>)
    ensures EdgeRow(st, endpoints, src, edge, dst, row).Ok? <==>
      && IdAt(row, 0).Some? && IdAt(row, 1).Some?
      && (endpoints.src.Some? ==> IdAt(row, 0).value in Registry(st, endpoints.src.value))
      && (endpoints.dst.Some? ==> IdAt(row, 1).value in Registry(st, endpoints.dst.value))
    ensures EdgeRow(st, endpoints, src, edge, dst, row).Ok? ==>
      var s := if endpoints.src.Some? then Registry(st, endpoints.src.value)[IdAt(row, 0).value] else src;
      var d := if endpoints.dst.Some? then Registry(st, endpoints.dst.value)[IdAt(row, 1).value] else dst;
      EdgeRow(st, endpoints, src, edge, dst, row) == Ok(st.(edge := AddEdge(st.edge, s, edge, d)))
  {
  }

  /** With a consistent state, resolved labels are never the wildcard. */
  lemma EndpointLabelNonEmpty(st: State, family: Option<Family>, nominal: string, id: nat)
    requires Recorded(st.place, st.organisation)
    requires nominal != ""
    requires EndpointLabel(st, family, nominal, id).Ok?
    ensures EndpointLabel(st, family, nominal, id).value != ""
  {
    if family.Some? {
      var l := Registry(st, family.value)[id];
      assert l in PlaceLabels || l in OrganisationLabels;
    }
  }

  /** An edge file with non-empty nominal labels: the total `["" ]["" ]["" ]`
      grows by exactly the number of rows, the state stays consistent, and the
      vertex table and the registries are untouched. */
  lemma {:induction false} EdgeRowsTotal(st: State, endpoints: Endpoints, src: string, edge: string, dst: string, rows: seq<seq<string>>)
    requires EdgeRows(st, endpoints, src, edge, dst, rows).Ok?
    requires src != "" && edge != "" && dst != ""
    requires Consistent(st)
    ensures var after := EdgeRows(st, endpoints, src, edge, dst, rows).value;
      && Cell(after.edge, "", "", "") == Cell(st.edge, "", "", "") + |rows|
      && Consistent(after)
      && after.vertex == st.vertex && after.place == st.place && after.organisation == st.organisation
    decreases |rows|
  {
    if rows != [] {
      var init := rows[..|rows| - 1];
      var last := rows[|rows| - 1];
      EdgeRowsTotal(st, endpoints, src, edge, dst, init);
      var mid := EdgeRows(st, endpoints, src, edge, dst, init).value;
      EdgeRowResolution(mid, endpoints, src, edge, dst, last);
      var s := EndpointLabel(mid, endpoints.src, src, IdAt(last, 0).value).value;
      var d := EndpointLabel(mid, endpoints.dst, dst, IdAt(last, 1).value).value;
      EndpointLabelNonEmpty(mid, endpoints.src, src, IdAt(last, 0).value);
      EndpointLabelNonEmpty(mid, endpoints.dst, dst, IdAt(last, 1).value);
      AddEdgeCell(mid.edge, s, edge, d, "", "", "");
      AddEdgeRollUp(mid.edge, s, edge, d);
    }
  }
}
