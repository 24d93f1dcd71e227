/** `Context`: the statistics and the two registries, updated in place by
    `import_vertex` and `import_edge`, one row at a time in file order. */
module Importer {
  import opened Outcomes
  import opened Text
  import opened Tables
  import opened IdentityRegistry
  import opened HeaderScan
  import opened Accumulation

  class Context {
    var vertexCardinality: VertexTable
    var edgeCardinality: EdgeTable
    var place: map<nat, string>
    var organisation: map<nat, string>

    function Snapshot(): State
      reads this
    {
      State(vertexCardinality, edgeCardinality, place, organisation)
    }

    /** `Context::default()`: empty tables and registries. */
    constructor ()
      ensures Snapshot() == Initial
    {
      vertexCardinality := map[];
      edgeCardinality := map[];
      place := map[];
      organisation := map[];
    }

    /** `import_vertex`: scan the header, then consume the rows in order. On
        success the new state is the one `ImportVertexSpec` describes; a
        failure here is a failure there (the run then aborts). */
    method ImportVertex(header: seq<string>, rows: seq<seq<string>>, labelName: string) returns (ok: bool)
      modifies this
      ensures ok == ImportVertexSpec(old(Snapshot()), header, labelName, rows).Ok?
      ensures ok ==> Snapshot() == ImportVertexSpec(old(Snapshot()), header, labelName, rows).value
    {
      var scan := ScanVertexHeader(header);
      if scan.Fatal? {
        return false;
      }
      var labelIndex := scan.value;
      ghost var start := Snapshot();
      for i := 0 to |rows|
        invariant VertexRows(start, labelIndex, labelName, rows[..i]) == Ok(Snapshot())
      {
        assert rows[..i + 1][..i] == rows[..i];
        ok := ConsumeVertexRow(rows[i], labelIndex, labelName);
        if !ok {
          VertexRowsStop(start, labelIndex, labelName, rows, i + 1);
          return false;
        }
      }
      assert rows[..|rows|] == rows;
      ok := true;
    }

    /** The body of the record loop of `import_vertex`. */
    method ConsumeVertexRow(record: seq<string>, labelIndex: Option<nat>, labelName: string) returns (ok: bool)
      modifies this
      ensures ok == VertexRow(old(Snapshot()), labelIndex, labelName, record).Ok?
      ensures ok ==> Snapshot() == VertexRow(old(Snapshot()), labelIndex, labelName, record).value
    {
      var idIndex := 0;
      if labelIndex.Some? {
        var k := labelIndex.value;
        if k >= |record| {
          return false;
        }
        var rowLabel := record[k];
        if rowLabel == "City" || rowLabel == "Country" || rowLabel == "Continent" {
          var id := ParseU64(record[idIndex]);
          if id.None? || id.value in place {
            return false;
          }
          place := place[id.value := rowLabel];
        } else if rowLabel == "University" || rowLabel == "Company" {
          var id := ParseU64(record[idIndex]);
          if id.None? || id.value in organisation {
            return false;
          }
          organisation := organisation[id.value := rowLabel];
        }
      }
      var countedLabel := if labelIndex.None? then labelName else record[labelIndex.value];
      vertexCardinality := Inc(vertexCardinality, countedLabel);
      vertexCardinality := Inc(vertexCardinality, "");
      ok := true;
    }

    /** `import_edge`: scan the header, then consume the rows in order. On
        success the new state is the one `ImportEdgeSpec` describes; a failure
        here is a failure there. */
    method ImportEdge(header: seq<string>, rows: seq<seq<string>>, srcLabel: string, edgeLabel: string, dstLabel: string)
      returns (ok: bool)
      modifies this
      ensures ok == ImportEdgeSpec(old(Snapshot()), header, srcLabel, edgeLabel, dstLabel, rows).Ok?
      ensures ok ==> Snapshot() == ImportEdgeSpec(old(Snapshot()), header, srcLabel, edgeLabel, dstLabel, rows).value
    {
      var scan := ScanEdgeHeader(header, srcLabel, dstLabel);
      if scan.Fatal? {
        return false;
      }
      var endpoints := scan.value;
      ghost var start := Snapshot();
      for i := 0 to |rows|
        invariant EdgeRows(start, endpoints, srcLabel, edgeLabel, dstLabel, rows[..i]) == Ok(Snapshot())
      {
        assert rows[..i + 1][..i] == rows[..i];
        ok := ConsumeEdgeRow(rows[i], endpoints, srcLabel, edgeLabel, dstLabel);
        if !ok {
          EdgeRowsStop(start, endpoints, srcLabel, edgeLabel, dstLabel, rows, i + 1);
          return false;
        }
      }
      assert rows[..|rows|] == rows;
      ok := true;
    }

    /** The body of the record loop of `import_edge`: parse both ids, resolve
        both endpoints, bump the 8 cells. */
    method ConsumeEdgeRow(record: seq<string>, endpoints: Endpoints, srcLabel: string, edgeLabel: string, dstLabel: string)
      returns (ok: bool)
      modifies this
      ensures ok == EdgeRow(old(Snapshot()), endpoints, srcLabel, edgeLabel, dstLabel, record).Ok?
      ensures ok ==> Snapshot() == EdgeRow(old(Snapshot()), endpoints, srcLabel, edgeLabel, dstLabel, record).value
    {
      var srcIdIndex, dstIdIndex := 0, 1;
      var srcId := if srcIdIndex < |record| then ParseU64(record[srcIdIndex]) else None;
      var dstId := if dstIdIndex < |record| then ParseU64(record[dstIdIndex]) else None;
      if srcId.None? || dstId.None? {
        return false;
      }
      var src := ResolveEndpoint(endpoints.src, srcLabel, srcId.value);
      var dst := ResolveEndpoint(endpoints.dst, dstLabel, dstId.value);
      if src.Fatal? || dst.Fatal? {
        return false;
      }
      AddEdgeInPlace(src.value, edgeLabel, dst.value);
      ok := true;
    }

    /** The label of one endpoint: the file's own label for an untyped
        endpoint, the registered label of the id for a Place or Organisation
        endpoint; an id never registered fails. */
    method ResolveEndpoint(family: Option<Family>, nominal: string, id: nat) returns (r: Result<string>)
      ensures r == EndpointLabel(Snapshot(), family, nominal, id)
      ensures r.Fatal? <==> family.Some? && id !in Registry(Snapshot(), family.value)
    {
      if family.None? {
        return Ok(nominal);
      }
      var m := if family.value == PlaceFamily then place else organisation;
      if id !in m {
        return Fatal;
      }
      return Ok(m[id]);
    }

    /** The three nested loops over `[label, ""]` that bump the 8 cells of one
        resolved triple: the outer loop over the source keys. */
    method AddEdgeInPlace(src: string, edge: string, dst: string)
      modifies this
      ensures edgeCardinality == AddEdge(old(edgeCardinality), src, edge, dst)
      ensures vertexCardinality == old(vertexCardinality) && place == old(place) && organisation == old(organisation)
    {
      var srcKeys := [src, ""];
      ghost var t0 := edgeCardinality;
      for a := 0 to 2
        invariant edgeCardinality == if a == 0 then t0 else if a == 1 then BumpEdges(t0, src, edge, dst) else AddEdge(t0, src, edge, dst)
        invariant vertexCardinality == old(vertexCardinality) && place == old(place) && organisation == old(organisation)
      {
        BumpEdgesInPlace(srcKeys[a], edge, dst);
      }
    }

    /** The middle loop, over the edge keys. */
    method BumpEdgesInPlace(src: string, edge: string, dst: string)
      modifies this
      ensures edgeCardinality == BumpEdges(old(edgeCardinality), src, edge, dst)
      ensures vertexCardinality == old(vertexCardinality) && place == old(place) && organisation == old(organisation)
    {
      var edgeKeys := [edge, ""];
      ghost var t0 := edgeCardinality;
      for b := 0 to 2
        invariant edgeCardinality == if b == 0 then t0 else if b == 1 then BumpDsts(t0, src, edge, dst) else BumpEdges(t0, src, edge, dst)
        invariant vertexCardinality == old(vertexCardinality) && place == old(place) && organisation == old(organisation)
      {
        BumpDstsInPlace(src, edgeKeys[b], dst);
      }
    }

    /** The inner loop, over the destination keys: the source and edge
        levels come from `entry(..).or_insert_with(HashMap::new)`, the cell
        from `entry(..).or_insert(0.0)`, then `+= 1.0`. */
    method BumpDstsInPlace(src: string, edge: string, dst: string)
      modifies this
      ensures edgeCardinality == BumpDsts(old(edgeCardinality), src, edge, dst)
      ensures vertexCardinality == old(vertexCardinality) && place == old(place) && organisation == old(organisation)
    {
      var dstKeys := [dst, ""];
      ghost var t0 := edgeCardinality;
      for c := 0 to 2
        invariant edgeCardinality == if c == 0 then t0 else if c == 1 then Bump(t0, src, edge, dst) else BumpDsts(t0, src, edge, dst)
        invariant vertexCardinality == old(vertexCardinality) && place == old(place) && organisation == old(organisation)
      {
        var srcEntry := if src in edgeCardinality then edgeCardinality[src] else map[];
        var edgeEntry := if edge in srcEntry then srcEntry[edge] else map[];
        var count := if dstKeys[c] in edgeEntry then edgeEntry[dstKeys[c]] else 0;
        edgeCardinality := edgeCardinality[src := srcEntry[edge := edgeEntry[dstKeys[c] := count + 1]]];
      }
    }
  }
}
