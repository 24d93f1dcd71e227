/** The two cardinality tables of the statistics and the single-step updates
    the importer applies to them. The empty label "" is the wildcard. */
module Tables {
  import opened Sums

  /** Label -> number of vertices (`VertexCardinality`). */
  type VertexTable = map<string, nat>

  /** Source label -> edge label -> destination label -> number of edges
      (`EdgeCardinality`). */
  type EdgeTable = map<string, map<string, map<string, nat>>>

  /** The count of a label; an absent entry reads as 0. */
  function Count(t: VertexTable, name: string): nat {
    if name in t then t[name] else 0
  }

  /** `*t.entry(name).or_insert(0.0) += 1.0`: one more for `name`, creating
      its entry, and nothing else changes. */
  function Inc(t: VertexTable, name: string): (r: VertexTable)
    ensures r.Keys == t.Keys + {name}
    ensures forall x :: Count(r, x) == Count(t, x) + (if x == name then 1 else 0)
  {
    t[name := Count(t, name) + 1]
  }

  /** The wildcard entry equals the sum of all concrete entries. */
  ghost predicate VertexRollUp(t: VertexTable) {
    Count(t, "") == SumSet(t.Keys - {""}, x => Count(t, x))
  }

  /** A vertex row bumps its concrete name and the wildcard; with a non-empty
      name this keeps the wildcard equal to the sum of the concrete entries. */
  lemma IncPairRollUp(t: VertexTable, name: string)
    requires name != ""
    requires VertexRollUp(t)
    ensures VertexRollUp(Inc(Inc(t, name), ""))
  {
    var r := Inc(Inc(t, name), "");
    assert r.Keys - {""} == (t.Keys - {""}) + {name};
    SumBump(t.Keys - {""}, x => Count(t, x), x => Count(r, x), name, 1);
  }

  // ---------------------------------------------------------------------------
  // The edge table.

  function EdgeKeys(t: EdgeTable, s: string): set<string> {
    if s in t then t[s].Keys else {}
  }

  function DstKeys(t: EdgeTable, s: string, e: string): set<string> {
    if s in t && e in t[s] then t[s][e].Keys else {}
  }

  /** The count of a (source, edge, destination) cell; an absent cell reads as 0. */
  function Cell(t: EdgeTable, s: string, e: string, d: string): nat {
    if d in DstKeys(t, s, e) then t[s][e][d] else 0
  }

  /** `*entry(s).or_insert_with(..).entry(e).or_insert_with(..).entry(d).or_insert(0.0) += 1.0`:
      exactly one cell grows by one, the missing nested maps on its path are
      created, and nothing else changes. */
  function Bump(t: EdgeTable, s: string, e: string, d: string): (r: EdgeTable)
    ensures forall x, y, z :: Cell(r, x, y, z) == Cell(t, x, y, z) + (if x == s && y == e && z == d then 1 else 0)
    ensures r.Keys == t.Keys + {s}
    ensures forall x :: EdgeKeys(r, x) == EdgeKeys(t, x) + (if x == s then {e} else {})
    ensures forall x, y :: DstKeys(r, x, y) == DstKeys(t, x, y) + (if x == s && y == e then {d} else {})
  {
    var srcEntry := if s in t then t[s] else map[];
    var edgeEntry := if e in srcEntry then srcEntry[e] else map[];
    var count := if d in edgeEntry then edgeEntry[d] else 0;
    t[s := srcEntry[e := edgeEntry[d := count + 1]]]
  }

  /** How many of the two keys {k, ""} equal `x`. */
  function Hits(x: string, k: string): nat {
    (if x == k then 1 else 0) + (if x == "" then 1 else 0)
  }

  /** How many of the 4 pairs {e, ""} x {d, ""} equal (y, z). */
  function PairHits(y: string, z: string, e: string, d: string): nat {
    (if y == e then Hits(z, d) else 0) + (if y == "" then Hits(z, d) else 0)
  }

  /** How many of the 8 triples {s, ""} x {e, ""} x {d, ""} equal (x, y, z). */
  function TripleHits(x: string, y: string, z: string, s: string, e: string, d: string): nat {
    (if x == s then PairHits(y, z, e, d) else 0) + (if x == "" then PairHits(y, z, e, d) else 0)
  }

  /** The innermost loop of an edge row: destination `d`, then the wildcard. */
  function BumpDsts(t: EdgeTable, s: string, e: string, d: string): (r: EdgeTable)
    ensures forall x, y, z :: Cell(r, x, y, z) == Cell(t, x, y, z) + (if x == s && y == e then Hits(z, d) else 0)
    ensures r.Keys == t.Keys + {s}
    ensures forall x :: EdgeKeys(r, x) == EdgeKeys(t, x) + (if x == s then {e} else {})
    ensures forall x, y :: DstKeys(r, x, y) == DstKeys(t, x, y) + (if x == s && y == e then {d, ""} else {})
  {
    Bump(Bump(t, s, e, d), s, e, "")
  }

  /** The middle loop: edge label `e`, then the wildcard. */
  function BumpEdges(t: EdgeTable, s: string, e: string, d: string): EdgeTable {
    BumpDsts(BumpDsts(t, s, e, d), s, "", d)
  }

  /** The whole update of one edge row: source `s`, then the wildcard, i.e. the
      8 cells {s, ""} x {e, ""} x {d, ""}. */
  function AddEdge(t: EdgeTable, s: string, e: string, d: string): EdgeTable {
    BumpEdges(BumpEdges(t, s, e, d), "", e, d)
  }

  lemma BumpEdgesCell(t: EdgeTable, s: string, e: string, d: string, x: string, y: string, z: string)
    ensures Cell(BumpEdges(t, s, e, d), x, y, z) == Cell(t, x, y, z) + (if x == s then PairHits(y, z, e, d) else 0)
  {
    var t1 := BumpDsts(t, s, e, d);
    assert Cell(t1, x, y, z) == Cell(t, x, y, z) + (if x == s && y == e then Hits(z, d) else 0);
  }

  lemma BumpEdgesKeys(t: EdgeTable, s: string, e: string, d: string, x: string, y: string)
    ensures BumpEdges(t, s, e, d).Keys == t.Keys + {s}
    ensures EdgeKeys(BumpEdges(t, s, e, d), x) == EdgeKeys(t, x) + (if x == s then {e, ""} else {})
    ensures DstKeys(BumpEdges(t, s, e, d), x, y) == DstKeys(t, x, y) + (if x == s && Hits(y, e) > 0 then {d, ""} else {})
  {
  }

  /** One edge row raises each cell by the number of the 8 updated cells it
      equals; every other cell keeps its count. */
  lemma AddEdgeCell(t: EdgeTable, s: string, e: string, d: string, x: string, y: string, z: string)
    ensures Cell(AddEdge(t, s, e, d), x, y, z) == Cell(t, x, y, z) + TripleHits(x, y, z, s, e, d)
  {
    BumpEdgesCell(t, s, e, d, x, y, z);
    BumpEdgesCell(BumpEdges(t, s, e, d), "", e, d, x, y, z);
  }

  /** After one edge row the 8 updated cells all exist (missing nested maps are
      created), and no other key appears. */
  lemma AddEdgeKeys(t: EdgeTable, s: string, e: string, d: string, x: string, y: string)
    ensures AddEdge(t, s, e, d).Keys == t.Keys + {s, ""}
    ensures EdgeKeys(AddEdge(t, s, e, d), x) == EdgeKeys(t, x) + (if Hits(x, s) > 0 then {e, ""} else {})
    ensures DstKeys(AddEdge(t, s, e, d), x, y) == DstKeys(t, x, y) + (if Hits(x, s) > 0 && Hits(y, e) > 0 then {d, ""} else {})
  {
    var t1 := BumpEdges(t, s, e, d);
    BumpEdgesKeys(t, s, e, d, x, y);
    BumpEdgesKeys(t1, "", e, d, x, y);
    KeysCompose(t, t1, AddEdge(t, s, e, d), s, e, d, x, y);
  }

  /** The key sets after two source passes, from the key sets after each;
      the tables are plain parameters so that no update is unfolded here. */
  lemma KeysCompose(t: EdgeTable, t1: EdgeTable, t2: EdgeTable, s: string, e: string, d: string, x: string, y: string)
    requires t1.Keys == t.Keys + {s} && t2.Keys == t1.Keys + {""}
    requires EdgeKeys(t1, x) == EdgeKeys(t, x) + (if x == s then {e, ""} else {})
    requires EdgeKeys(t2, x) == EdgeKeys(t1, x) + (if x == "" then {e, ""} else {})
    requires DstKeys(t1, x, y) == DstKeys(t, x, y) + (if x == s && Hits(y, e) > 0 then {d, ""} else {})
    requires DstKeys(t2, x, y) == DstKeys(t1, x, y) + (if x == "" && Hits(y, e) > 0 then {d, ""} else {})
    ensures t2.Keys == t.Keys + {s, ""}
    ensures EdgeKeys(t2, x) == EdgeKeys(t, x) + (if Hits(x, s) > 0 then {e, ""} else {})
    ensures DstKeys(t2, x, y) == DstKeys(t, x, y) + (if Hits(x, s) > 0 && Hits(y, e) > 0 then {d, ""} else {})
  {
  }

  /** Every wildcard source cell equals the sum of its concrete-source refinements. */
  ghost predicate SourceRollUp(t: EdgeTable) {
    forall y, z :: Cell(t, "", y, z) == SumSet(t.Keys - {""}, x => Cell(t, x, y, z))
  }

  /** Every wildcard edge cell equals the sum of its concrete-edge refinements. */
  ghost predicate EdgeRollUp(t: EdgeTable) {
    forall x, z :: Cell(t, x, "", z) == SumSet(EdgeKeys(t, x) - {""}, y => Cell(t, x, y, z))
  }

  /** Every wildcard destination cell equals the sum of its concrete-destination refinements. */
  ghost predicate DestRollUp(t: EdgeTable) {
    forall x, y :: Cell(t, x, y, "") == SumSet(DstKeys(t, x, y) - {""}, z => Cell(t, x, y, z))
  }

  ghost predicate EdgeTableRollUp(t: EdgeTable) {
    SourceRollUp(t) && EdgeRollUp(t) && DestRollUp(t)
  }

  // One wildcard cell against the sum of its refinements, before and after a
  // step that adds `c` to one concrete refinement `a` (creating its key) and
  // to the wildcard cell; the tables are plain parameters here.

  lemma SourceRollUpStep(t: EdgeTable, r: EdgeTable, a: string, y: string, z: string, c: nat)
    requires a != ""
    requires r.Keys == t.Keys + {a, ""}
    requires forall x :: x != "" ==> Cell(r, x, y, z) == Cell(t, x, y, z) + (if x == a then c else 0)
    requires Cell(r, "", y, z) == Cell(t, "", y, z) + c
    requires Cell(t, "", y, z) == SumSet(t.Keys - {""}, x => Cell(t, x, y, z))
    ensures Cell(r, "", y, z) == SumSet(r.Keys - {""}, x => Cell(r, x, y, z))
  {
    assert r.Keys - {""} == (t.Keys - {""}) + {a};
    SumBump(t.Keys - {""}, x => Cell(t, x, y, z), x => Cell(r, x, y, z), a, c);
  }

  lemma EdgeRollUpStep(t: EdgeTable, r: EdgeTable, x: string, a: string, z: string, c: nat)
    requires a != ""
    requires EdgeKeys(r, x) == EdgeKeys(t, x) + {a, ""}
    requires forall y :: y != "" ==> Cell(r, x, y, z) == Cell(t, x, y, z) + (if y == a then c else 0)
    requires Cell(r, x, "", z) == Cell(t, x, "", z) + c
    requires Cell(t, x, "", z) == SumSet(EdgeKeys(t, x) - {""}, y => Cell(t, x, y, z))
    ensures Cell(r, x, "", z) == SumSet(EdgeKeys(r, x) - {""}, y => Cell(r, x, y, z))
  {
    assert EdgeKeys(r, x) - {""} == (EdgeKeys(t, x) - {""}) + {a};
    SumBump(EdgeKeys(t, x) - {""}, y => Cell(t, x, y, z), y => Cell(r, x, y, z), a, c);
  }

  lemma EdgeRollUpSame(t: EdgeTable, r: EdgeTable, x: string, z: string)
    requires EdgeKeys(r, x) == EdgeKeys(t, x)
    requires forall y :: Cell(r, x, y, z) == Cell(t, x, y, z)
    requires Cell(t, x, "", z) == SumSet(EdgeKeys(t, x) - {""}, y => Cell(t, x, y, z))
    ensures Cell(r, x, "", z) == SumSet(EdgeKeys(r, x) - {""}, y => Cell(r, x, y, z))
  {
    SumCongruent(EdgeKeys(t, x) - {""}, y => Cell(t, x, y, z), y => Cell(r, x, y, z));
  }

  lemma DestRollUpStep(t: EdgeTable, r: EdgeTable, x: string, y: string, a: string, c: nat)
    requires a != ""
    requires DstKeys(r, x, y) == DstKeys(t, x, y) + {a, ""}
    requires forall z :: z != "" ==> Cell(r, x, y, z) == Cell(t, x, y, z) + (if z == a then c else 0)
    requires Cell(r, x, y, "") == Cell(t, x, y, "") + c
    requires Cell(t, x, y, "") == SumSet(DstKeys(t, x, y) - {""}, z => Cell(t, x, y, z))
    ensures Cell(r, x, y, "") == SumSet(DstKeys(r, x, y) - {""}, z => Cell(r, x, y, z))
  {
    assert DstKeys(r, x, y) - {""} == (DstKeys(t, x, y) - {""}) + {a};
    SumBump(DstKeys(t, x, y) - {""}, z => Cell(t, x, y, z), z => Cell(r, x, y, z), a, c);
  }

  lemma DestRollUpSame(t: EdgeTable, r: EdgeTable, x: string, y: string)
    requires DstKeys(r, x, y) == DstKeys(t, x, y)
    requires forall z :: Cell(r, x, y, z) == Cell(t, x, y, z)
    requires Cell(t, x, y, "") == SumSet(DstKeys(t, x, y) - {""}, z => Cell(t, x, y, z))
    ensures Cell(r, x, y, "") == SumSet(DstKeys(r, x, y) - {""}, z => Cell(r, x, y, z))
  {
    SumCongruent(DstKeys(t, x, y) - {""}, z => Cell(t, x, y, z), z => Cell(r, x, y, z));
  }

  lemma SourceRollUpAt(t: EdgeTable, s: string, e: string, d: string, y: string, z: string)
    requires s != "" && e != "" && d != ""
    requires Cell(t, "", y, z) == SumSet(t.Keys - {""}, x => Cell(t, x, y, z))
    ensures var r := AddEdge(t, s, e, d); Cell(r, "", y, z) == SumSet(r.Keys - {""}, x => Cell(r, x, y, z))
  {
    var r := AddEdge(t, s, e, d);
    var c := PairHits(y, z, e, d);
    AddEdgeKeys(t, s, e, d, "", "");
    forall x | x != "" ensures Cell(r, x, y, z) == Cell(t, x, y, z) + (if x == s then c else 0) {
      AddEdgeCell(t, s, e, d, x, y, z);
    }
    AddEdgeCell(t, s, e, d, "", y, z);
    SourceRollUpStep(t, r, s, y, z, c);
  }

  lemma EdgeRollUpAt(t: EdgeTable, s: string, e: string, d: string, x: string, z: string)
    requires s != "" && e != "" && d != ""
    requires Cell(t, x, "", z) == SumSet(EdgeKeys(t, x) - {""}, y => Cell(t, x, y, z))
    ensures var r := AddEdge(t, s, e, d); Cell(r, x, "", z) == SumSet(EdgeKeys(r, x) - {""}, y => Cell(r, x, y, z))
  {
    var r := AddEdge(t, s, e, d);
    AddEdgeKeys(t, s, e, d, x, "");
    AddEdgeCell(t, s, e, d, x, "", z);
    if Hits(x, s) == 0 {
      forall y ensures Cell(r, x, y, z) == Cell(t, x, y, z) {
        AddEdgeCell(t, s, e, d, x, y, z);
      }
      EdgeRollUpSame(t, r, x, z);
    } else {
      var c := Hits(z, d);
      forall y | y != "" ensures Cell(r, x, y, z) == Cell(t, x, y, z) + (if y == e then c else 0) {
        AddEdgeCell(t, s, e, d, x, y, z);
      }
      EdgeRollUpStep(t, r, x, e, z, c);
    }
  }

  lemma DestRollUpAt(t: EdgeTable, s: string, e: string, d: string, x: string, y: string)
    requires s != "" && e != "" && d != ""
    requires Cell(t, x, y, "") == SumSet(DstKeys(t, x, y) - {""}, z => Cell(t, x, y, z))
    ensures var r := AddEdge(t, s, e, d); Cell(r, x, y, "") == SumSet(DstKeys(r, x, y) - {""}, z => Cell(r, x, y, z))
  {
    var r := AddEdge(t, s, e, d);
    AddEdgeKeys(t, s, e, d, x, y);
    if Hits(x, s) == 0 || Hits(y, e) == 0 {
      forall z ensures Cell(r, x, y, z) == Cell(t, x, y, z) {
        AddEdgeCell(t, s, e, d, x, y, z);
      }
      DestRollUpSame(t, r, x, y);
    } else {
      DestRollUpTouched(t, s, e, d, x, y);
    }
  }

  lemma DestRollUpTouched(t: EdgeTable, s: string, e: string, d: string, x: string, y: string)
    requires s != "" && e != "" && d != ""
    requires x == s || x == ""
    requires y == e || y == ""
    requires Cell(t, x, y, "") == SumSet(DstKeys(t, x, y) - {""}, z => Cell(t, x, y, z))
    ensures var r := AddEdge(t, s, e, d); Cell(r, x, y, "") == SumSet(DstKeys(r, x, y) - {""}, z => Cell(r, x, y, z))
  {
    var r := AddEdge(t, s, e, d);
    AddEdgeKeys(t, s, e, d, x, y);
    AddEdgeCell(t, s, e, d, x, y, "");
    forall z | z != "" ensures Cell(r, x, y, z) == Cell(t, x, y, z) + (if z == d then 1 else 0) {
      AddEdgeCell(t, s, e, d, x, y, z);
    }
    DestRollUpStep(t, r, x, y, d, 1);
  }

  /** An edge row with non-empty labels keeps the table a consistent roll-up
      lattice: every wildcard cell, at every level, is the sum of its refinements. */
  lemma AddEdgeRollUp(t: EdgeTable, s: string, e: string, d: string)
    requires s != "" && e != "" && d != ""
    requires EdgeTableRollUp(t)
    ensures EdgeTableRollUp(AddEdge(t, s, e, d))
  {
    var r := AddEdge(t, s, e, d);
    forall y, z ensures Cell(r, "", y, z) == SumSet(r.Keys - {""}, x => Cell(r, x, y, z)) {
      SourceRollUpAt(t, s, e, d, y, z);
    }
    forall x, z ensures Cell(r, x, "", z) == SumSet(EdgeKeys(r, x) - {""}, y => Cell(r, x, y, z)) {
      EdgeRollUpAt(t, s, e, d, x, z);
    }
    forall x, y ensures Cell(r, x, y, "") == SumSet(DstKeys(r, x, y) - {""}, z => Cell(r, x, y, z)) {
      DestRollUpAt(t, s, e, d, x, y);
    }
  }
}
