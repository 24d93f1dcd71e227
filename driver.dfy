/** The run (`main`): the files of `static/` followed by those of `dynamic/`
    are ordered by the number of `_`-separated tokens in their stem, then
    imported one after another into a single `Context`; the two tables are
    the output. The order is guaranteed to put vertex files first when vertex
    files are named `<t>_<a>_<b>.<ext>` and edge files `<s>_<r>_<d>_<a>_<b>.<ext>`
    (`VertexFilesFirst`); other names break it (`KeyOrderAcrossKinds`). */
module Driver {
  import opened Outcomes
  import opened Text
  import opened Tables
  import opened HeaderScan
  import opened LabelResolver
  import opened Accumulation
  import opened FileOrder
  import opened Importer

  /** One CSV file as the run sees it: its file name (directory left out),
      its header and its records. */
  datatype CsvFile = CsvFile(name: string, header: seq<string>, rows: seq<seq<string>>)

  /** The output: the two cardinality tables. */
  datatype Statistics = Statistics(vertexCardinality: VertexTable, edgeCardinality: EdgeTable)

  /** The sort key of a file: the number of `_`-separated tokens of its stem. */
  function FileKey(f: CsvFile): nat {
    TokenCount(f.name)
  }

  /** One file: resolved by name, then imported as a vertex or an edge file. */
  ghost function ImportFile(st: State, f: CsvFile): Result<State> {
    match Resolve(f.name)
    case Fatal => Fatal
    case Ok(Vertex(l)) => ImportVertexSpec(st, f.header, l, f.rows)
    case Ok(Edge(s, e, d)) => ImportEdgeSpec(st, f.header, s, e, d, f.rows)
  }

  /** The files in the given order; the first failing file aborts the run. */
  ghost function ImportAll(st: State, files: seq<CsvFile>): Result<State>
    decreases |files|
  {
    if files == [] then Ok(st)
    else
      match ImportAll(st, files[..|files| - 1])
      case Fatal => Fatal
      case Ok(s) => ImportFile(s, files[|files| - 1])
  }

  lemma {:induction false} ImportAllStop(st: State, files: seq<CsvFile>, i: nat)
    requires i <= |files|
    requires ImportAll(st, files[..i]).Fatal?
    ensures ImportAll(st, files).Fatal?
    decreases |files| - i
  {
    if i < |files| {
      assert files[..i + 1][..i] == files[..i];
      ImportAllStop(st, files, i + 1);
    } else {
      assert files[..i] == files;
    }
  }

  lemma ImportAllSnoc(st: State, files: seq<CsvFile>, i: nat)
    requires i < |files|
    requires ImportAll(st, files[..i]).Ok?
    ensures ImportAll(st, files[..i + 1]) == ImportFile(ImportAll(st, files[..i]).value, files[i])
  {
    assert files[..i + 1][..i] == files[..i];
  }

  /** The run: order the files, then import them in that order into a fresh
      context. The order is the stable sort by `FileKey` (see `FileOrder`),
      and the outcome is exactly the one `ImportAll` describes for it. */
  method Run(staticFiles: seq<CsvFile>, dynamicFiles: seq<CsvFile>) returns (order: seq<CsvFile>, r: Result<Statistics>)
    ensures SortedBy(order, FileKey)
    ensures multiset(order) == multiset(staticFiles + dynamicFiles)
    ensures forall k: nat :: KeyClass(order, FileKey, k) == KeyClass(staticFiles + dynamicFiles, FileKey, k)
    ensures r.Ok? <==> ImportAll(Initial, order).Ok?
    ensures r.Ok? ==> r.value == Statistics(ImportAll(Initial, order).value.vertex, ImportAll(Initial, order).value.edge)
  {
    order := SortByKey(staticFiles + dynamicFiles, FileKey);
    SortedBySortByKey(staticFiles + dynamicFiles, FileKey);
    SortByKeyPermutation(staticFiles + dynamicFiles, FileKey);
    forall k: nat ensures KeyClass(order, FileKey, k) == KeyClass(staticFiles + dynamicFiles, FileKey, k) {
      SortByKeyStable(staticFiles + dynamicFiles, FileKey, k);
    }
    r := ImportFiles(order);
  }

  /** The import loop of the run, over the files in their sorted order. */
  method ImportFiles(order: seq<CsvFile>) returns (r: Result<Statistics>)
    ensures r.Ok? <==> ImportAll(Initial, order).Ok?
    ensures r.Ok? ==> r.value == Statistics(ImportAll(Initial, order).value.vertex, ImportAll(Initial, order).value.edge)
  {
    var context := new Context();
    for i := 0 to |order|
      invariant ImportAll(Initial, order[..i]) == Ok(context.Snapshot())
    {
      ImportAllSnoc(Initial, order, i);
      var ok := ImportOne(context, order[i]);
      if !ok {
        ImportAllStop(Initial, order, i + 1);
        return Fatal;
      }
    }
    assert order[..|order|] == order;
    r := Ok(Statistics(context.vertexCardinality, context.edgeCardinality));
  }

  /** One iteration: resolve the file name, then `import_vertex` or
      `import_edge`. */
  method ImportOne(context: Context, f: CsvFile) returns (ok: bool)
    modifies context
    ensures ok == ImportFile(old(context.Snapshot()), f).Ok?
    ensures ok ==> context.Snapshot() == ImportFile(old(context.Snapshot()), f).value
  {
    match Resolve(f.name) {
      case Fatal =>
        ok := false;
      case Ok(Vertex(l)) =>
        ok := context.ImportVertex(f.header, f.rows, l);
      case Ok(Edge(s, e, d)) =>
        ok := context.ImportEdge(f.header, f.rows, s, e, d);
    }
  }

  // ---------------------------------------------------------------------------
  // What the order guarantees about the kinds of files.

  predicate IsVertexFile(f: CsvFile) {
    Resolve(f.name).Ok? && Resolve(f.name).value.Vertex?
  }

  predicate IsEdgeFile(f: CsvFile) {
    Resolve(f.name).Ok? && Resolve(f.name).value.Edge?
  }

  /** `name` is `<p0>_<p1>_….<ext>` for the given pieces and extension, none
      of which holds a `_` or a `.`. */
  predicate ShapedAs(name: string, pieces: seq<string>, ext: string) {
    && |pieces| >= 1
    && (forall i :: 0 <= i < |pieces| ==> '_' !in pieces[i] && '.' !in pieces[i])
    && '_' !in ext && '.' !in ext
    && name == Join(pieces, '_') + ['.'] + ext
  }

  ghost predicate DatasetShaped(name: string, n: nat) {
    exists pieces, ext :: |pieces| == n && ShapedAs(name, pieces, ext)
  }

  /** The naming of the dataset: a vertex file has three tokens, an edge file five. */
  ghost predicate DatasetNaming(f: CsvFile) {
    && (IsVertexFile(f) ==> DatasetShaped(f.name, 3))
    && (IsEdgeFile(f) ==> DatasetShaped(f.name, 5))
  }

  /** The key of a shaped name is its number of pieces. */
  lemma ShapedKey(name: string, pieces: seq<string>, ext: string)
    requires ShapedAs(name, pieces, ext) && |pieces| >= 2
    ensures TokenCount(name) == |pieces|
  {
    var base := Join(pieces, '_');
    JoinExcludes(pieces, '_', '.');
    assert base == pieces[0] + ['_'] + Join(pieces[1..], '_');
    StemOfExtension(base, ext);
    SplitCount(base, '_');
    SplitJoin(pieces, '_');
  }

  /** Under the dataset's naming, every vertex file comes before every edge
      file in any order that is sorted by key and holds the same files, such
      as the one `Run` produces. */
  lemma VertexFilesFirst(files: seq<CsvFile>, order: seq<CsvFile>)
    requires forall i :: 0 <= i < |files| ==> DatasetNaming(files[i])
    requires SortedBy(order, FileKey) && multiset(order) == multiset(files)
    ensures forall i, j :: 0 <= i < |order| && 0 <= j < |order| && IsVertexFile(order[i]) && IsEdgeFile(order[j]) ==> i < j
  {
    forall i, j | 0 <= i < |order| && 0 <= j < |order| && IsVertexFile(order[i]) && IsEdgeFile(order[j])
      ensures i < j
    {
      assert order[i] in multiset(files) && order[j] in multiset(files);
      var vi :| 0 <= vi < |files| && files[vi] == order[i];
      var ej :| 0 <= ej < |files| && files[ej] == order[j];
      assert DatasetNaming(files[vi]) && DatasetNaming(files[ej]);
      var vp, vx :| |vp| == 3 && ShapedAs(order[i].name, vp, vx);
      var ep, ex :| |ep| == 5 && ShapedAs(order[j].name, ep, ex);
      ShapedKey(order[i].name, vp, vx);
      ShapedKey(order[j].name, ep, ex);
      assert FileKey(order[i]) == 3 && FileKey(order[j]) == 5;
    }
  }

  /** Without that naming the key does not separate the kinds: a vertex file
      with five tokens sorts after an edge file with four. */
  lemma KeyOrderAcrossKinds(v: CsvFile, e: CsvFile)
    requires v.name == Join(["person", "0", "0", "0", "0"], '_') + ".csv"
    requires e.name == Join(["person", "knows", "person", "0"], '_') + ".csv"
    ensures IsVertexFile(v) && IsEdgeFile(e)
    ensures !DatasetNaming(v) && !DatasetNaming(e)
    ensures SortByKey([v, e], FileKey) == [e, v]
  {
    FiveTokenVertexFile(v);
    FourTokenEdgeFile(e);
    OutsideNaming(v);
    OutsideNaming(e);
    SortTwo(v, e);
  }

  lemma FiveTokenVertexFile(v: CsvFile)
    requires v.name == Join(["person", "0", "0", "0", "0"], '_') + ".csv"
    ensures IsVertexFile(v) && FileKey(v) == 5
  {
    var vp := ["person", "0", "0", "0", "0"];
    assert ShapedAs(v.name, vp, "csv");
    assert IsVertexFile(v) by {
      ShapedSplit(v.name, vp, "csv");
      assert VertexName(vp[0]) == Some("Person");
      assert EdgeName(vp[1]).None? && VertexName(vp[2]).None?;
      ResolvePieces(v.name, Split(v.name, '_'));
    }
    assert FileKey(v) == 5 by {
      ShapedKey(v.name, vp, "csv");
    }
  }

  lemma FourTokenEdgeFile(e: CsvFile)
    requires e.name == Join(["person", "knows", "person", "0"], '_') + ".csv"
    ensures IsEdgeFile(e) && FileKey(e) == 4
  {
    var ep := ["person", "knows", "person", "0"];
    assert ShapedAs(e.name, ep, "csv");
    assert IsEdgeFile(e) by {
      ShapedSplit(e.name, ep, "csv");
      assert VertexName(ep[0]) == Some("Person") && VertexName(ep[2]) == Some("Person");
      assert EdgeName(ep[1]) == Some("KNOWS");
      ResolvePieces(e.name, Split(e.name, '_'));
    }
    assert FileKey(e) == 4 by {
      ShapedKey(e.name, ep, "csv");
    }
  }

  /** A property file of the dataset's own naming, such as
      `person_email_emailaddress_0_0.csv`, resolves as a vertex file of its
      first token and has five tokens, so it falls outside `DatasetNaming`
      and sorts among the edge files. */
  lemma EmailAddressFile(v: CsvFile)
    requires v.name == Join(["person", "email", "emailaddress", "0", "0"], '_') + ".csv"
    ensures Resolve(v.name) == Ok(Vertex("Person")) && FileKey(v) == 5
    ensures !DatasetNaming(v)
  {
    var vp := ["person", "email", "emailaddress", "0", "0"];
    assert ShapedAs(v.name, vp, "csv");
    assert Resolve(v.name) == Ok(Vertex("Person")) by {
      ShapedSplit(v.name, vp, "csv");
      assert VertexName(vp[0]) == Some("Person");
      assert EdgeName(vp[1]).None? && VertexName(vp[2]).None?;
      ResolvePieces(v.name, Split(v.name, '_'));
    }
    assert FileKey(v) == 5 by {
      ShapedKey(v.name, vp, "csv");
    }
    OutsideNaming(v);
  }

  /** A vertex file whose key is not 3, or an edge file whose key is not 5,
      is outside the dataset's naming. */
  lemma OutsideNaming(f: CsvFile)
    requires (IsVertexFile(f) && FileKey(f) != 3) || (IsEdgeFile(f) && FileKey(f) != 5)
    ensures !DatasetNaming(f)
  {
    var n := if IsVertexFile(f) then 3 else 5;
    if DatasetShaped(f.name, n) {
      var pieces, ext :| |pieces| == n && ShapedAs(f.name, pieces, ext);
      ShapedKey(f.name, pieces, ext);
    }
  }

  lemma SortTwo(a: CsvFile, b: CsvFile)
    requires FileKey(a) > FileKey(b)
    ensures SortByKey([a, b], FileKey) == [b, a]
  {
    assert [a, b][..1] == [a];
    assert SortByKey([a], FileKey) == Insert([], a, FileKey) == [a];
    assert Insert([a], b, FileKey) == Insert([], b, FileKey) + [a];
  }

  lemma ShapedSplit(name: string, pieces: seq<string>, ext: string)
    requires ShapedAs(name, pieces, ext)
    ensures Split(name, '_') == pieces[..|pieces| - 1] + [pieces[|pieces| - 1] + ['.'] + ext]
  {
    var n := |pieces|;
    var suffix := ['.'] + ext;
    var last := pieces[n - 1] + suffix;
    var tokens := pieces[..n - 1] + [last];
    JoinExtended(pieces, '_', suffix);
    assert name == Join(pieces, '_') + suffix;
    assert '_' !in last by {
      assert '_' !in pieces[n - 1];
      assert forall i :: 0 <= i < |last| ==> last[i] == if i < |pieces[n - 1]| then pieces[n - 1][i] else suffix[i - |pieces[n - 1]|];
    }
    forall i | 0 <= i < |tokens| ensures '_' !in tokens[i] {
      if i < n - 1 {
        assert tokens[i] == pieces[i];
      }
    }
    SplitJoin(tokens, '_');
    assert last == pieces[n - 1] + ['.'] + ext;
  }

  // ---------------------------------------------------------------------------
  // What a successful run guarantees about the tables.

  /** The label-column values of a vertex file are non-empty (an empty value
      would be counted under the wildcard key). */
  ghost predicate WellLabelled(f: CsvFile) {
    Resolve(f.name).Ok? && Resolve(f.name).value.Vertex? && VertexColumns(f.header).Ok? ==>
      LabelsNonEmpty(VertexColumns(f.header).value, Resolve(f.name).value.vertexLabel, f.rows)
  }

  /** The number of records in the vertex files, resp. the edge files. */
  function VertexRecords(files: seq<CsvFile>): nat
    decreases |files|
  {
    if files == [] then 0
    else
      var f := files[|files| - 1];
      VertexRecords(files[..|files| - 1]) + (if Resolve(f.name).Ok? && Resolve(f.name).value.Vertex? then |f.rows| else 0)
  }

  function EdgeRecords(files: seq<CsvFile>): nat
    decreases |files|
  {
    if files == [] then 0
    else
      var f := files[|files| - 1];
      EdgeRecords(files[..|files| - 1]) + (if Resolve(f.name).Ok? && Resolve(f.name).value.Edge? then |f.rows| else 0)
  }

  /** A successful import of a sequence of well-labelled files keeps the
      state consistent (every wildcard entry is the sum of its refinements,
      the registries hold labels of their own family), and the two grand
      totals grow by exactly the number of vertex records and of edge
      records. */
  lemma {:induction false} ImportAllTotals(st: State, files: seq<CsvFile>)
    requires ImportAll(st, files).Ok?
    requires Consistent(st)
    requires forall i :: 0 <= i < |files| ==> WellLabelled(files[i])
    ensures var after := ImportAll(st, files).value;
      && Consistent(after)
      && Count(after.vertex, "") == Count(st.vertex, "") + VertexRecords(files)
      && Cell(after.edge, "", "", "") == Cell(st.edge, "", "", "") + EdgeRecords(files)
    decreases |files|
  {
    if files != [] {
      var init := files[..|files| - 1];
      var f := files[|files| - 1];
      ImportAllTotals(st, init);
      var mid := ImportAll(st, init).value;
      ResolvedLabelsNonEmpty(f.name);
      match Resolve(f.name)
      case Ok(Vertex(l)) =>
        var labelIndex := VertexColumns(f.header).value;
        VertexRowsTotal(mid, labelIndex, l, f.rows);
      case Ok(Edge(s, e, d)) =>
        var endpoints := EdgeColumns(f.header, s, d).value;
        EdgeRowsTotal(mid, endpoints, s, e, d, f.rows);
    }
  }

  /** For a successful run on well-labelled files: the output tables are
      consistent, `vertex_cardinality[""]` is the number of vertex records and
      `edge_cardinality[""][""][""]` the number of edge records. */
  lemma RunTotals(files: seq<CsvFile>)
    requires ImportAll(Initial, files).Ok?
    requires forall i :: 0 <= i < |files| ==> WellLabelled(files[i])
    ensures var after := ImportAll(Initial, files).value;
      && Consistent(after)
      && Count(after.vertex, "") == VertexRecords(files)
      && Cell(after.edge, "", "", "") == EdgeRecords(files)
  {
    InitialConsistent();
    ImportAllTotals(Initial, files);
  }
}
