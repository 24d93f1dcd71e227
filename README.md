# ldbc_stat_gen — a verified model of the statistics importer

`ldbc_stat_gen` reads the CSV files of an LDBC social-network dataset and
computes two cardinality tables:

- `vertex_cardinality`, which maps a vertex label to its number of vertices;
- `edge_cardinality`, which maps a source label, an edge label and a
  destination label to a number of edges.

The empty label `""` is a wildcard. `vertex_cardinality[""]` counts every
vertex. Each edge is counted in all 8 cells `{src, ""} x {edge, ""} x {dst, ""}`.

The run works in four steps:

1. It lists the files of `static/` and then `dynamic/`.
2. It orders them by the number of `_`-separated tokens in their stem. This
   is guaranteed to put vertex files first when every vertex file is named
   `<t>_<a>_<b>.<ext>` and every edge file `<s>_<r>_<d>_<a>_<b>.<ext>`
   (`VertexFilesFirst`). Other names break it: `person_0_0_0_0.csv` is a
   vertex file with 5 tokens and sorts after the edge file
   `person_knows_person_0.csv`, which has 4 (`KeyOrderAcrossKinds`). A
   property file such as `person_email_emailaddress_0_0.csv` resolves as a
   `Person` vertex file with 5 tokens (`EmailAddressFile`).
3. It classifies each file by its name, as a vertex file of one label or an
   edge file of one (source, edge, destination) triple.
4. It imports the files one by one into a single `Context`. Vertex files with
   a `LABEL` column record the ids of `City`/`Country`/`Continent` rows in the
   `place` registry and the ids of `University`/`Company` rows in the
   `organisation` registry. Edge files whose endpoint is nominally `Place` or
   `Organisation` then resolve that endpoint's id through the registry, and
   count the edge under the registered, concrete label.

Malformed input that `main`'s file loop, the header scan or the record loop
meets aborts the whole run. This includes:

- an unknown file name;
- a column without a type;
- a misplaced id column;
- a second `LABEL` column;
- an unparsable id;
- a duplicate registered id;
- an unknown endpoint id.

The model keeps this strict behaviour. Every abort is the single outcome
`Fatal`. A CSV record that the `csv` crate cannot read is different: it
panics the spawned producer task, not the run (see "Left out").

Modules, one per part of `src/main.rs`:

- `Outcomes`: `Option` and `Result` (`Ok` / `Fatal`).
- `Text`:
  - `str::split`, with its round trips;
  - `starts_with`;
  - `Path::file_stem`;
  - the `_`-token count;
  - `u64::from_str`, concrete, with a round trip against decimal rendering.
- `Sums`: finite sums over sets of labels, used to state the roll-up
  invariants.
- `Tables`:
  - the two tables;
  - the `entry(..).or_insert(..) += 1` updates;
  - the three-level edge update `AddEdge`;
  - the roll-up invariants: every wildcard entry is the sum of its concrete
    refinements.
- `IdentityRegistry`: the two registry families and which labels go where.
- `HeaderScan`: the two header loops, each as a method proved equal to a
  declarative description of the header it accepts.
- `LabelResolver`: `resolve_file_name`.
- `Accumulation`: what one row does to the state, as functions, together with
  their properties.
- `Importer`: the `Context` class. Its methods update the tables and the
  registries in place, row by row, and each is proved against `Accumulation`.
- `FileOrder`: the stable sort by key, defined as an insertion sort. The model
  proves three facts about it: it is sorted, it is a permutation, and it keeps
  the order of files with equal keys. It also proves that these facts
  determine the result uniquely.
- `Driver`: `main`'s ordering and import loop, what the order guarantees
  about vertex and edge files, and the whole-run totals.

## Model

| member | source | states |
|---|---|---|
| `Text.Split` | src/main.rs:184-190 | `split('_')` yields at least one piece and no piece contains the separator |
| `Text.JoinSplit` | src/main.rs:184-190 | joining the pieces of a split with the separator gives back the original name |
| `Text.SplitJoin` | src/main.rs:184-190 | splitting separator-free pieces joined by the separator gives back exactly those pieces |
| `Text.SplitCount` | src/main.rs:258-265 | the number of pieces is the number of separators plus one |
| `Text.LastIndexOf` | src/main.rs:259-260 | the index found holds the character and no later position does; none is found only if the character is absent |
| `Text.Stem` | src/main.rs:259-260 | the stem is a prefix of the name; it is the whole name exactly when no `.` follows the first character, and otherwise it is non-empty and followed by the last `.` |
| `Text.StemOfExtension` | src/main.rs:259-260 | the stem of `<base>.<ext>` is `<base>` when neither part holds a `.` and `<base>` is non-empty |
| `Text.TokenCount` | src/main.rs:258-265 | the sort key is the number of `_` in the stem plus one |
| `Text.ParseU64` | src/main.rs:78 | an accepted id is below 2^64 |
| `Text.Decimal` | src/main.rs:78 | the decimal rendering is a non-empty digit string |
| `Text.DecimalValue` | src/main.rs:78 | the digits of the rendering denote the number |
| `Text.ParseDecimal` | src/main.rs:78 | every `u64` id written in decimal parses back to itself |
| `Text.ParseRejects` | src/main.rs:78 | the empty string, a lone `+`, a first character that is neither `+` nor a digit (a `-` among them), or any later non-digit is refused |
| `Tables.Inc` | src/main.rs:95-96 | one label's count grows by one and its entry exists afterwards; every other count and key is unchanged |
| `Tables.IncPairRollUp` | src/main.rs:92-96 | bumping a non-empty label and the wildcard keeps `vertex[""]` equal to the sum of the concrete counts |
| `Tables.Bump` | src/main.rs:160-168 | exactly one cell grows by one; the nested maps on its path are created and nothing else changes |
| `Tables.BumpDsts` | src/main.rs:166-169 | the inner loop bumps the destination and the wildcard destination of one (source, edge) pair |
| `Tables.BumpEdgesCell` | src/main.rs:164-170 | the middle loop raises a cell by the number of the 4 (edge, destination) pairs it matches |
| `Tables.BumpEdgesKeys` | src/main.rs:164-170 | the middle loop creates exactly the keys of its 4 cells |
| `Tables.BumpEdges` | src/main.rs:164-170 | the middle loop as a function: the inner loop for edge key `e`, then for `""` (its cells and keys are stated by `BumpEdgesCell` and `BumpEdgesKeys`) |
| `Tables.AddEdge` | src/main.rs:159-171 | one edge row's update as a function: the middle loop for source key `s`, then for `""` (its cells and keys are stated by `AddEdgeCell` and `AddEdgeKeys`) |
| `Tables.AddEdgeCell` | src/main.rs:159-171 | one edge row raises each cell by the number of the 8 updated cells it equals |
| `Tables.AddEdgeKeys` | src/main.rs:159-171 | one edge row creates exactly the keys of its 8 cells, and no other key appears |
| `Tables.AddEdgeRollUp` | src/main.rs:159-171 | one edge row with non-empty labels keeps every wildcard cell equal to the sum of its concrete refinements at each of the three levels |
| `IdentityRegistry.NominalFamily` | src/main.rs:124-135 | an endpoint is resolved through `organisation` iff its nominal label is `Organisation`, and through `place` iff it is `Place` |
| `IdentityRegistry.LabelFamily` | src/main.rs:74-89 | a row is recorded in `place` iff its label is City/Country/Continent, and in `organisation` iff it is University/Company |
| `HeaderScan.ColumnType` | src/main.rs:49-50 | the type of a column is the second `:`-piece of its name; a column without `:` has none, which is fatal in both scans |
| `HeaderScan.VertexColumns` | src/main.rs:45-61 | the vertex header as a whole: every column typed, an `ID…` type only at column 0, at most one `LABEL` column, whose position is the result (see `LabelColumnUnique`) |
| `HeaderScan.ScanVertexHeader` | src/main.rs:45-61 | the scan succeeds iff every column is typed, an `ID…` type occurs only at column 0 and `LABEL` occurs at most once; it returns the `LABEL` column if present |
| `HeaderScan.LabelColumnUnique` | src/main.rs:53-55 | the column returned is the only `LABEL` column; when none is returned there is none |
| `HeaderScan.EdgeColumns` | src/main.rs:113-140 | the edge header as a whole: every column typed, `START_ID…` only at column 0, `END_ID…` only at column 1, and the registry of each present endpoint column |
| `HeaderScan.ScanEdgeHeader` | src/main.rs:113-140 | the scan succeeds iff every column is typed, `START_ID…` occurs only at column 0 and `END_ID…` only at column 1; an endpoint gets a registry iff its column is present and its nominal label is Place or Organisation |
| `LabelResolver.Resolve` | src/main.rs:182-245 | `resolve_file_name`: the whole file name split on `_`; fatal below 3 tokens; an edge when tokens 0, 1, 2 resolve as vertex, edge, vertex; a vertex when only token 0 resolves (stated by `ResolveEdge`, `ResolveVertex`, `ResolveFatal`) |
| `LabelResolver.TablesInjective` | src/main.rs:194-227 | distinct tokens never map to the same canonical vertex name or edge name |
| `LabelResolver.CanonicalNames` | src/main.rs:194-227 | canonical names are non-empty, and no token is both a vertex name and an edge name |
| `LabelResolver.ResolveEdge` | src/main.rs:229-238 | a name is an edge file iff it has at least 3 tokens and they resolve as vertex, edge, vertex |
| `LabelResolver.ResolveVertex` | src/main.rs:229-239 | a name is a vertex file iff token 0 is a vertex name and tokens 1 and 2 both fail to resolve |
| `LabelResolver.ResolveFatal` | src/main.rs:182-245 | resolution fails iff there are fewer than 3 tokens, token 0 is unknown, or only one of tokens 1 and 2 resolves |
| `LabelResolver.ResolvedLabelsNonEmpty` | src/main.rs:229-239 | resolved labels are never the wildcard `""` |
| `LabelResolver.ResolveByFirstTokens` | src/main.rs:183-192 | two names whose first three `_`-tokens agree resolve alike; the rest of the name plays no part |
| `LabelResolver.PersonFileName` | src/main.rs:182-245 | `person_0_0.csv` is a `Person` vertex file |
| `LabelResolver.PersonKnowsPersonFileName` | src/main.rs:182-245 | `person_knows_person_0_0.csv` is a (Person, KNOWS, Person) edge file |
| `LabelResolver.ShortVertexFileName` | src/main.rs:183-191 | `person_0.csv` is rejected because there is no third token |
| `LabelResolver.ShortEdgeFileName` | src/main.rs:183-191 | `person_knows_person.csv` is rejected because the third token keeps the extension |
| `Accumulation.Register` | src/main.rs:74-89 | the registry insertion of one row: City/Country/Continent into `place`, University/Company into `organisation`, keyed by the id of column 0; a malformed or already registered id is fatal; other labels change nothing |
| `Accumulation.VertexRow` | src/main.rs:72-97 | one vertex row: the row's label (its `LABEL` field or the file's label), the registry insertion when the file has a `LABEL` column, then one more for the label and one more for `""` |
| `Accumulation.VertexRows` | src/main.rs:72-97 | the rows of a vertex file in file order; the first failing row aborts |
| `Accumulation.ImportVertexSpec` | src/main.rs:34-98 | `import_vertex`: the header scan, then the rows |
| `Accumulation.EndpointLabel` | src/main.rs:154-157 | an endpoint's label: the nominal label, or the label its id has in the endpoint's registry, fatal when the id is not there |
| `Accumulation.EdgeRow` | src/main.rs:151-172 | one edge row: parse the ids of columns 0 and 1, resolve both endpoints, then update the 8 cells with `AddEdge` |
| `Accumulation.EdgeRows` | src/main.rs:151-172 | the rows of an edge file in file order; the first failing row aborts |
| `Accumulation.ImportEdgeSpec` | src/main.rs:100-173 | `import_edge`: the header scan, then the rows |
| `Accumulation.VertexRowsStop` | src/main.rs:72-97 | once a row of a vertex file fails, the file fails |
| `Accumulation.EdgeRowsStop` | src/main.rs:151-172 | once a row of an edge file fails, the file fails |
| `Accumulation.VertexRowCounts` | src/main.rs:92-96 | a vertex row adds one to its own label (the file's label, or its `LABEL` field) and one to `""`, changes no other count, and leaves the edge table alone |
| `Accumulation.VertexRowFatal` | src/main.rs:73-90 | a vertex row fails iff its `LABEL` field is missing, or its label has a registry family and its id is malformed or already registered there |
| `Accumulation.VertexRowRegistry` | src/main.rs:73-90 | a place/organisation row records its id and label in its own registry, the id was new there, and nothing else is recorded |
| `Accumulation.InitialConsistent` | src/main.rs:23-31 | the empty context satisfies the roll-up and registry invariants |
| `Accumulation.VertexRowsTotal` | src/main.rs:72-97 | a vertex file with non-empty labels raises `vertex[""]` by its number of rows, keeps every invariant, and does not touch the edge table |
| `Accumulation.EdgeRowResolution` | src/main.rs:151-172 | an edge row succeeds iff both ids parse and each registry endpoint's id is registered; it then counts the registered labels, not the nominal ones |
| `Accumulation.EndpointLabelNonEmpty` | src/main.rs:154-157 | an endpoint resolved through a registry gets a non-empty label |
| `Accumulation.EdgeRowsTotal` | src/main.rs:151-172 | an edge file raises `edge[""][""][""]` by its number of rows, keeps every invariant, and leaves the vertex table and registries unchanged |
| `Importer.Context.constructor` | src/main.rs:23-31 | `Context::default()` has empty tables and registries |
| `Importer.Context.ImportVertex` | src/main.rs:34-98 | in-place import of a vertex file: succeeds exactly when the specification does and then leaves the state it describes |
| `Importer.Context.ConsumeVertexRow` | src/main.rs:72-97 | the record-loop body of `import_vertex`: registry insert with the duplicate check, then the two counter bumps |
| `Importer.Context.ImportEdge` | src/main.rs:100-173 | in-place import of an edge file: succeeds exactly when the specification does and then leaves the state it describes |
| `Importer.Context.ConsumeEdgeRow` | src/main.rs:151-172 | the record-loop body of `import_edge`: parse both ids, resolve both endpoints, bump 8 cells |
| `Importer.Context.ResolveEndpoint` | src/main.rs:154-157 | an endpoint keeps its nominal label, or takes the registered label of its id; it fails iff a registry is in use and lacks the id |
| `Importer.Context.AddEdgeInPlace` | src/main.rs:159-171 | the outer loop over `[src, ""]` leaves the edge table equal to `AddEdge` and changes nothing else |
| `Importer.Context.BumpEdgesInPlace` | src/main.rs:164-170 | the middle loop over `[edge, ""]` |
| `Importer.Context.BumpDstsInPlace` | src/main.rs:166-169 | the inner loop over `[dst, ""]`, with the entry and `or_insert` creation of the nested maps |
| `FileOrder.Insert` | src/main.rs:258-265 | the reference insertion step: the new file goes after the last file whose key is not greater than its own |
| `FileOrder.SortByKey` | src/main.rs:258-265 | the stable sort by key as repeated insertion (its properties are the lemmas below) |
| `FileOrder.InsertSorted` | src/main.rs:258-265 | inserting into a sorted sequence keeps it sorted |
| `FileOrder.InsertClass` | src/main.rs:258-265 | insertion never reorders elements that have equal keys |
| `FileOrder.InsertPermutation` | src/main.rs:258-265 | insertion adds exactly the one element |
| `FileOrder.SortedBySortByKey` | src/main.rs:258-265 | the files come out in ascending key order |
| `FileOrder.SortByKeyPermutation` | src/main.rs:258-265 | the sort neither loses nor duplicates files |
| `FileOrder.SortByKeyStable` | src/main.rs:258-265 | files with the same key keep their listed order (`sort_by_cached_key` is stable) |
| `FileOrder.SortedClassesUnique` | src/main.rs:258-265 | two sorted sequences with the same key classes are equal, so any stable sort gives this order |
| `Driver.FileKey` | src/main.rs:258-265 | a file's sort key is the token count of its name's stem (`TokenCount`) |
| `Driver.ShapedKey` | src/main.rs:258-265 | a name `<p0>_…_<pn>.<ext>` of at least two pieces, none holding `_` or `.`, has as many tokens as pieces |
| `Driver.VertexFilesFirst` | src/main.rs:257-265 | when vertex files have three tokens and edge files five, every vertex file precedes every edge file in any key-sorted order of the same files, such as the one `Run` returns |
| `Driver.KeyOrderAcrossKinds` | src/main.rs:257-265 | outside that naming the order can put an edge file first: the vertex file `person_0_0_0_0.csv` (5 tokens) sorts after the edge file `person_knows_person_0.csv` (4 tokens) |
| `Driver.EmailAddressFile` | src/main.rs:182-245 | `person_email_emailaddress_0_0.csv` resolves as a `Person` vertex file with 5 tokens, outside that naming |
| `Driver.ImportFile` | src/main.rs:270-279 | one file: resolved by name, then `import_vertex` or `import_edge` on its header and records |
| `Driver.ImportAll` | src/main.rs:267-280 | the files in the given order into one state; the first failing file aborts |
| `Driver.ImportAllStop` | src/main.rs:267-280 | once a file fails, the run fails |
| `Driver.Run` | src/main.rs:247-280 | the import order is the stable sort of static-then-dynamic files by key; the run succeeds exactly when importing them in that order does, and then outputs those tables |
| `Driver.ImportFiles` | src/main.rs:267-280 | the import loop over one fresh context matches the file-by-file specification |
| `Driver.ImportOne` | src/main.rs:270-279 | one file: resolved by name, then `import_vertex` or `import_edge` |
| `Driver.ImportAllTotals` | src/main.rs:267-280 | a successful import of well-labelled files keeps every invariant, and the two grand totals grow by the number of vertex records and of edge records |
| `Driver.RunTotals` | src/main.rs:267-280 | for a successful run: consistent output, `vertex[""]` equals the number of vertex records, `edge[""][""][""]` the number of edge records |

### Behaviours of the code that the model keeps

- **File names.** `resolve_file_name` splits the full file name, extension
  included, and reads tokens 0, 1 and 2. So `person_0.csv` has no third
  token and panics, and `person_knows_person.csv` has `person.csv` as its
  third token, which fails to resolve (`ShortVertexFileName`,
  `ShortEdgeFileName`). Names with two trailing number tokens,
  `person_0_0.csv` and `person_knows_person_0_0.csv`, resolve as a vertex
  and an edge file.
- **Sort key.** The sort key uses the stem, without the extension, while the
  resolver uses the whole name. The model keeps that difference.
- **Empty `LABEL` field.** An empty `LABEL` field is counted under `""`, the
  wildcard. That breaks the roll-up invariant. The roll-up lemmas
  (`VertexRowsTotal`, `ImportAllTotals`, `RunTotals`) therefore assume that
  label fields are non-empty (`WellLabelled`). The importer itself accepts
  such rows, exactly as the code does.
- **Duplicate-registry guard.** The edge-header scan panics when it attaches
  a second registry to an endpoint (`src/main.rs:125-135`). This can never
  fire, because each endpoint column must sit at a fixed index.
  `ScanEdgeHeader` keeps the guard, and its specification shows that the
  guard is redundant.

## Left out

- CSV reading: the `|` delimiter, quoting, and the header and record parsing
  of the `csv` crate. A file is given as its name, its header fields and its
  records.
- A record the crate cannot read, such as one whose length differs from the
  header, makes `record.unwrap()` panic inside the task started by
  `tokio::spawn` (`src/main.rs:65-70`, `src/main.rs:144-149`). The runtime
  catches that panic and drops the sender, so `for record in rx` ends early
  and the run goes on with the file cut short, without an error. The model
  takes a file's records as given; it describes such a file by the records
  before the unreadable one.
- The producer thread and the bounded `sync_channel` between the reader and
  the consumer loop. The records are consumed in file order. The
  concurrency, the backpressure and the send/receive panics are not modelled.
- Directory listing (`read_dir`), `clap` argument parsing, the `println!`
  progress lines, and writing the JSON output file. `Run` takes the two file
  lists and returns the tables.
- Panics from non-UTF-8 paths and from the `unwrap`s on I/O. Every modelled
  failure is `Fatal`; I/O failures are not modelled at all.
- Counters are `f64` in the source and are only ever incremented by `1.0`.
  The model uses unbounded naturals. Rounding above 2^53 is not modelled.
- Ids are `u64`. The parser is modelled concretely: optional `+`, ASCII
  digits, value below 2^64. Registry keys are the parsed naturals.
- The key cache of `sort_by_cached_key` is not modelled: keys are pure, so
  caching does not change the order. Nor is the standard library's sorting
  algorithm. `SortByKey` is an insertion sort, and `SortedClassesUnique`
  shows that every stable sort by the same key gives the same order.
- `HashMap` iteration order plays no part: the tables are Dafny maps.
