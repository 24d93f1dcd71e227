/** `resolve_file_name`: the classification of an input file, by its name,
    as a vertex file or an edge file, through two fixed lookup tables. */
module LabelResolver {
  import opened Outcomes
  import opened Text

  /** The vertex-name table. */
  function VertexName(token: string): Option<string> {
    match token
    case "place" => Some("Place")
    case "organisation" => Some("Organisation")
    case "tagclass" => Some("TagClass")
    case "tag" => Some("Tag")
    case "comment" => Some("Comment")
    case "forum" => Some("Forum")
    case "person" => Some("Person")
    case "post" => Some("Post")
    case _ => None
  }

  /** The edge-name table. */
  function EdgeName(token: string): Option<string> {
    match token
    case "isPartOf" => Some("IS_PART_OF")
    case "isSubclassOf" => Some("IS_SUBCLASS_OF")
    case "isLocatedIn" => Some("IS_LOCATED_IN")
    case "hasType" => Some("HAS_TYPE")
    case "hasCreator" => Some("HAS_CREATOR")
    case "replyOf" => Some("REPLY_OF")
    case "containerOf" => Some("CONTAINER_OF")
    case "hasMember" => Some("HAS_MEMBER")
    case "hasModerator" => Some("HAS_MODERATOR")
    case "hasTag" => Some("HAS_TAG")
    case "hasInterest" => Some("HAS_INTEREST")
    case "knows" => Some("KNOWS")
    case "likes" => Some("LIKES")
    case "studyAt" => Some("STUDY_AT")
    case "workAt" => Some("WORK_AT")
    case _ => None
  }

  /** What a file holds: vertices of one label, or edges of one label between
      two nominal vertex labels (`LabelName`). */
  datatype LabelName = Vertex(vertexLabel: string) | Edge(src: string, edge: string, dst: string)

  /** The file name (extension included) is split on `_`; tokens 0, 1 and 2
      are looked up. A name with fewer than three tokens is fatal. */
  function Resolve(fileName: string): Result<LabelName> {
    var v := Split(fileName, '_');
    if |v| < 3 then Fatal
    else
      match (VertexName(v[0]), EdgeName(v[1]), VertexName(v[2]))
      case (Some(src), Some(edge), Some(dst)) => Ok(Edge(src, edge, dst))
      case (Some(vertex), None, None) => Ok(Vertex(vertex))
      case _ => Fatal
  }

  /** Both tables are injective: two tokens with the same canonical name are the same token. */
  lemma TablesInjective(a: string, b: string)
    ensures VertexName(a).Some? && VertexName(a) == VertexName(b) ==> a == b
    ensures EdgeName(a).Some? && EdgeName(a) == EdgeName(b) ==> a == b
  {
  }

  /** Canonical names are never the wildcard, and no token is both a vertex
      and an edge name. */
  lemma CanonicalNames(token: string)
    ensures VertexName(token).Some? ==> VertexName(token).value != ""
    ensures EdgeName(token).Some? ==> EdgeName(token).value != ""
    ensures !(VertexName(token).Some? && EdgeName(token).Some?)
  {
  }

  /** An edge file is recognised exactly when all three tokens resolve. */
  lemma ResolveEdge(fileName: string, src: string, edge: string, dst: string)
    ensures var v := Split(fileName, '_');
      Resolve(fileName) == Ok(Edge(src, edge, dst)) <==>
        |v| >= 3 && VertexName(v[0]) == Some(src) && EdgeName(v[1]) == Some(edge) && VertexName(v[2]) == Some(dst)
  {
  }

  /** A vertex file is recognised exactly when the first token resolves and
      the second and third both fail to. */
  lemma ResolveVertex(fileName: string, name: string)
    ensures var v := Split(fileName, '_');
      Resolve(fileName) == Ok(Vertex(name)) <==>
        |v| >= 3 && VertexName(v[0]) == Some(name) && EdgeName(v[1]).None? && VertexName(v[2]).None?
  {
  }

  /** Every other name is fatal: too few tokens, an unknown first token, or
      a partial resolution of the other two. */
  lemma ResolveFatal(fileName: string)
    ensures var v := Split(fileName, '_');
      Resolve(fileName).Fatal? <==>
        |v| < 3 || VertexName(v[0]).None? || (EdgeName(v[1]).Some? != VertexName(v[2]).Some?)
  {
  }

  /** Labels produced by the resolver are non-empty, so they never collide
      with the wildcard. */
  lemma ResolvedLabelsNonEmpty(fileName: string)
    ensures Resolve(fileName).Ok? && Resolve(fileName).value.Vertex? ==> Resolve(fileName).value.vertexLabel != ""
    ensures Resolve(fileName).Ok? && Resolve(fileName).value.Edge? ==>
      var t := Resolve(fileName).value; t.src != "" && t.edge != "" && t.dst != ""
  {
    var v := Split(fileName, '_');
    if |v| >= 3 {
      CanonicalNames(v[0]);
      CanonicalNames(v[1]);
      CanonicalNames(v[2]);
    }
  }

  /** Only the first three tokens count: names that agree on them resolve alike. */
  lemma ResolveByFirstTokens(a: string, b: string)
    ensures var va, vb := Split(a, '_'), Split(b, '_');
      |va| >= 3 && |vb| >= 3 && va[..3] == vb[..3] ==> Resolve(a) == Resolve(b)
  {
    var va, vb := Split(a, '_'), Split(b, '_');
    if |va| >= 3 && |vb| >= 3 && va[..3] == vb[..3] {
      assert va[0] == va[..3][0] && va[1] == va[..3][1] && va[2] == va[..3][2];
      assert vb[0] == vb[..3][0] && vb[1] == vb[..3][1] && vb[2] == vb[..3][2];
    }
  }

  // ---------------------------------------------------------------------------
  // File names of the dataset's own shape, `person_0_0.csv` and
  // `person_knows_person_0_0.csv`, written as their `_`-separated tokens
  // joined back together. The name is split with its extension, so the
  // shorter names `person_0.csv` and `person_knows_person.csv` fail.

  /** `Resolve` in terms of the pieces of the name. */
  lemma ResolvePieces(name: string, v: seq<string>)
    requires Split(name, '_') == v
    ensures |v| < 3 ==> Resolve(name).Fatal?
    ensures |v| >= 3 ==> Resolve(name) == match (VertexName(v[0]), EdgeName(v[1]), VertexName(v[2]))
      case (Some(src), Some(edge), Some(dst)) => Ok(Edge(src, edge, dst))
      case (Some(vertex), None, None) => Ok(Vertex(vertex))
      case _ => Fatal
  {
  }

  /** `person_0_0.csv` holds Person vertices. */
  lemma PersonFileName()
    ensures Resolve(Join(["person", "0", "0.csv"], '_')) == Ok(Vertex("Person"))
  {
    var pieces := ["person", "0", "0.csv"];
    assert '_' !in pieces[0] && '_' !in pieces[1] && '_' !in pieces[2];
    SplitJoin(pieces, '_');
    assert VertexName(pieces[0]) == Some("Person");
    assert EdgeName(pieces[1]).None? && VertexName(pieces[2]).None?;
    ResolvePieces(Join(pieces, '_'), pieces);
  }

  /** `person_knows_person_0_0.csv` holds KNOWS edges between Person vertices. */
  lemma PersonKnowsPersonFileName()
    ensures Resolve(Join(["person", "knows", "person", "0", "0.csv"], '_')) == Ok(Edge("Person", "KNOWS", "Person"))
  {
    var pieces := ["person", "knows", "person", "0", "0.csv"];
    assert '_' !in pieces[0] && '_' !in pieces[1] && '_' !in pieces[2] && '_' !in pieces[3] && '_' !in pieces[4];
    SplitJoin(pieces, '_');
    assert VertexName(pieces[0]) == Some("Person") && VertexName(pieces[2]) == Some("Person");
    assert EdgeName(pieces[1]) == Some("KNOWS");
    ResolvePieces(Join(pieces, '_'), pieces);
  }

  /** `person_0.csv` is fatal: a short vertex file name leaves no third token. */
  lemma ShortVertexFileName()
    ensures Resolve(Join(["person", "0.csv"], '_')).Fatal?
  {
    var pieces := ["person", "0.csv"];
    assert '_' !in pieces[0] && '_' !in pieces[1];
    SplitJoin(pieces, '_');
    ResolvePieces(Join(pieces, '_'), pieces);
  }

  /** `person_knows_person.csv` is fatal: a short edge file name keeps the
      extension on its third token. */
  lemma ShortEdgeFileName()
    ensures Resolve(Join(["person", "knows", "person.csv"], '_')).Fatal?
  {
    var pieces := ["person", "knows", "person.csv"];
    assert '_' !in pieces[0] && '_' !in pieces[1] && '_' !in pieces[2];
    SplitJoin(pieces, '_');
    ResolvePieces(Join(pieces, '_'), pieces);
  }
}
