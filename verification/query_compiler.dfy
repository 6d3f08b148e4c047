/** The graph-to-SPARQL compiler of wikidata_access.py: `graph_to_query`, which
    instantiates fixed query templates by a chain of textual substitutions, and
    `get_free_variables`, which lists the variables that compilation leaves
    unbound without producing any text. */
module QueryCompiler {
  import opened Wrappers
  import opened Text
  import opened Loops
  import opened ReplacementTemplate

  // ---------------------------------------------------------------------------
  // Semantic graphs

  /** The three relation shapes, keyed "direct", "reverse" and "v-structure". */
  datatype Shape = Direct | Reverse | VStructure

  function ShapeKey(t: Shape): string
  {
    match t
    case Direct => "direct"
    case Reverse => "reverse"
    case VStructure => "v-structure"
  }

  /** The first character of a shape's key (`t[0]`), used in variable names. */
  function ShapeLetter(t: Shape): char
  {
    ShapeKey(t)[0]
  }

  /** The keys of `sparql_relation` in iteration order. */
  const Shapes: seq<Shape> := [Direct, Reverse, VStructure]

  /** One edge of the semantic graph. `None` stands for a key missing from the
      edge's dictionary; `hopUp` and `argmax` record only whether their key is
      present, since the compiler never reads their values. `shape` is the
      edge's `type` key. */
  datatype Edge = Edge(
    left: seq<int>,
    right: Option<seq<int>>,
    kbID: Option<string>,
    shape: Option<Shape>,
    rightkbID: Option<string>,
    hopUp: bool,
    argmax: bool)

  /** A semantic graph; a missing `edgeSet` is the empty sequence (`g.get('edgeSet', [])`),
      a missing `tokens` key is `None`. `entities` is carried but never read. */
  datatype Graph = Graph(tokens: Option<seq<string>>, edgeSet: seq<Edge>, entities: seq<seq<int>>)

  // ---------------------------------------------------------------------------
  // Query templates. Each template is written as the pieces obtained by cutting
  // the source's string before every run of white space; their concatenation
  // is the source's string character for character.

  /** A line break followed by the eight spaces of indentation inside the
      triple-quoted templates. */
  const NL := "\n        "

  const Prefix := "\n        PREFIX e:<http://www.wikidata.org/entity/>\n        PREFIX rdfs:<http://www.w3.org/2000/01/rdf-schema#>\n        PREFIX skos:<http://www.w3.org/2004/02/skos/core#>\n        PREFIX base:<http://www.wikidata.org/ontology#>\n        "

  const SelectHead := "\n        SELECT DISTINCT "
  const QueryVariablesSlot := "%queryvariables%"
  const SelectTail := " WHERE\n        "
  const Select := SelectHead + QueryVariablesSlot + SelectTail

  const Statements := " <http://wikidata.org/statements>"
  const Terms := " <http://wikidata.org/terms>"

  const DirectPieces: seq<string> :=
    ["{GRAPH", Statements, " {", " ?e1", " ?p", " ?m", " .", " ?m", " ?rd", " ?e2", " .", " %restriction%", " }}"]
  const ReversePieces: seq<string> :=
    ["{GRAPH", Statements, " {", " ?e2", " ?p", " ?m", " .", " ?m", " ?rr", " ?e1", " .", " %restriction%", " }}"]
  const VStructurePieces: seq<string> :=
    ["{GRAPH", Statements, " {", " ?m", " ?p", " ?e2", " .", " ?m", " ?rv", " ?e1", " .", " %restriction%", " }}"]

  /** `sparql_relation_complex`: the union of the three shapes, without a
      restriction slot. */
  const UnionPieces: seq<string> :=
    [NL + "{",
     NL + "{GRAPH", Statements, " {", " ?e1", " ?p", " ?m", " .", " ?m", " ?rd", " ?e2", " .", " }}",
     NL + "UNION",
     NL + "{GRAPH", Statements, " {", " ?e2", " ?p", " ?m", " .", " ?m", " ?rr", " ?e1", " .", " }}",
     NL + "UNION",
     NL + "{GRAPH", Statements, " {", " ?m", " ?p", " ?e2.", " ?m", " ?rv", " ?e1.", " }}}",
     NL]

  /** `sparql_entity_label`: the object entity by exact or alternative label. */
  const LabelPieces: seq<string> :=
    [NL + "{{GRAPH", Terms, " {", " ?e2", " rdfs:label", " \"%labelright%\"@en", " ", " }}",
     NL + "UNION",
     NL + "{GRAPH", Terms, " {", " ?e2", " skos:altLabel", " \"%labelright%\"@en", " ", " }}",
     NL + "}",
     NL]

  /** `sparql_relation_time_argmax`. */
  const TimeArgmaxPieces: seq<string> := ["?m", " ?a", " [base:time", " ?n]."]

  const HopUpRelations: seq<string> := ["P131", "P31", "P279", "P17", "P361"]

  /** `["e:{}v".format(r) for r in rs]`: each relation id as a predicate name. */
  function RelationPredicates(rs: seq<string>): (ps: seq<string>)
    ensures |ps| == |rs|
    ensures forall k :: 0 <= k < |rs| ==> ps[k] == "e:" + rs[k] + "v"
    decreases |rs|
  {
    if |rs| == 0 then [] else ["e:" + rs[0] + "v"] + RelationPredicates(rs[1..])
  }

  /** `"|".join(["e:{}v".format(r) for r in HOP_UP_RELATIONS])`. */
  const HopUpPath := Join("|", RelationPredicates(HopUpRelations))

  /** `sparql_entity_abstract`: the object reached through one broader relation. */
  const EntityAbstractPieces: seq<string> := ["[", " _:s", " [", " " + HopUpPath, " ?e2]]"]

  function ShapeTemplate(t: Shape): string
  {
    match t
    case Direct => Flatten(DirectPieces)
    case Reverse => Flatten(ReversePieces)
    case VStructure => Flatten(VStructurePieces)
  }

  const UnionTemplate := Flatten(UnionPieces)
  const LabelTemplate := Flatten(LabelPieces)
  const TimeArgmax := Flatten(TimeArgmaxPieces)
  const EntityAbstract := Flatten(EntityAbstractPieces)

  // ---------------------------------------------------------------------------
  // The substitution chain

  /** `s` starts with a match of the regular expression `\?r[drv]`. */
  predicate RelationAt(s: string)
  {
    |s| >= 3 && s[0] == '?' && s[1] == 'r' && s[2] in "drv"
  }

  /** `re.sub(r"\?r[drv]", rep, s)`: every `?rd`, `?rr` or `?rv`, found left to
      right without overlap, becomes `rep`. */
  function SubstituteRelation(s: string, rep: string): (r: string)
    ensures (forall k :: 0 <= k < |s| ==> s[k] != '?') ==> r == s
    decreases |s|
  {
    if RelationAt(s) then rep + SubstituteRelation(s[3..], rep)
    else if |s| == 0 then []
    else [s[0]] + SubstituteRelation(s[1..], rep)
  }

  /** `re.sub(r"\?r[drv]", repl, s)` with a parsed replacement template:
      every match `m` becomes the template expanded for `m`. */
  function SubstituteTemplate(s: string, ps: seq<Piece>): (r: string)
    ensures (forall k :: 0 <= k < |s| ==> s[k] != '?') ==> r == s
    decreases |s|
  {
    if RelationAt(s) then Expand(ps, s[..3]) + SubstituteTemplate(s[3..], ps)
    else if |s| == 0 then []
    else [s[0]] + SubstituteTemplate(s[1..], ps)
  }

  /** Parsing a replacement without a backslash and expanding it gives the
      same text as using the replacement as it stands, so the literal use of
      such replacements only saves work. */
  lemma {:induction false} SubstituteLiteralTemplate(s: string, rep: string)
    requires '\\' !in rep
    ensures Parse(rep).Success? && SubstituteTemplate(s, Parse(rep).value) == SubstituteRelation(s, rep)
    decreases |s|
  {
    if RelationAt(s) {
      LiteralTemplate(rep, s[..3]);
      SubstituteLiteralTemplate(s[3..], rep);
    } else if |s| > 0 {
      SubstituteLiteralTemplate(s[1..], rep);
    } else {
      LiteralTemplate(rep, "");
    }
  }

  /** One substitution of the chain: `s.replace(pat, rep)` or the `re.sub` above
      with the replacement `id`. */
  datatype Rewrite = Replace(pat: string, rep: string) | RelationId(id: string)

  /** A replacement holding a backslash is a template; one that does not
      parse makes `re.sub` raise, which `CompileEdge` reports before the
      rewritten text is ever used (the text is then left as it was). */
  function Rewritten(s: string, w: Rewrite): string
  {
    match w
    case Replace(pat, rep) => ReplaceAll(s, pat, rep)
    case RelationId(id) =>
      if '\\' !in id then SubstituteRelation(s, id)
      else match Parse(id)
        case Success(ps) => SubstituteTemplate(s, ps)
        case Failure(_) => s
  }

  /** The rewrites applied in order, the first one first. */
  function RewriteAll(s: string, ws: seq<Rewrite>): string
    decreases |ws|
  {
    if |ws| == 0 then s else RewriteAll(Rewritten(s, ws[0]), ws[1..])
  }

  /** The template an edge starts from. */
  function EdgeTemplate(e: Edge): string
  {
    if e.shape.Some? then ShapeTemplate(e.shape.value) else UnionTemplate
  }

  /** The substitutions applied to edge `i`'s relation pattern, in source order. */
  function EdgeRewrites(e: Edge, i: nat): seq<Rewrite>
  {
    (if e.kbID.Some? then [RelationId("e:" + e.kbID.value)] else [Replace("?r", "?r" + DecimalString(i))])
    + (if e.hopUp then [Replace("?e2", EntityAbstract)] else [])
    + (if e.argmax then [Replace("%restriction%", TimeArgmax), Replace("?n", "?n" + DecimalString(i)), Replace("?a", "?a" + DecimalString(i))]
       else [Replace("%restriction%", "")])
    + [Replace("?p", "?p" + DecimalString(i)), Replace("?m", "?m" + DecimalString(i))]
    + (if e.rightkbID.Some? then [Replace("?e2", "e:" + e.rightkbID.value)] else [Replace("?e2", "?e2" + DecimalString(i))])
    + [Replace("_:m", "_:m" + DecimalString(i)), Replace("_:s", "_:s" + DecimalString(i))]
  }

  /** `sparql_relation_inst` once edge `i` has been processed. */
  function RelationPattern(e: Edge, i: nat): string
  {
    RewriteAll(EdgeTemplate(e), EdgeRewrites(e, i))
  }

  /** `sparql_entity_label_inst` for edge `i` and the title-cased label. */
  function LabelPattern(i: nat, rightLabel: string): string
  {
    ReplaceAll(ReplaceAll(LabelTemplate, "?e2", "?e2" + DecimalString(i)), "%labelright%", rightLabel)
  }

  // ---------------------------------------------------------------------------
  // The object label taken from the question's tokens

  /** The exceptions the compiler can raise, each with the position of the edge
      being compiled: a missing `right` or `tokens` key (KeyError), a token
      position outside the token list (IndexError), and a relation id that
      `re.sub` refuses as a replacement template (`re.error` or IndexError,
      with the position of the bad escape in `"e:" + kbID`). */
  datatype CompileError =
    | MissingRight(edge: nat)
    | MissingTokens(edge: nat)
    | TokenOutOfRange(edge: nat, position: int)
    | BadTemplate(edge: nat, at: nat)

  /** `re.sub` refuses `"e:" + kbID` as a replacement template. */
  predicate TemplateFails(e: Edge)
  {
    e.kbID.Some? && Parse("e:" + e.kbID.value).Failure?
  }

  /** Python's `ts[j]`: negative positions count from the end. */
  function TokenAt(ts: seq<string>, j: int): (r: Option<string>)
    ensures r.Some? <==> -|ts| <= j < |ts|
    ensures 0 <= j < |ts| ==> r == Some(ts[j])
    ensures -|ts| <= j < 0 ==> r == Some(ts[|ts| + j])
  {
    if 0 <= j < |ts| then Some(ts[j])
    else if -|ts| <= j < 0 then Some(ts[|ts| + j])
    else None
  }

  /** `[ts[j] for j in positions]`, failing with the first bad position. */
  function SelectTokens(ts: seq<string>, positions: seq<int>): (r: Result<seq<string>, int>)
    ensures r.Success? <==> forall k :: 0 <= k < |positions| ==> TokenAt(ts, positions[k]).Some?
    ensures r.Success? ==>
      (|r.value| == |positions| && forall k :: 0 <= k < |positions| ==> Some(r.value[k]) == TokenAt(ts, positions[k]))
    ensures r.Failure? ==> r.error in positions && TokenAt(ts, r.error).None?
    decreases |positions|
  {
    if |positions| == 0 then Success([])
    else match TokenAt(ts, positions[0])
      case None => Failure(positions[0])
      case Some(t) =>
        match SelectTokens(ts, positions[1..])
        case Failure(j) => Failure(j)
        case Success(rest) => Success([t] + rest)
  }

  /** `" ".join([g['tokens'][j] for j in edge['right']]).title()` for edge `i`. */
  function RightLabel(tokens: Option<seq<string>>, right: Option<seq<int>>, i: nat): (r: Result<string, CompileError>)
    ensures r.Failure? <==>
      (right.None? || (|right.value| > 0 &&
        (tokens.None? || exists k :: 0 <= k < |right.value| && TokenAt(tokens.value, right.value[k]).None?)))
    ensures r.Failure? ==> r.error.edge == i
  {
    match right
    case None => Failure(MissingRight(i))
    case Some(positions) =>
      if |positions| == 0 then Success(Title(""))
      else match tokens
        case None => Failure(MissingTokens(i))
        case Some(ts) =>
          match SelectTokens(ts, positions)
          case Failure(j) => Failure(TokenOutOfRange(i, j))
          case Success(words) => Success(Title(Join(" ", words)))
  }

  // ---------------------------------------------------------------------------
  // graph_to_query

  /** The three values `graph_to_query` builds side by side: the query text,
      the SELECT variable list and the ORDER BY variable list. */
  datatype Query = Query(text: string, variables: seq<string>, orderBy: seq<string>)

  /** The query text edge `i` contributes: its relation pattern, after the
      label pattern when the object has no id. */
  function EdgeText(tokens: Option<seq<string>>, e: Edge, i: nat): (r: Result<string, CompileError>)
    ensures r.Failure? <==> e.rightkbID.None? && RightLabel(tokens, e.right, i).Failure?
    ensures r.Failure? ==> r.error == RightLabel(tokens, e.right, i).error
  {
    if e.rightkbID.Some? then Success(RelationPattern(e, i))
    else
      match RightLabel(tokens, e.right, i)
      case Failure(err) => Failure(err)
      case Success(labelText) => Success(LabelPattern(i, labelText) + RelationPattern(e, i))
  }

  /** The relation variables edge `i` leaves free. */
  function RelationVariables(e: Edge, i: nat): (r: seq<string>)
    ensures e.kbID.Some? ==> r == []
    ensures e.kbID.None? && e.shape.None? ==> r == ["?r" + DecimalString(i) + "d", "?r" + DecimalString(i) + "r", "?r" + DecimalString(i) + "v"]
    ensures e.kbID.None? && e.shape.Some? ==> r == ["?r" + DecimalString(i) + [ShapeKey(e.shape.value)[0]]]
  {
    if e.kbID.Some? then []
    else if e.shape.None? then seq(|Shapes|, k requires 0 <= k < |Shapes| => "?r" + DecimalString(i) + [ShapeLetter(Shapes[k])])
    else ["?r" + DecimalString(i) + [ShapeLetter(e.shape.value)]]
  }

  /** The body of the loop over `edgeSet` for edge `i`: the edge's text is
      appended to the query and its free and ORDER BY variables to their lists. */
  function CompileEdge(g: Graph, i: nat, acc: Query): (r: Result<Query, CompileError>)
    requires i < |g.edgeSet|
    ensures r.Failure? <==>
      TemplateFails(g.edgeSet[i]) || (g.edgeSet[i].rightkbID.None? && RightLabel(g.tokens, g.edgeSet[i].right, i).Failure?)
    ensures r.Failure? ==> r.error.edge == i
    ensures TemplateFails(g.edgeSet[i]) ==> r == Failure(BadTemplate(i, Parse("e:" + g.edgeSet[i].kbID.value).error.at))
    ensures !TemplateFails(g.edgeSet[i]) && r.Failure? ==> r.error == RightLabel(g.tokens, g.edgeSet[i].right, i).error
    ensures r.Success? ==> acc.text + EdgeText(g.tokens, g.edgeSet[i], i).value == r.value.text
    ensures r.Success? ==> r.value.variables == acc.variables + EdgeFreeVariables(g.edgeSet[i], i)
    ensures r.Success? ==> r.value.orderBy == acc.orderBy + (if g.edgeSet[i].argmax then ["?n" + DecimalString(i)] else [])
  {
    var e := g.edgeSet[i];
    if TemplateFails(e) then Failure(BadTemplate(i, Parse("e:" + e.kbID.value).error.at))
    else match EdgeText(g.tokens, e, i)
    case Failure(err) => Failure(err)
    case Success(t) =>
      AppendAssociative(acc.variables, RelationVariables(e, i), if e.rightkbID.None? then ["?e2" + DecimalString(i)] else []);
      Success(Query(acc.text + t,
        acc.variables + RelationVariables(e, i) + (if e.rightkbID.None? then ["?e2" + DecimalString(i)] else []),
        acc.orderBy + (if e.argmax then ["?n" + DecimalString(i)] else [])))
  }

  /** The loop body as a turn of a loop over edge numbers (a number past the
      last edge changes nothing). */
  function EdgeTurn(g: Graph): (nat, Query) -> Result<Query, CompileError>
  {
    (i: nat, acc: Query) => if i < |g.edgeSet| then CompileEdge(g, i, acc) else Success(acc)
  }

  /** The loop over `edgeSet`, from edge `i` on, with the values built so far. */
  function CompileEdges(g: Graph, i: nat, acc: Query): Result<Query, CompileError>
    requires i <= |g.edgeSet|
  {
    Run(EdgeTurn(g), |g.edgeSet|, i, acc)
  }

  /** Substitution for a pattern without `}` keeps a final `}`. */
  lemma ClosingBraceKept(s: string, pat: string, rep: string)
    requires |pat| > 0 && '}' !in pat
    ensures EndsWith(ReplaceAll(s + "}", pat, rep), "}")
  {
    ReplaceAllAppend(s, "}", pat, rep);
    assert !Contains("}", pat) by {
      assert !StartsWith("}", pat);
      assert !StartsWith("}"[1..], pat);
    }
  }

  /** `"DESC({})".format(v)` for every ORDER BY variable. */
  function Descending(vs: seq<string>): seq<string>
  {
    seq(|vs|, k requires 0 <= k < |vs| => "DESC(" + vs[k] + ")")
  }

  /** The text every query starts with, up to the opening brace of WHERE. */
  const Header := Prefix + Select + "{"

  /** What `graph_to_query` does after the loop: close the WHERE block, fill
      in the SELECT list and append the ORDER BY clause when one is due. */
  function Finish(acc: Query, returnVarValues: bool): (r: Query)
    ensures r.orderBy == acc.orderBy
    ensures r.variables == acc.variables + (if returnVarValues then ["?e1"] else [])
    ensures |r.orderBy| > 0 <==> EndsWith(r.text, " LIMIT 1")
    ensures |r.orderBy| > 0 ==> EndsWith(r.text, " ORDER BY " + Join(" ", Descending(r.orderBy)) + " LIMIT 1")
  {
    var variables := if returnVarValues then acc.variables + ["?e1"] else acc.variables;
    var text := ReplaceAll(acc.text + "}", QueryVariablesSlot, Join(" ", variables));
    ClosingBraceKept(acc.text, QueryVariablesSlot, Join(" ", variables));
    if |acc.orderBy| > 0 then
      var clause := " ORDER BY " + Join(" ", Descending(acc.orderBy));
      LimitEnds(text, clause);
      Query(text + clause + " LIMIT 1", variables, acc.orderBy)
    else
      assert text[|text| - 1] == '}';
      EndsDifferently(text, "}", " LIMIT 1");
      Query(text, variables, acc.orderBy)
  }

  /** A query with an ORDER BY clause ends with the clause and the limit. */
  lemma LimitEnds(text: string, clause: string)
    ensures EndsWith(text + clause + " LIMIT 1", " LIMIT 1")
    ensures EndsWith(text + clause + " LIMIT 1", clause + " LIMIT 1")
  {
    var s := text + clause + " LIMIT 1";
    assert s[|s| - |" LIMIT 1"|..] == " LIMIT 1";
    assert s[|text|..] == clause + " LIMIT 1";
  }

  /** `graph_to_query(g, returnVarValues)`. */
  function Compile(g: Graph, returnVarValues: bool): (r: Result<Query, CompileError>)
    ensures r.Success? ==> (|r.value.orderBy| > 0 <==> EndsWith(r.value.text, " LIMIT 1"))
    ensures r.Success? && |r.value.orderBy| > 0 ==>
      EndsWith(r.value.text, " ORDER BY " + Join(" ", Descending(r.value.orderBy)) + " LIMIT 1")
  {
    match CompileEdges(g, 0, Query(Header, [], []))
    case Failure(err) => Failure(err)
    case Success(acc) => Success(Finish(acc, returnVarValues))
  }

  // ---------------------------------------------------------------------------
  // get_free_variables

  /** The free variables edge `i` contributes (the loop body of `get_free_variables`). */
  function EdgeFreeVariables(e: Edge, i: nat): (r: seq<string>)
    ensures e.kbID.None? && e.shape.None? && e.rightkbID.None? ==>
      r == ["?r" + DecimalString(i) + "d", "?r" + DecimalString(i) + "r", "?r" + DecimalString(i) + "v", "?e2" + DecimalString(i)]
    ensures e.kbID.Some? && e.rightkbID.Some? ==> r == []
    ensures e.kbID.None? && e.shape.Some? ==>
      |r| == (if e.rightkbID.Some? then 1 else 2) && r[0] == "?r" + DecimalString(i) + [ShapeKey(e.shape.value)[0]]
    ensures |r| == (if e.kbID.Some? then 0 else if e.shape.Some? then 1 else 3) + (if e.rightkbID.Some? then 0 else 1)
  {
    RelationVariables(e, i) + (if e.rightkbID.None? then ["?e2" + DecimalString(i)] else [])
  }

  /** Does `v` have the form of a variable owned by a single edge? */
  predicate IsEdgeVariable(v: string)
  {
    (|v| >= 3 && v[..3] == "?e2") || (|v| >= 2 && v[..2] == "?r")
  }

  /** `?e1` is not named like an edge's variable. */
  lemma QuestionVariableNotOwnedByEdge()
    ensures !IsEdgeVariable("?e1")
  {
    assert "?e1"[..3] == "?e1";
    assert "?e1"[..2] == "?e";
  }

  /** The loop of `get_free_variables` from edge `i` on. */
  function FreeVariablesFrom(edges: seq<Edge>, i: nat): (r: seq<string>)
    requires i <= |edges|
    ensures forall k :: 0 <= k < |r| ==> IsEdgeVariable(r[k])
    ensures (forall j :: i <= j < |edges| ==> edges[j].kbID.Some? && edges[j].rightkbID.Some?) ==> r == []
    decreases |edges| - i
  {
    if i == |edges| then []
    else
      EdgeVariablesOwned(edges[i], i);
      EdgeVariablesAppend(EdgeFreeVariables(edges[i], i), FreeVariablesFrom(edges, i + 1));
      EdgeFreeVariables(edges[i], i) + FreeVariablesFrom(edges, i + 1)
  }

  /** Every free variable of an edge is named like an edge's variable. */
  lemma EdgeVariablesOwned(e: Edge, i: nat)
    ensures forall k :: 0 <= k < |EdgeFreeVariables(e, i)| ==> IsEdgeVariable(EdgeFreeVariables(e, i)[k])
  {
    var rs := RelationVariables(e, i);
    forall k | 0 <= k < |rs|
      ensures IsEdgeVariable(rs[k])
    {
      assert rs[k][..2] == "?r";
    }
    if e.rightkbID.None? {
      var v := "?e2" + DecimalString(i);
      assert v[..3] == "?e2";
      EdgeVariablesAppend(rs, [v]);
    }
  }

  lemma EdgeVariablesAppend(a: seq<string>, b: seq<string>)
    requires forall k :: 0 <= k < |a| ==> IsEdgeVariable(a[k])
    requires forall k :: 0 <= k < |b| ==> IsEdgeVariable(b[k])
    ensures forall k :: 0 <= k < |a + b| ==> IsEdgeVariable((a + b)[k])
  {
    forall k | 0 <= k < |a + b|
      ensures IsEdgeVariable((a + b)[k])
    {
      if k >= |a| {
        assert (a + b)[k] == b[k - |a|];
      }
    }
  }

  /** `get_free_variables(g, includeQuestionVariable)`. The question variable
      `?e1` is listed exactly when asked for, and then last. */
  function FreeVariables(g: Graph, includeQuestionVariable: bool): (r: seq<string>)
    ensures "?e1" in r <==> includeQuestionVariable
    ensures includeQuestionVariable ==> r[|r| - 1] == "?e1"
    ensures |g.edgeSet| == 0 ==> r == (if includeQuestionVariable then ["?e1"] else [])
  {
    var vs := FreeVariablesFrom(g.edgeSet, 0);
    QuestionVariableNotOwnedByEdge();
    if includeQuestionVariable then vs + ["?e1"] else vs
  }
}
