/** Properties of `graph_to_query` as a whole: which graphs it rejects, and
    that its SELECT and ORDER BY lists are the ones `get_free_variables` and
    the argmax edges determine. */
module QueryProperties {
  import opened Wrappers
  import opened Text
  import opened QueryCompiler
  import opened Loops
  import opened ReplacementTemplate

  /** Compiling edge `j` raises: its relation id is refused as a replacement
      template, or it needs a label from the tokens and cannot build it. */
  predicate EdgeFails(g: Graph, j: nat)
    requires j < |g.edgeSet|
  {
    TemplateFails(g.edgeSet[j]) || (g.edgeSet[j].rightkbID.None? && RightLabel(g.tokens, g.edgeSet[j].right, j).Failure?)
  }

  /** The exception of a failing edge: the template's, which line 84 raises
      before the label is built, else the label's. */
  function EdgeError(g: Graph, j: nat): (r: CompileError)
    requires j < |g.edgeSet| && EdgeFails(g, j)
    ensures r.edge == j
  {
    if TemplateFails(g.edgeSet[j]) then BadTemplate(j, Parse("e:" + g.edgeSet[j].kbID.value).error.at)
    else RightLabel(g.tokens, g.edgeSet[j].right, j).error
  }

  /** The text edge `j` appends to the query when it compiles. */
  function TextOf(g: Graph, j: nat): string
    requires j < |g.edgeSet|
  {
    match EdgeText(g.tokens, g.edgeSet[j], j)
    case Success(t) => t
    case Failure(_) => []
  }

  /** The texts of the edges from `i` on, in edge order. */
  function TextsFrom(g: Graph, i: nat): string
    requires i <= |g.edgeSet|
    decreases |g.edgeSet| - i
  {
    if i == |g.edgeSet| then [] else TextOf(g, i) + TextsFrom(g, i + 1)
  }

  /** The ORDER BY variables of the edges from `i` on: `?n{j}` for each edge
      `j` that carries `argmax`, in edge order, whatever the edge's type. */
  function ArgmaxVariables(edges: seq<Edge>, i: nat): (r: seq<string>)
    requires i <= |edges|
    ensures |r| <= |edges| - i
    ensures forall v :: v in r <==> exists j :: i <= j < |edges| && edges[j].argmax && v == "?n" + DecimalString(j)
    decreases |edges| - i
  {
    if i == |edges| then []
    else (if edges[i].argmax then ["?n" + DecimalString(i)] else []) + ArgmaxVariables(edges, i + 1)
  }

  /** The ORDER BY list is empty exactly when no edge carries `argmax`. */
  lemma {:induction false} ArgmaxVariablesEmpty(edges: seq<Edge>, i: nat)
    requires i <= |edges|
    ensures ArgmaxVariables(edges, i) == [] <==> forall j :: i <= j < |edges| ==> !edges[j].argmax
  {
    forall j | i <= j < |edges| && edges[j].argmax
      ensures ArgmaxVariables(edges, i) != []
    {
      assert "?n" + DecimalString(j) in ArgmaxVariables(edges, i);
    }
    if ArgmaxVariables(edges, i) != [] {
      assert ArgmaxVariables(edges, i)[0] in ArgmaxVariables(edges, i);
    }
  }

  /** The edges that cannot build their label, by edge number. */
  function EdgeFailsAt(g: Graph): nat -> bool
  {
    (j: nat) => j < |g.edgeSet| && EdgeFails(g, j)
  }

  /** What one turn of the loop does, whatever the values built so far: edge
      `k` raises exactly when it fails, with its exception; otherwise it
      appends its text to the query text and adds its free and ORDER BY
      variables to the two lists. */
  lemma EdgeTurnEffect(g: Graph)
    ensures forall k: nat, s: Query :: k < |g.edgeSet| ==> (EdgeTurn(g)(k, s).Failure? <==> EdgeFailsAt(g)(k))
    ensures forall k: nat, s: Query :: k < |g.edgeSet| && EdgeTurn(g)(k, s).Failure? ==>
      EdgeFails(g, k) && EdgeTurn(g)(k, s).error == EdgeError(g, k)
    ensures forall k: nat, s: Query :: k < |g.edgeSet| && EdgeTurn(g)(k, s).Success? ==>
      EdgeTurn(g)(k, s).value.text == s.text + TextOf(g, k)
      && EdgeTurn(g)(k, s).value.variables == s.variables + EdgeFreeVariables(g.edgeSet[k], k)
      && EdgeTurn(g)(k, s).value.orderBy == s.orderBy + (if g.edgeSet[k].argmax then ["?n" + DecimalString(k)] else [])
  {
  }

  /** The loop over the edges from `i` on fails exactly when some edge fails. */
  lemma CompileEdgesFails(g: Graph, i: nat, acc: Query)
    requires i <= |g.edgeSet|
    ensures CompileEdges(g, i, acc).Failure? <==> FirstEdgeFailure(g, i).Some?
  {
    if CompileEdges(g, i, acc).Failure? {
      CompileEdgesFirstFailure(g, i, acc);
    }
    if FirstEdgeFailure(g, i).Some? {
      EdgeTurnEffect(g);
      RunStops(EdgeTurn(g), |g.edgeSet|, i, acc, EdgeFailsAt(g), FirstEdgeFailure(g, i).value);
    }
  }

  /** The first edge from `i` on that fails, if any. */
  function FirstEdgeFailure(g: Graph, i: nat): (r: Option<nat>)
    requires i <= |g.edgeSet|
    ensures r.Some? ==> i <= r.value < |g.edgeSet| && EdgeFails(g, r.value)
    ensures r.Some? ==> forall k :: i <= k < r.value ==> !EdgeFails(g, k)
    ensures r.None? ==> forall k :: i <= k < |g.edgeSet| ==> !EdgeFails(g, k)
    decreases |g.edgeSet| - i
  {
    if i == |g.edgeSet| then None
    else if EdgeFails(g, i) then Some(i)
    else FirstEdgeFailure(g, i + 1)
  }

  /** The first failing edge is the one that fails with none failing before it. */
  lemma FirstEdgeFailureIs(g: Graph, i: nat, j: nat)
    requires i <= j < |g.edgeSet| && EdgeFails(g, j)
    requires forall k :: i <= k < j ==> !EdgeFails(g, k)
    ensures FirstEdgeFailure(g, i) == Some(j)
  {
  }

  /** When the loop fails, it reports the first edge from `i` on that fails,
      with that edge's exception. */
  lemma CompileEdgesFirstFailure(g: Graph, i: nat, acc: Query)
    requires i <= |g.edgeSet|
    requires CompileEdges(g, i, acc).Failure?
    ensures FirstEdgeFailure(g, i) == Some(CompileEdges(g, i, acc).error.edge)
    ensures CompileEdges(g, i, acc).error.edge < |g.edgeSet|
    ensures EdgeFails(g, CompileEdges(g, i, acc).error.edge)
    ensures CompileEdges(g, i, acc).error == EdgeError(g, CompileEdges(g, i, acc).error.edge)
  {
    EdgeTurnEffect(g);
    var j, s := RunFailure(EdgeTurn(g), |g.edgeSet|, i, acc, EdgeFailsAt(g));
    forall k | i <= k < j
      ensures !EdgeFails(g, k)
    {
      assert !EdgeFailsAt(g)(k);
    }
    FirstEdgeFailureIs(g, i, j);
  }

  /** When the loop over the edges from `i` on succeeds, it has appended
      their texts to the query text in edge order, their free variables to
      the SELECT list and their argmax variables to the ORDER BY list. */
  lemma CompileEdgesLists(g: Graph, i: nat, acc: Query)
    requires i <= |g.edgeSet|
    ensures CompileEdges(g, i, acc).Success? ==> CompileEdges(g, i, acc).value.text == acc.text + TextsFrom(g, i)
    ensures CompileEdges(g, i, acc).Success? ==>
      CompileEdges(g, i, acc).value.variables == acc.variables + FreeVariablesFrom(g.edgeSet, i)
    ensures CompileEdges(g, i, acc).Success? ==>
      CompileEdges(g, i, acc).value.orderBy == acc.orderBy + ArgmaxVariables(g.edgeSet, i)
  {
    ListsKept(g, i, acc);
    RunKeeps(EdgeTurn(g), |g.edgeSet|, i, acc, ListsSoFar(g, i, acc));
    assert acc.variables + FreeVariablesFrom(g.edgeSet, i) + [] == acc.variables + FreeVariablesFrom(g.edgeSet, i);
    assert acc.text + TextsFrom(g, i) + [] == acc.text + TextsFrom(g, i);
  }

  /** The loop invariant from edge `i` on, started with `acc`: after the
      edges before `k`, the text and each list followed by what the remaining
      edges will add is the final text or list. */
  function ListsSoFar(g: Graph, i: nat, acc: Query): (nat, Query) -> bool
    requires i <= |g.edgeSet|
  {
    (k: nat, s: Query) => k <= |g.edgeSet|
      && s.text + TextsFrom(g, k) == acc.text + TextsFrom(g, i)
      && s.variables + FreeVariablesFrom(g.edgeSet, k) == acc.variables + FreeVariablesFrom(g.edgeSet, i)
      && s.orderBy + ArgmaxVariables(g.edgeSet, k) == acc.orderBy + ArgmaxVariables(g.edgeSet, i)
  }

  /** Every turn of the loop that goes through keeps the invariant. */
  lemma ListsKept(g: Graph, i: nat, acc: Query)
    requires i <= |g.edgeSet|
    ensures forall k: nat, s: Query :: i <= k < |g.edgeSet| && ListsSoFar(g, i, acc)(k, s) && EdgeTurn(g)(k, s).Success? ==>
      ListsSoFar(g, i, acc)(k + 1, EdgeTurn(g)(k, s).value)
  {
    EdgeTurnEffect(g);
    forall k: nat, s: Query | i <= k < |g.edgeSet| && ListsSoFar(g, i, acc)(k, s) && EdgeTurn(g)(k, s).Success?
      ensures ListsSoFar(g, i, acc)(k + 1, EdgeTurn(g)(k, s).value)
    {
      FreeVariablesStep(s.variables, g.edgeSet, k);
      ArgmaxVariablesStep(s.orderBy, g.edgeSet, k);
      AppendAssociative(s.text, TextOf(g, k), TextsFrom(g, k + 1));
    }
  }

  lemma FreeVariablesStep(vs: seq<string>, edges: seq<Edge>, i: nat)
    requires i < |edges|
    ensures vs + EdgeFreeVariables(edges[i], i) + FreeVariablesFrom(edges, i + 1) == vs + FreeVariablesFrom(edges, i)
  {
    AppendAssociative(vs, EdgeFreeVariables(edges[i], i), FreeVariablesFrom(edges, i + 1));
  }

  /** Edge `i`'s own ORDER BY variable comes before those of the later edges. */
  lemma ArgmaxVariablesStep(vs: seq<string>, edges: seq<Edge>, i: nat)
    requires i < |edges|
    ensures vs + (if edges[i].argmax then ["?n" + DecimalString(i)] else []) + ArgmaxVariables(edges, i + 1)
         == vs + ArgmaxVariables(edges, i)
  {
    AppendAssociative(vs, if edges[i].argmax then ["?n" + DecimalString(i)] else [], ArgmaxVariables(edges, i + 1));
  }

  /** `graph_to_query` raises exactly when some edge has a relation id that
      is a bad replacement template, or has no `rightkbID` and no `right`
      key, or positions but no `tokens`, or a position outside the tokens;
      the exception is the one of the first such edge. */
  lemma CompileFails(g: Graph, returnVarValues: bool)
    ensures Compile(g, returnVarValues).Failure? <==> exists j :: 0 <= j < |g.edgeSet| && EdgeFails(g, j)
    ensures Compile(g, returnVarValues).Failure? ==>
      var j := Compile(g, returnVarValues).error.edge;
      j < |g.edgeSet| && EdgeFails(g, j)
      && Compile(g, returnVarValues).error == EdgeError(g, j)
      && forall k :: 0 <= k < j ==> !EdgeFails(g, k)
  {
    CompileEdgesFails(g, 0, Query(Header, [], []));
    if Compile(g, returnVarValues).Failure? {
      CompileEdgesFirstFailure(g, 0, Query(Header, [], []));
    }
  }

  /** A relation id such as `P\1` makes `graph_to_query` raise even when the
      edge has everything else it needs: `re.sub` reads `\1` as a reference
      to a group the pattern does not have. */
  lemma GroupReferenceInRelationId(g: Graph, returnVarValues: bool)
    requires |g.edgeSet| > 0 && g.edgeSet[0].kbID == Some("P\\1")
    ensures Compile(g, returnVarValues) == Failure(BadTemplate(0, 4))
  {
    NumberedGroupRaises();
    assert "e:" + "P\\1" == "e:P\\1";
    assert EdgeFails(g, 0);
    CompileFails(g, returnVarValues);
  }

  /** The SELECT list of a compiled query is `get_free_variables` of the same
      graph with the same flag. */
  lemma SelectListIsFreeVariables(g: Graph, returnVarValues: bool)
    requires Compile(g, returnVarValues).Success?
    ensures Compile(g, returnVarValues).value.variables == FreeVariables(g, returnVarValues)
  {
    var start := Query(Header, [], []);
    var acc := CompileEdges(g, 0, start).value;
    assert Compile(g, returnVarValues) == Success(Finish(acc, returnVarValues));
    CompileEdgesLists(g, 0, start);
    assert acc.variables == FreeVariablesFrom(g.edgeSet, 0);
  }

  /** The ORDER BY clause is appended exactly when some edge carries `argmax`,
      with one `DESC(?n{j})` per such edge `j`, in edge order. */
  lemma OrderByMatchesArgmax(g: Graph, returnVarValues: bool)
    requires Compile(g, returnVarValues).Success?
    ensures Compile(g, returnVarValues).value.orderBy == ArgmaxVariables(g.edgeSet, 0)
    ensures EndsWith(Compile(g, returnVarValues).value.text, " LIMIT 1") <==> exists j :: 0 <= j < |g.edgeSet| && g.edgeSet[j].argmax
    ensures (exists j :: 0 <= j < |g.edgeSet| && g.edgeSet[j].argmax) ==>
      EndsWith(Compile(g, returnVarValues).value.text,
        " ORDER BY " + Join(" ", Descending(ArgmaxVariables(g.edgeSet, 0))) + " LIMIT 1")
  {
    CompileEdgesLists(g, 0, Query(Header, [], []));
    ArgmaxVariablesEmpty(g.edgeSet, 0);
  }

  /** The text of a compiled query: the header, the edges' texts in edge
      order and the closing brace, with the SELECT list of
      `get_free_variables` put in its slot, then the ORDER BY clause and the
      limit when some edge carries `argmax`. */
  lemma CompiledText(g: Graph, returnVarValues: bool)
    requires Compile(g, returnVarValues).Success?
    ensures Compile(g, returnVarValues).value.text
      == ReplaceAll(Header + TextsFrom(g, 0) + "}", QueryVariablesSlot, Join(" ", FreeVariables(g, returnVarValues)))
         + (if ArgmaxVariables(g.edgeSet, 0) == [] then []
            else " ORDER BY " + Join(" ", Descending(ArgmaxVariables(g.edgeSet, 0))) + " LIMIT 1")
  {
    var acc := CompileEdges(g, 0, Query(Header, [], [])).value;
    assert Compile(g, returnVarValues).value == Finish(acc, returnVarValues);
    CompileEdgesLists(g, 0, Query(Header, [], []));
    assert acc.orderBy == ArgmaxVariables(g.edgeSet, 0);
    SelectListIsFreeVariables(g, returnVarValues);
    FinishText(acc, returnVarValues);
  }

  /** The text `Finish` builds from the text of the WHERE block. */
  lemma FinishText(acc: Query, returnVarValues: bool)
    ensures Finish(acc, returnVarValues).text
      == ReplaceAll(acc.text + "}", QueryVariablesSlot, Join(" ", Finish(acc, returnVarValues).variables))
         + (if acc.orderBy == [] then [] else " ORDER BY " + Join(" ", Descending(acc.orderBy)) + " LIMIT 1")
  {
  }

  /** A graph without edges always compiles, to the bare header with the
      SELECT list `?e1` or nothing, and without ORDER BY. */
  lemma EmptyGraph(g: Graph, returnVarValues: bool)
    requires g.edgeSet == []
    ensures Compile(g, returnVarValues).Success?
    ensures Compile(g, returnVarValues).value.variables == (if returnVarValues then ["?e1"] else [])
    ensures Compile(g, returnVarValues).value.orderBy == []
    ensures Compile(g, returnVarValues).value.text
      == ReplaceAll(Header + "}", QueryVariablesSlot, if returnVarValues then "?e1" else "")
  {
  }
}
