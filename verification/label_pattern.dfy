/** The entity-label pattern `graph_to_query` adds for an edge whose object
    has no id: the label template with the object variable numbered and the
    object's label put between the quotes, whatever characters the label
    holds (the text put in is never searched again). */
module LabelFacts {
  import opened Text
  import opened QueryCompiler
  import opened PatternHygiene

  /** The template's quoted label slot. */
  const LabelSlot := " \"%labelright%\"@en"

  /** A word of the label template once edge `n`'s object variable and the
      label text `title` are in place: `?e2` numbered, the quoted slot filled,
      every other word kept. */
  function Filled(p: string, n: string, title: string): string
  {
    if p == " ?e2" then " ?e2" + n
    else if p == LabelSlot then " \"" + title + "\"@en"
    else p
  }

  /** The two substitutions, in source order. */
  function LabelRewrites(n: string, title: string): seq<Rewrite>
  {
    [Replace("?e2", "?e2" + n), Replace("%labelright%", title)]
  }

  /** The label pattern of edge `i` is the template's words, each filled in. */
  lemma LabelPatternWords(i: nat, title: string)
    ensures LabelPattern(i, title)
         == Flatten(seq(|LabelPieces|, k requires 0 <= k < |LabelPieces| => Filled(LabelPieces[k], DecimalString(i), title)))
  {
    var n := DecimalString(i);
    RewriteTwo(LabelTemplate, Replace("?e2", "?e2" + n), Replace("%labelright%", title));
    NumberPlain(i);
    PieceKinds();
    WordsFilled(LabelPieces, n, title);
  }

  /** The two substitutions over separated words of the three kinds fill in
      each word. */
  lemma WordsFilled(ps: seq<string>, n: string, title: string)
    requires Separated(ps) && NoMarker(n)
    requires forall k :: 0 <= k < |ps| ==> ps[k] == " ?e2" || ps[k] == LabelSlot || NoMarker(ps[k])
    ensures RewriteAll(Flatten(ps), LabelRewrites(n, title))
         == Flatten(seq(|ps|, k requires 0 <= k < |ps| => Filled(ps[k], n, title)))
  {
    var ws := LabelRewrites(n, title);
    RewriteAllFlatten(ps, ws);
    forall k | 0 <= k < |ps|
      ensures RewriteAll(ps[k], ws) == Filled(ps[k], n, title)
    {
      PieceRewritten(ps[k], n, title);
    }
    assert RewriteAllEach(ps, ws) == seq(|ps|, k requires 0 <= k < |ps| => Filled(ps[k], n, title));
  }

  /** The label template is a sequence of white-space-led words, each the
      object variable, the quoted slot, or free of placeholders. */
  lemma PieceKinds()
    ensures Separated(LabelPieces)
    ensures forall k :: 0 <= k < |LabelPieces| ==> LabelPieces[k] == " ?e2" || LabelPieces[k] == LabelSlot || NoMarker(LabelPieces[k])
  {
    PlainPieces();
  }

  /** The words of the label template without a placeholder. */
  lemma PlainPieces()
    ensures NoMarker(NL + "{{GRAPH") && NoMarker(NL + "UNION") && NoMarker(NL + "{GRAPH") && NoMarker(NL + "}") && NoMarker(NL)
    ensures NoMarker(Terms) && NoMarker(" {") && NoMarker(" rdfs:label") && NoMarker(" skos:altLabel")
    ensures NoMarker(" ") && NoMarker(" }}")
  {
    assert NoMarker(NL);
    NoMarkerAppend(NL, "{{GRAPH");
    NoMarkerAppend(NL, "UNION");
    NoMarkerAppend(NL, "{GRAPH");
    NoMarkerAppend(NL, "}");
  }

  /** One word of the template through the two substitutions. */
  lemma PieceRewritten(p: string, n: string, title: string)
    requires p == " ?e2" || p == LabelSlot || NoMarker(p)
    requires NoMarker(n)
    ensures RewriteAll(p, LabelRewrites(n, title)) == Filled(p, n, title)
  {
    if p == " ?e2" {
      ObjectNumbered(n, title);
    } else if p == LabelSlot {
      LabelSlotFilled(n, title);
    } else {
      InertTextAll(p, LabelRewrites(n, title));
    }
  }

  /** The object variable gets the edge number. */
  lemma ObjectNumbered(n: string, title: string)
    requires NoMarker(n)
    ensures RewriteAll(" ?e2", LabelRewrites(n, title)) == " ?e2" + n
  {
    var ws := LabelRewrites(n, title);
    assert " " + "?e2" + "" == " ?e2";
    assert LeadMissed('?', 'e', ws[1..]) by {
      assert ws[1..] == [Replace("%labelright%", title)];
    }
    SuffixHit("?e2", "", n, ws);
    assert " " + "?e2" + n + "" == " ?e2" + n;
  }

  /** Two substitutions in a row. */
  lemma RewriteTwo(s: string, u: Rewrite, w: Rewrite)
    ensures RewriteAll(s, [u, w]) == Rewritten(Rewritten(s, u), w)
  {
    var t := Rewritten(Rewritten(s, u), w);
    assert [u, w][1..] == [w];
    assert [w][1..] == [];
    assert RewriteAll(t, []) == t;
    assert RewriteAll(Rewritten(s, u), [w]) == RewriteAll(t, []);
  }

  /** The quoted slot: the object substitution misses it and the label
      substitution fills it. */
  lemma LabelSlotFilled(n: string, title: string)
    ensures RewriteAll(LabelSlot, LabelRewrites(n, title)) == " \"" + title + "\"@en"
  {
    RewriteTwo(LabelSlot, Replace("?e2", "?e2" + n), Replace("%labelright%", title));
    SlotMissed(n);
    SlotFilled(title);
  }

  lemma SlotMissed(n: string)
    ensures ReplaceAll(LabelSlot, "?e2", "?e2" + n) == LabelSlot
  {
    AbsentLead(LabelSlot, "?e2");
  }

  lemma SlotFilled(title: string)
    ensures ReplaceAll(LabelSlot, "%labelright%", title) == " \"" + title + "\"@en"
  {
    var a, pat, z := " \"", "%labelright%", "\"@en";
    assert a + (pat + z) == LabelSlot;
    QuotedSlot(a, pat, z, title);
  }

  /** Text without the pattern's first character and ending outside the
      pattern, the pattern, then text without its first character again. */
  lemma QuotedSlot(a: string, pat: string, z: string, rep: string)
    requires |a| > 0 && |pat| > 0 && a[|a| - 1] !in pat
    requires forall k :: 0 <= k < |a| ==> a[k] != pat[0]
    requires forall k :: 0 <= k < |z| ==> z[k] != pat[0]
    ensures ReplaceAll(a + (pat + z), pat, rep) == a + (rep + z)
  {
    ReplaceAllAppend(a, pat + z, pat, rep);
    AbsentLead(a, pat);
    MatchFront(pat, z, pat, rep);
    assert pat[|pat|..] + z == z;
    AbsentLead(z, pat);
  }
}
