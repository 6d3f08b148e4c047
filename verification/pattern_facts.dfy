/** What the word-by-word form of a relation pattern implies: the restriction
    slot never survives, a relation given by id leaves no relation variable,
    every variable the SELECT list names for the edge occurs in its pattern,
    and the time restriction's variables occur exactly when the template has a
    restriction slot to put them in. */
module PatternFacts {
  import opened Text
  import opened QueryCompiler
  import opened PatternHygiene

  // ---------------------------------------------------------------------------
  // Variables that cannot occur

  /** Every `?` of `s` is followed, inside `s`, by a character other than `c`:
      no variable of `s` starts with `c`. */
  predicate NoVariable(s: string, c: char)
  {
    forall k :: 0 <= k < |s| && s[k] == '?' ==> k + 1 < |s| && s[k + 1] != c
  }

  /** No `%`, and no variable starting with `c`. */
  predicate Clean(s: string, c: char)
  {
    (forall k :: 0 <= k < |s| ==> s[k] != '%') && NoVariable(s, c)
  }

  lemma PlainClean(x: string, c: char)
    requires NoMarker(x)
    ensures Clean(x, c)
  {
  }

  /** A placeholder word ` v x` whose variable does not start with `c`. */
  lemma LedClean(v: string, x: string, c: char)
    requires |v| >= 2 && v[0] == '?' && v[1] != c && NoMarker(v[1..]) && NoMarker(x)
    ensures Clean(" " + v + x, c)
  {
    var w := " " + v + x;
    forall k | 0 <= k < |w|
      ensures w[k] != '%' && (w[k] == '?' ==> k + 1 < |w| && w[k + 1] != c)
    {
      if k == 1 {
        assert w[k + 1] == v[1];
      } else if 2 <= k < |v| + 1 {
        assert w[k] == v[1..][k - 2];
      } else if k >= |v| + 1 {
        assert w[k] == x[k - |v| - 1];
      }
    }
  }

  lemma CleanAppend(a: string, b: string, c: char)
    requires Clean(a, c) && Clean(b, c)
    ensures Clean(a + b, c)
  {
    var s := a + b;
    forall k | 0 <= k < |s|
      ensures s[k] != '%' && (s[k] == '?' ==> k + 1 < |s| && s[k + 1] != c)
    {
      if k >= |a| {
        assert s[k] == b[k - |a|];
        if k + 1 < |s| {
          assert s[k + 1] == b[k + 1 - |a|];
        }
      } else {
        assert s[k] == a[k];
        if k + 1 < |a| {
          assert s[k + 1] == a[k + 1];
        }
      }
    }
  }

  lemma {:induction false} FlattenClean(ws: seq<string>, c: char)
    requires forall k :: 0 <= k < |ws| ==> Clean(ws[k], c)
    ensures Clean(Flatten(ws), c)
    decreases |ws|
  {
    if |ws| > 0 {
      FlattenClean(ws[1..], c);
      CleanAppend(ws[0], Flatten(ws[1..]), c);
    }
  }

  /** The conditions under which slot `t`'s instance holds no variable starting
      with `c`: `c` is none of the letters the instance always uses, the
      relation word is an id when `c` is `r`, and the time restriction is not
      filled in when `c` is `a` or `n`. */
  predicate SlotAvoids(e: Edge, t: Slot, c: char)
  {
    c != 'e' && c != 'p' && c != 'm' &&
    (t.Relation? && e.kbID.None? ==> c != 'r') &&
    (t.Restriction? && e.argmax ==> c != 'a' && c != 'n')
  }

  lemma ObjectNameClean(e: Edge, n: string, x: string, c: char)
    requires NoMarker(n) && NoMarker(x) && IdsPlain(e) && c != 'e'
    ensures Clean(" " + ObjectName(e, n) + x, c)
  {
    if e.rightkbID.Some? {
      NoMarkerAppend("e:", e.rightkbID.value);
      NoMarkerAppend(" ", ObjectName(e, n));
      NoMarkerAppend(" " + ObjectName(e, n), x);
      PlainClean(" " + ObjectName(e, n) + x, c);
    } else {
      NoMarkerAppend("e2", n);
      assert ("?e2" + n)[1..] == "e2" + n;
      LedClean("?e2" + n, x, c);
    }
  }

  lemma ObjectWordsClean(e: Edge, n: string, x: string, c: char)
    requires NoMarker(n) && NoMarker(x) && IdsPlain(e) && c != 'e'
    ensures Clean(Flatten(ObjectWords(e, n, x)), c)
  {
    if e.hopUp {
      NoMarkerAppend("]]", x);
      ObjectNameClean(e, n, "]]" + x, c);
      PlainLiterals();
      PlainClean(" [", c);
      BlankNumberedClean(n, c);
      HopUpPathPlain();
      NoMarkerAppend(" ", HopUpPath);
      PlainClean(" " + HopUpPath, c);
      FlattenClean(ObjectWords(e, n, x), c);
    } else {
      ObjectNameClean(e, n, x, c);
      Flatten1(" " + ObjectName(e, n) + x);
    }
  }

  /** `_:s` with its number: no `?` and no `%`. */
  lemma BlankNumberedClean(n: string, c: char)
    requires NoMarker(n)
    ensures Clean(" " + "_:s" + n, c)
  {
    var w := " " + "_:s" + n;
    forall k | 0 <= k < |w|
      ensures w[k] != '%' && w[k] != '?'
    {
      if k >= 4 {
        assert w[k] == n[k - 4];
      }
    }
  }

  lemma RestrictionWordsClean(e: Edge, n: string, c: char)
    requires NoMarker(n) && c != 'm' && (e.argmax ==> c != 'a' && c != 'n')
    ensures Clean(Flatten(RestrictionWords(e, n)), c)
  {
    if e.argmax {
      LedClean("?m", n, c);
      LedClean("?a", n, c);
      PlainLiterals();
      PlainClean(" [base:time", c);
      NoMarkerAppend(n, "].");
      LedClean("?n", n + "].", c);
      AppendAssociative(" " + "?n", n, "].");
      FlattenClean(RestrictionWords(e, n), c);
    } else {
      PlainClean(" ", c);
      Flatten1(" ");
    }
  }

  lemma RelationInstanceClean(e: Edge, n: string, l: char, c: char)
    requires NoMarker(n) && IdsPlain(e) && l in "drv" && (e.kbID.None? ==> c != 'r')
    ensures Clean(RelationInstance(e, n, l), c)
  {
    if e.kbID.Some? {
      NoMarkerAppend("e:", e.kbID.value);
      NoMarkerAppend(" ", "e:" + e.kbID.value);
      PlainClean(" " + ("e:" + e.kbID.value), c);
    } else {
      var x := n + [l];
      assert NoMarker([l]);
      NoMarkerAppend(n, [l]);
      LedClean("?r", x, c);
      AppendAssociative(" " + "?r", n, [l]);
    }
  }

  lemma InstanceClean(e: Edge, n: string, t: Slot, c: char)
    requires NoMarker(n) && IdsPlain(e) && SlotOk(t) && SlotAvoids(e, t, c)
    ensures Clean(Flatten(Instance(e, n, t)), c)
  {
    match t
    case Plain(x) =>
      PlainClean(x, c);
      Flatten1(x);
    case Subject(post) =>
      LedClean("?e1", post, c);
      Flatten1(" " + "?e1" + post);
    case Object(post) =>
      ObjectWordsClean(e, n, post, c);
    case Name(v) =>
      LedClean(v, n, c);
      Flatten1(" " + v + n);
    case Relation(l) =>
      RelationInstanceClean(e, n, l, c);
      Flatten1(RelationInstance(e, n, l));
    case Restriction =>
      RestrictionWordsClean(e, n, c);
  }

  lemma {:induction false} ExpandClean(e: Edge, n: string, ts: seq<Slot>, c: char)
    requires NoMarker(n) && IdsPlain(e)
    requires forall k :: 0 <= k < |ts| ==> SlotOk(ts[k]) && SlotAvoids(e, ts[k], c)
    ensures Clean(Flatten(Expand(e, n, ts)), c)
    decreases |ts|
  {
    if |ts| > 0 {
      ExpandClean(e, n, ts[1..], c);
      InstanceClean(e, n, ts[0], c);
      FlattenAppend(Instance(e, n, ts[0]), Expand(e, n, ts[1..]));
      CleanAppend(Flatten(Instance(e, n, ts[0])), Flatten(Expand(e, n, ts[1..])), c);
    }
  }

  /** The pattern holds no `%` and no variable starting with `c`, when every
      slot of the edge's template avoids `c`. */
  lemma PatternClean(e: Edge, i: nat, c: char)
    requires IdsPlain(e)
    requires forall k :: 0 <= k < |EdgeSlots(e)| ==> SlotAvoids(e, EdgeSlots(e)[k], c)
    ensures Clean(RelationPattern(e, i), c)
  {
    NumberPlain(i);
    RelationPatternWords(e, i);
    EdgeTexts(e);
    ExpandClean(e, DecimalString(i), EdgeSlots(e), c);
  }

  /** The union template has no restriction slot. */
  lemma UnionUnrestricted()
    ensures forall k :: 0 <= k < |UnionSlots| ==> !UnionSlots[k].Restriction?
  {
    var a, b, c := UnionDirectSlots, UnionReverseSlots, UnionVStructureSlots;
    assert forall k :: 0 <= k < |a| ==> !a[k].Restriction?;
    assert forall k :: 0 <= k < |b| ==> !b[k].Restriction?;
    assert forall k :: 0 <= k < |c| ==> !c[k].Restriction?;
    NoRestrictionAppend(a, b);
    NoRestrictionAppend(a + b, c);
  }

  lemma NoRestrictionAppend(a: seq<Slot>, b: seq<Slot>)
    requires forall k :: 0 <= k < |a| ==> !a[k].Restriction?
    requires forall k :: 0 <= k < |b| ==> !b[k].Restriction?
    ensures forall k :: 0 <= k < |a + b| ==> !(a + b)[k].Restriction?
  {
    forall k | 0 <= k < |a + b|
      ensures !(a + b)[k].Restriction?
    {
      if k >= |a| {
        assert (a + b)[k] == b[k - |a|];
      }
    }
  }

  // ---------------------------------------------------------------------------
  // The hygiene properties

  /** `%restriction%` never survives: the pattern holds no `%` at all, and no
      `?` ends it or is left without a variable name after it. */
  lemma RestrictionGone(e: Edge, i: nat)
    requires IdsPlain(e)
    ensures forall k :: 0 <= k < |RelationPattern(e, i)| ==> RelationPattern(e, i)[k] != '%'
    ensures !Contains(RelationPattern(e, i), "%restriction%")
  {
    PatternClean(e, i, 'x');
    AbsentLead(RelationPattern(e, i), "%restriction%");
  }

  /** With a relation id, every `?rd`, `?rr` and `?rv` has been replaced: no
      variable of the pattern starts with `r`. */
  lemma RelationIdWritten(e: Edge, i: nat)
    requires IdsPlain(e) && e.kbID.Some?
    ensures NoVariable(RelationPattern(e, i), 'r')
    ensures !Contains(RelationPattern(e, i), "?r")
  {
    PatternClean(e, i, 'r');
    NoVariableNotContains(RelationPattern(e, i), 'r');
  }

  lemma {:induction false} NoVariableNotContains(s: string, c: char)
    requires NoVariable(s, c)
    ensures !Contains(s, ['?', c])
    decreases |s|
  {
    if |s| > 0 {
      assert !StartsWith(s, ['?', c]) by {
        if 2 <= |s| && s[0] == '?' {
          assert s[..2][1] == s[1];
        }
      }
      assert NoVariable(s[1..], c) by {
        forall k | 0 <= k < |s[1..]| && s[1..][k] == '?'
          ensures k + 1 < |s[1..]| && s[1..][k + 1] != c
        {
          assert s[k + 1] == '?';
        }
      }
      NoVariableNotContains(s[1..], c);
    }
  }

  /** Without a shape the union template is used, which has no restriction
      slot: the pattern then holds neither `?a` nor `?n`, although the edge
      still adds its `?n` variable to ORDER BY. */
  lemma UnionHasNoTime(e: Edge, i: nat)
    requires IdsPlain(e) && e.shape.None?
    ensures !Contains(RelationPattern(e, i), "?n") && !Contains(RelationPattern(e, i), "?a")
  {
    UnionUnrestricted();
    PatternClean(e, i, 'n');
    NoVariableNotContains(RelationPattern(e, i), 'n');
    PatternClean(e, i, 'a');
    NoVariableNotContains(RelationPattern(e, i), 'a');
  }

  // ---------------------------------------------------------------------------
  // Variables that do occur

  /** `pat` occurs in `s` at position `k`. */
  predicate OccursAt(s: string, pat: string, k: int)
  {
    0 <= k && k + |pat| <= |s| && s[k..k + |pat|] == pat
  }

  lemma {:induction false} ContainsAt(s: string, pat: string, k: int)
    requires OccursAt(s, pat, k)
    ensures Contains(s, pat)
    decreases k
  {
    if k > 0 && !StartsWith(s, pat) {
      assert s[1..][k - 1..k - 1 + |pat|] == s[k..k + |pat|];
      ContainsAt(s[1..], pat, k - 1);
    }
  }

  /** Whatever contains `p + q` contains `p`. */
  lemma {:induction false} ContainsPrefix(s: string, p: string, q: string)
    requires Contains(s, p + q)
    ensures Contains(s, p)
    decreases |s|
  {
    if StartsWith(s, p + q) {
      assert s[..|p|] == (p + q)[..|p|];
    } else {
      ContainsPrefix(s[1..], p, q);
    }
  }

  lemma OccursAfter(a: string, s: string, pat: string, k: int)
    requires OccursAt(s, pat, k)
    ensures OccursAt(a + s, pat, |a| + k)
  {
    assert (a + s)[|a| + k..|a| + k + |pat|] == s[k..k + |pat|];
  }

  lemma OccursBefore(s: string, b: string, pat: string, k: int)
    requires OccursAt(s, pat, k)
    ensures OccursAt(s + b, pat, k)
  {
    assert (s + b)[k..k + |pat|] == s[k..k + |pat|];
  }

  /** A word ` u x` holds `u` right after its space. */
  lemma WordOccurs(u: string, x: string)
    ensures OccursAt(" " + u + x, u, 1)
  {
    assert (" " + u + x)[1..1 + |u|] == u;
  }

  lemma {:induction false} ExpandAppend(e: Edge, n: string, a: seq<Slot>, b: seq<Slot>)
    ensures Expand(e, n, a + b) == Expand(e, n, a) + Expand(e, n, b)
    decreases |a|
  {
    if |a| == 0 {
      assert a + b == b;
    } else {
      assert (a + b)[1..] == a[1..] + b;
      ExpandAppend(e, n, a[1..], b);
    }
  }

  /** What occurs in the instance of one slot occurs in the expansion. */
  lemma SlotOccurs(e: Edge, n: string, ts: seq<Slot>, k: nat, pat: string, j: int)
    requires k < |ts| && OccursAt(Flatten(Instance(e, n, ts[k])), pat, j)
    ensures Contains(Flatten(Expand(e, n, ts)), pat)
  {
    var before, after := ts[..k], ts[k + 1..];
    assert ts == before + ([ts[k]] + after);
    ExpandAppend(e, n, before, [ts[k]] + after);
    ExpandAppend(e, n, [ts[k]], after);
    assert Expand(e, n, [ts[k]]) == Instance(e, n, ts[k]) + Expand(e, n, []);
    assert Instance(e, n, ts[k]) + [] == Instance(e, n, ts[k]);
    var a, w, b := Expand(e, n, before), Instance(e, n, ts[k]), Expand(e, n, after);
    FlattenAppend(a, w + b);
    FlattenAppend(w, b);
    OccursBefore(Flatten(w), Flatten(b), pat, j);
    OccursAfter(Flatten(a), Flatten(w) + Flatten(b), pat, j);
    ContainsAt(Flatten(Expand(e, n, ts)), pat, |Flatten(a)| + j);
  }

  /** The pattern contains what the instance of one of its slots contains. */
  lemma PatternOccurs(e: Edge, i: nat, k: nat, pat: string, j: int)
    requires IdsPlain(e) && k < |EdgeSlots(e)|
    requires OccursAt(Flatten(Instance(e, DecimalString(i), EdgeSlots(e)[k])), pat, j)
    ensures Contains(RelationPattern(e, i), pat)
  {
    RelationPatternWords(e, i);
    SlotOccurs(e, DecimalString(i), EdgeSlots(e), k, pat, j);
  }

  lemma RelationVariableInWord(e: Edge, n: string, l: char)
    requires e.kbID.None?
    ensures OccursAt(Flatten(Instance(e, n, Relation(l))), "?r" + n + [l], 1)
  {
    Flatten1(RelationInstance(e, n, l));
    WordOccurs("?r" + n + [l], "");
    assert " " + ("?r" + n + [l]) + "" == " " + "?r" + n + [l];
  }

  lemma ObjectVariableInWords(e: Edge, n: string, x: string)
    requires e.rightkbID.None?
    ensures exists j :: OccursAt(Flatten(ObjectWords(e, n, x)), "?e2" + n, j)
  {
    var u := "?e2" + n;
    if e.hopUp {
      var a := " [" + (" " + "_:s" + n) + " [" + (" " + HopUpPath);
      Flatten5(" [", " " + "_:s" + n, " [", " " + HopUpPath, " " + u + ("]]" + x));
      assert ObjectName(e, n) == u;
      WordOccurs(u, "]]" + x);
      OccursAfter(a, " " + u + ("]]" + x), u, 1);
      assert OccursAt(Flatten(ObjectWords(e, n, x)), u, |a| + 1);
    } else {
      assert ObjectWords(e, n, x) == [" " + u + x];
      Flatten1(" " + u + x);
      WordOccurs(u, x);
      assert OccursAt(Flatten(ObjectWords(e, n, x)), u, 1);
    }
  }

  lemma TimeVariablesInWords(e: Edge, n: string)
    requires e.argmax
    ensures OccursAt(Flatten(RestrictionWords(e, n)), "?a" + n, |" " + "?m" + n| + 1)
    ensures exists j :: OccursAt(Flatten(RestrictionWords(e, n)), "?n" + n, j)
  {
    var a, b, c, d := " " + "?m" + n, " " + "?a" + n, " [base:time", " " + "?n" + n + "].";
    Flatten4(a, b, c, d);
    WordOccurs("?a" + n, "");
    assert " " + ("?a" + n) + "" == b;
    OccursAfter(a, b, "?a" + n, 1);
    OccursBefore(a + b, c, "?a" + n, |a| + 1);
    OccursBefore(a + b + c, d, "?a" + n, |a| + 1);
    WordOccurs("?n" + n, "].");
    AppendAssociative(" ", "?n", n);
    OccursAfter(a + b + c, d, "?n" + n, 1);
  }

  /** The slot positions of the relation word, the object and the restriction
      in each template. */
  lemma SlotPositions()
    ensures DirectSlots[8] == Relation('d') && DirectSlots[9] == Object("") && DirectSlots[11] == Restriction
    ensures ReverseSlots[8] == Relation('r') && ReverseSlots[3] == Object("") && ReverseSlots[11] == Restriction
    ensures VStructureSlots[8] == Relation('v') && VStructureSlots[5] == Object("") && VStructureSlots[11] == Restriction
    ensures UnionSlots[9] == Relation('d') && UnionSlots[22] == Relation('r') && UnionSlots[34] == Relation('v')
    ensures UnionSlots[10] == Object("")
  {
    var a, b, c := UnionDirectSlots, UnionReverseSlots, UnionVStructureSlots;
    assert (a + b + c)[22] == b[9];
    assert (a + b + c)[34] == c[8];
  }

  /** The object variable occurs in the pattern when the object has no id. */
  lemma ObjectVariableOccurs(e: Edge, i: nat)
    requires IdsPlain(e) && e.rightkbID.None?
    ensures Contains(RelationPattern(e, i), "?e2" + DecimalString(i))
  {
    var n := DecimalString(i);
    SlotPositions();
    var k := match e.shape
      case Some(Direct) => 9
      case Some(Reverse) => 3
      case Some(VStructure) => 5
      case None => 10;
    assert EdgeSlots(e)[k] == Object("");
    ObjectVariableInWords(e, n, "");
    var j :| OccursAt(Flatten(ObjectWords(e, n, "")), "?e2" + n, j);
    PatternOccurs(e, i, k, "?e2" + n, j);
  }

  /** Each relation variable the edge lists occurs in the pattern. */
  lemma RelationVariablesOccur(e: Edge, i: nat)
    requires IdsPlain(e)
    ensures forall v :: v in RelationVariables(e, i) ==> Contains(RelationPattern(e, i), v)
  {
    var n := DecimalString(i);
    SlotPositions();
    if e.kbID.None? {
      if e.shape.None? {
        RelationVariableInWord(e, n, 'd');
        RelationVariableInWord(e, n, 'r');
        RelationVariableInWord(e, n, 'v');
        PatternOccurs(e, i, 9, "?r" + n + "d", 1);
        PatternOccurs(e, i, 22, "?r" + n + "r", 1);
        PatternOccurs(e, i, 34, "?r" + n + "v", 1);
      } else {
        var l := ShapeLetter(e.shape.value);
        assert EdgeSlots(e)[8] == Relation(l);
        RelationVariableInWord(e, n, l);
        PatternOccurs(e, i, 8, "?r" + n + [l], 1);
      }
    }
  }

  /** Every variable the SELECT list names for the edge occurs in the edge's
      pattern. */
  lemma FreeVariablesBound(e: Edge, i: nat)
    requires IdsPlain(e)
    ensures forall v :: v in EdgeFreeVariables(e, i) ==> Contains(RelationPattern(e, i), v)
  {
    RelationVariablesOccur(e, i);
    if e.rightkbID.None? {
      ObjectVariableOccurs(e, i);
    }
  }

  /** The ORDER BY variable `?n` (and the time's `?a`) of edge `i` occurs in its
      pattern exactly when the edge has `argmax` and a shape. */
  lemma TimeVariablesOccur(e: Edge, i: nat)
    requires IdsPlain(e)
    ensures Contains(RelationPattern(e, i), "?n" + DecimalString(i)) <==> e.argmax && e.shape.Some?
    ensures Contains(RelationPattern(e, i), "?a" + DecimalString(i)) <==> e.argmax && e.shape.Some?
  {
    var n := DecimalString(i);
    var p := RelationPattern(e, i);
    if e.argmax && e.shape.Some? {
      SlotPositions();
      assert EdgeSlots(e)[11] == Restriction;
      TimeVariablesInWords(e, n);
      var j :| OccursAt(Flatten(RestrictionWords(e, n)), "?n" + n, j);
      PatternOccurs(e, i, 11, "?n" + n, j);
      PatternOccurs(e, i, 11, "?a" + n, |" " + "?m" + n| + 1);
    } else {
      if e.shape.None? {
        UnionUnrestricted();
      }
      TimeVariablesAbsent(e, i, 'n');
      TimeVariablesAbsent(e, i, 'a');
    }
  }

  lemma TimeVariablesAbsent(e: Edge, i: nat, c: char)
    requires IdsPlain(e) && (c == 'a' || c == 'n')
    requires e.argmax ==> forall k :: 0 <= k < |EdgeSlots(e)| ==> !EdgeSlots(e)[k].Restriction?
    ensures !Contains(RelationPattern(e, i), ['?', c] + DecimalString(i))
  {
    var p := RelationPattern(e, i);
    PatternClean(e, i, c);
    NoVariableNotContains(p, c);
    if Contains(p, ['?', c] + DecimalString(i)) {
      ContainsPrefix(p, ['?', c], DecimalString(i));
    }
  }
}
