/** Placeholder hygiene of the relation pattern `graph_to_query` builds for one
    edge. The templates are sequences of white-space-led words, and every
    substitution's pattern starts with one of the placeholder characters `?`,
    `%` or `_` and contains no white space; so the chain of substitutions acts
    on each word separately. The relation pattern of edge `i` is then the
    template with every placeholder word replaced by its instance: variables
    suffixed with `i`, the relation and object given by id where the edge has
    one, the restriction slot filled or emptied. */
module PatternHygiene {
  import opened Wrappers
  import opened Text
  import opened QueryCompiler

  // ---------------------------------------------------------------------------
  // Words and well-behaved substitutions

  predicate IsSpace(c: char)
  {
    c == ' ' || c == '\n'
  }

  /** The characters every substitution pattern starts with. */
  predicate IsMarker(c: char)
  {
    c == '?' || c == '%' || c == '_'
  }

  predicate NoMarker(s: string)
  {
    forall k :: 0 <= k < |s| ==> !IsMarker(s[k])
  }

  /** Every word after the first starts with white space. */
  predicate Separated(ps: seq<string>)
  {
    forall k :: 0 < k < |ps| ==> |ps[k]| > 0 && IsSpace(ps[k][0])
  }

  /** A substitution whose pattern starts with a marker and holds no white
      space; `re.sub(r"\?r[drv]", ...)` is one by construction. */
  predicate Marked(w: Rewrite)
  {
    w.Replace? ==> |w.pat| > 0 && IsMarker(w.pat[0]) && forall k :: 0 <= k < |w.pat| ==> !IsSpace(w.pat[k])
  }

  /** A substitution whose replacement is written as it stands: always for
      `str.replace`, and for `re.sub` when the replacement holds no
      backslash (one that does is a template). */
  predicate Literal(w: Rewrite)
  {
    w.RelationId? ==> '\\' !in w.id
  }

  predicate AllLiteral(ws: seq<Rewrite>)
  {
    forall k :: 0 <= k < |ws| ==> Literal(ws[k])
  }

  predicate AllMarked(ws: seq<Rewrite>)
  {
    forall k :: 0 <= k < |ws| ==> Marked(ws[k])
  }

  /** The substitution's pattern occurs at the start of `v`. */
  predicate MatchesAt(v: string, w: Rewrite)
  {
    match w
    case Replace(pat, _) => StartsWith(v, pat)
    case RelationId(_) => RelationAt(v)
  }

  function MatchLength(w: Rewrite): nat
  {
    match w
    case Replace(pat, _) => |pat|
    case RelationId(_) => 3
  }

  function Replacement(w: Rewrite): string
  {
    match w
    case Replace(_, rep) => rep
    case RelationId(id) => id
  }

  /** A placeholder word: a non-marker lead character, a marker, then no
      further marker. */
  predicate Word(w: string)
  {
    |w| >= 2 && !IsMarker(w[0]) && IsMarker(w[1]) && NoMarker(w[2..])
  }

  // ---------------------------------------------------------------------------
  // One substitution on one word

  lemma {:induction false} AbsentLead(s: string, pat: string)
    requires |pat| > 0 && forall k :: 0 <= k < |s| ==> s[k] != pat[0]
    ensures !Contains(s, pat)
    decreases |s|
  {
    if |s| > 0 {
      assert !StartsWith(s, pat) by {
        if |pat| <= |s| {
          assert s[..|pat|][0] == s[0];
        }
      }
      AbsentLead(s[1..], pat);
    }
  }

  /** Text without markers is left alone by every marked substitution. */
  lemma InertText(s: string, w: Rewrite)
    requires NoMarker(s) && Marked(w)
    ensures Rewritten(s, w) == s
  {
    if w.Replace? {
      AbsentLead(s, w.pat);
    }
  }

  lemma {:induction false} InertTextAll(s: string, ws: seq<Rewrite>)
    requires NoMarker(s) && AllMarked(ws)
    ensures RewriteAll(s, ws) == s
    decreases |ws|
  {
    if |ws| > 0 {
      InertText(s, ws[0]);
      InertTextAll(s, ws[1..]);
    }
  }

  /** A substitution changes a placeholder word exactly when its pattern
      starts at the marker, and then replaces the matched text only. */
  lemma WordStep(w: string, r: Rewrite)
    requires Word(w) && Marked(r)
    ensures MatchesAt(w[1..], r) ==> 1 + MatchLength(r) <= |w|
    ensures Literal(r) || !MatchesAt(w[1..], r) ==>
      Rewritten(w, r) == if MatchesAt(w[1..], r) then [w[0]] + Replacement(r) + w[1 + MatchLength(r)..] else w
  {
    if MatchesAt(w[1..], r) {
      if Literal(r) {
        WordStepHit(w, r);
      }
    } else {
      WordStepMiss(w, r);
    }
  }

  lemma WordStepHit(w: string, r: Rewrite)
    requires Word(w) && Marked(r) && Literal(r) && MatchesAt(w[1..], r)
    ensures 1 + MatchLength(r) <= |w|
    ensures Rewritten(w, r) == [w[0]] + Replacement(r) + w[1 + MatchLength(r)..]
  {
    var v, m := w[1..], MatchLength(r);
    assert 1 <= m <= |v|;
    var rest := w[1 + m..];
    assert rest == v[m..];
    WordRestPlain(w, 1 + m);
    InertText(rest, r);
    WordLead(w, r);
    assert Rewritten(v, r) == Replacement(r) + Rewritten(v[m..], r);
    AppendAssociative([w[0]], Replacement(r), rest);
  }

  lemma WordStepMiss(w: string, r: Rewrite)
    requires Word(w) && Marked(r) && !MatchesAt(w[1..], r)
    ensures Rewritten(w, r) == w
  {
    var v := w[1..];
    WordRestPlain(w, 2);
    assert v[1..] == w[2..];
    InertText(v[1..], r);
    WordLead(w, r);
    assert Rewritten(v, r) == [v[0]] + Rewritten(v[1..], r);
    assert v == [v[0]] + v[1..];
    assert w == [w[0]] + v;
  }

  /** The rest of a placeholder word after the marker holds no marker. */
  lemma WordRestPlain(w: string, j: nat)
    requires Word(w) && 2 <= j <= |w|
    ensures NoMarker(w[j..])
  {
    assert forall k :: 0 <= k < |w[j..]| ==> w[j..][k] == w[2..][j - 2 + k];
  }

  /** The lead character of a placeholder word never starts a match. */
  lemma WordLead(w: string, r: Rewrite)
    requires Word(w) && Marked(r)
    ensures Rewritten(w, r) == [w[0]] + Rewritten(w[1..], r)
  {
    match r
    case Replace(pat, rep) =>
      assert !StartsWith(w, pat) by {
        if |pat| <= |w| {
          assert w[..|pat|][0] == w[0];
        }
      }
    case RelationId(id) =>
  }

  // ---------------------------------------------------------------------------
  // Substitutions act word by word

  /** `re.sub(r"\?r[drv]", ...)` distributes over a concatenation whose second
      part starts with white space. */
  lemma {:induction false} SubstituteRelationAppend(a: string, b: string, rep: string)
    requires |b| == 0 || IsSpace(b[0])
    ensures SubstituteRelation(a + b, rep) == SubstituteRelation(a, rep) + SubstituteRelation(b, rep)
    decreases |a|, 1
  {
    if |a| == 0 {
      assert a + b == b;
    } else if RelationAt(a + b) {
      SubstituteRelationAppendAtMatch(a, b, rep);
    } else {
      SubstituteRelationAppendPast(a, b, rep);
    }
  }

  lemma {:induction false} SubstituteRelationAppendAtMatch(a: string, b: string, rep: string)
    requires |b| == 0 || IsSpace(b[0])
    requires |a| > 0 && RelationAt(a + b)
    ensures SubstituteRelation(a + b, rep) == SubstituteRelation(a, rep) + SubstituteRelation(b, rep)
    decreases |a|, 0
  {
    var s := a + b;
    RelationInFirst(a, b);
    assert a[..3] == s[..3];
    assert RelationAt(a);
    assert s[3..] == a[3..] + b;
    SubstituteRelationAppend(a[3..], b, rep);
    var x, y := SubstituteRelation(a[3..], rep), SubstituteRelation(b, rep);
    assert SubstituteRelation(s, rep) == rep + (x + y);
    assert rep + (x + y) == (rep + x) + y;
  }

  lemma {:induction false} SubstituteRelationAppendPast(a: string, b: string, rep: string)
    requires |b| == 0 || IsSpace(b[0])
    requires |a| > 0 && !RelationAt(a + b)
    ensures SubstituteRelation(a + b, rep) == SubstituteRelation(a, rep) + SubstituteRelation(b, rep)
    decreases |a|, 0
  {
    var s := a + b;
    assert !RelationAt(a) by {
      if |a| >= 3 {
        assert a[..3] == s[..3];
      }
    }
    assert s[1..] == a[1..] + b;
    SubstituteRelationAppend(a[1..], b, rep);
    var x, y := SubstituteRelation(a[1..], rep), SubstituteRelation(b, rep);
    assert SubstituteRelation(s, rep) == [a[0]] + (x + y);
    assert SubstituteRelation(a, rep) == [a[0]] + x;
    AppendAssociative([a[0]], x, y);
  }

  /** A relation placeholder at the front of `a + b` lies within `a` when `b`
      starts with white space. */
  lemma RelationInFirst(a: string, b: string)
    requires |a| > 0 && (|b| == 0 || IsSpace(b[0]))
    requires RelationAt(a + b)
    ensures |a| >= 3
  {
  }

  /** A marked substitution keeps a white-space lead character in place. */
  lemma KeepsLead(p: string, w: Rewrite)
    requires |p| > 0 && IsSpace(p[0]) && Marked(w)
    ensures |Rewritten(p, w)| > 0 && Rewritten(p, w)[0] == p[0]
  {
    assert p == [p[0]] + p[1..];
    match w
    case Replace(pat, rep) =>
      assert !StartsWith(p, pat) by {
        if |pat| <= |p| {
          assert p[..|pat|][0] == p[0];
        }
      }
    case RelationId(id) =>
  }

  function RewriteEach(ps: seq<string>, w: Rewrite): (r: seq<string>)
    ensures |r| == |ps|
  {
    seq(|ps|, k requires 0 <= k < |ps| => Rewritten(ps[k], w))
  }

  /** One marked substitution over a separated text is the substitution of
      each word. */
  lemma {:induction false} RewrittenFlatten(ps: seq<string>, w: Rewrite)
    requires Separated(ps) && Marked(w) && Literal(w)
    ensures Rewritten(Flatten(ps), w) == Flatten(RewriteEach(ps, w))
    ensures Separated(RewriteEach(ps, w))
    decreases |ps|
  {
    forall k | 0 < k < |ps|
      ensures |RewriteEach(ps, w)[k]| > 0 && IsSpace(RewriteEach(ps, w)[k][0])
    {
      KeepsLead(ps[k], w);
    }
    if |ps| > 0 {
      var tail := ps[1..];
      RewrittenFlatten(tail, w);
      assert RewriteEach(ps, w)[1..] == RewriteEach(tail, w);
      var b := Flatten(tail);
      assert |b| == 0 || IsSpace(b[0]) by {
        if |tail| > 0 {
          assert b == tail[0] + Flatten(tail[1..]);
        }
      }
      match w
      case Replace(pat, rep) =>
        ReplaceAllAppend(ps[0], b, pat, rep);
      case RelationId(id) =>
        SubstituteRelationAppend(ps[0], b, id);
    }
  }

  function RewriteAllEach(ps: seq<string>, ws: seq<Rewrite>): (r: seq<string>)
    ensures |r| == |ps|
  {
    seq(|ps|, k requires 0 <= k < |ps| => RewriteAll(ps[k], ws))
  }

  /** A chain of marked substitutions over a separated text is the chain
      applied to each word. */
  lemma {:induction false} RewriteAllFlatten(ps: seq<string>, ws: seq<Rewrite>)
    requires Separated(ps) && AllMarked(ws) && AllLiteral(ws)
    ensures RewriteAll(Flatten(ps), ws) == Flatten(RewriteAllEach(ps, ws))
    decreases |ws|
  {
    if |ws| > 0 {
      RewrittenFlatten(ps, ws[0]);
      var qs := RewriteEach(ps, ws[0]);
      RewriteAllFlatten(qs, ws[1..]);
      assert RewriteAllEach(qs, ws[1..]) == RewriteAllEach(ps, ws);
    } else {
      assert RewriteAllEach(ps, ws) == ps;
    }
  }

  lemma {:induction false} RewriteAllAppend(s: string, a: seq<Rewrite>, b: seq<Rewrite>)
    ensures RewriteAll(s, a + b) == RewriteAll(RewriteAll(s, a), b)
    decreases |a|
  {
    if |a| > 0 {
      assert (a + b)[1..] == a[1..] + b;
      RewriteAllAppend(Rewritten(s, a[0]), a[1..], b);
    } else {
      assert a + b == b;
    }
  }

  lemma RewriteAllCons(s: string, r: Rewrite, ws: seq<Rewrite>)
    ensures RewriteAll(s, [r] + ws) == RewriteAll(Rewritten(s, r), ws)
  {
    assert ([r] + ws)[1..] == ws;
  }

  // ---------------------------------------------------------------------------
  // The substitutions of one edge, in the groups the source applies them in.
  // `n` stands for the edge number written in decimal.

  function RelationGroup(e: Edge, n: string): seq<Rewrite>
  {
    if e.kbID.Some? then [RelationId("e:" + e.kbID.value)] else [Replace("?r", "?r" + n)]
  }

  function HopUpGroup(e: Edge): seq<Rewrite>
  {
    if e.hopUp then [Replace("?e2", EntityAbstract)] else []
  }

  function TimeGroup(n: string): seq<Rewrite>
  {
    [Replace("?n", "?n" + n), Replace("?a", "?a" + n)]
  }

  function RestrictionGroup(e: Edge, n: string): seq<Rewrite>
  {
    if e.argmax then [Replace("%restriction%", TimeArgmax)] + TimeGroup(n) else [Replace("%restriction%", "")]
  }

  function NameGroup(n: string): seq<Rewrite>
  {
    [Replace("?p", "?p" + n), Replace("?m", "?m" + n)]
  }

  /** What the object variable `?e2` becomes: the object's id when it has
      one, else the numbered variable. */
  function ObjectName(e: Edge, n: string): string
  {
    if e.rightkbID.Some? then "e:" + e.rightkbID.value else "?e2" + n
  }

  function ObjectGroup(e: Edge, n: string): (r: seq<Rewrite>)
    ensures r == [Replace("?e2", ObjectName(e, n))]
  {
    if e.rightkbID.Some? then [Replace("?e2", "e:" + e.rightkbID.value)] else [Replace("?e2", "?e2" + n)]
  }

  function BlankGroup(n: string): seq<Rewrite>
  {
    [Replace("_:m", "_:m" + n), Replace("_:s", "_:s" + n)]
  }

  function AfterName(e: Edge, n: string): seq<Rewrite>
  {
    ObjectGroup(e, n) + BlankGroup(n)
  }

  /** The substitutions after the restriction slot is handled. */
  function Late(e: Edge, n: string): seq<Rewrite>
  {
    NameGroup(n) + AfterName(e, n)
  }

  function AfterHop(e: Edge, n: string): seq<Rewrite>
  {
    RestrictionGroup(e, n) + Late(e, n)
  }

  function AfterRelation(e: Edge, n: string): seq<Rewrite>
  {
    HopUpGroup(e) + AfterHop(e, n)
  }

  function Chain(e: Edge, n: string): seq<Rewrite>
  {
    RelationGroup(e, n) + AfterRelation(e, n)
  }

  /** The groups, with `n` the edge's number, make up exactly the edge's
      substitutions. */
  lemma EdgeRewritesInGroups(e: Edge, i: nat)
    ensures EdgeRewrites(e, i) == Chain(e, DecimalString(i))
  {
    var n := DecimalString(i);
    var r, h, x, m, o, b := RelationGroup(e, n), HopUpGroup(e), RestrictionGroup(e, n), NameGroup(n), ObjectGroup(e, n), BlankGroup(n);
    assert EdgeRewrites(e, i) == r + h + x + m + o + b by {
      RestrictionGroupLiteral(e, n);
    }
    AppendAssociative(r + h + x + m, o, b);
    AppendAssociative(r + h + x, m, o + b);
    AppendAssociative(r + h, x, m + (o + b));
    AppendAssociative(r, h, x + (m + (o + b)));
  }

  lemma RestrictionGroupLiteral(e: Edge, n: string)
    ensures RestrictionGroup(e, n)
         == if e.argmax then [Replace("%restriction%", TimeArgmax), Replace("?n", "?n" + n), Replace("?a", "?a" + n)]
            else [Replace("%restriction%", "")]
  {
  }

  lemma AllMarkedAppend(a: seq<Rewrite>, b: seq<Rewrite>)
    requires AllMarked(a) && AllMarked(b)
    ensures AllMarked(a + b)
  {
    assert forall k :: 0 <= k < |b| ==> (a + b)[|a| + k] == b[k];
  }

  lemma AllLiteralAppend(a: seq<Rewrite>, b: seq<Rewrite>)
    requires AllLiteral(a) && AllLiteral(b)
    ensures AllLiteral(a + b)
  {
    assert forall k :: 0 <= k < |b| ==> (a + b)[|a| + k] == b[k];
  }

  /** Every substitution after the relation group is a `str.replace`, so
      only the relation id can make a template. */
  lemma AfterRelationLiteral(e: Edge, n: string)
    ensures AllLiteral(Late(e, n)) && AllLiteral(TimeGroup(n) + Late(e, n))
    ensures AllLiteral(AfterHop(e, n)) && AllLiteral(AfterRelation(e, n))
  {
    AllLiteralAppend(NameGroup(n), AfterName(e, n));
    AllLiteralAppend(TimeGroup(n), Late(e, n));
    AllLiteralAppend(RestrictionGroup(e, n), Late(e, n));
    AllLiteralAppend(HopUpGroup(e), AfterHop(e, n));
  }

  /** With a relation id free of backslashes the whole chain is literal. */
  lemma ChainLiteral(e: Edge, n: string)
    requires e.kbID.Some? ==> '\\' !in e.kbID.value
    ensures AllLiteral(Chain(e, n))
  {
    if e.kbID.Some? {
      var id := "e:" + e.kbID.value;
      assert '\\' !in id by {
        assert forall k :: 2 <= k < |id| ==> id[k] == e.kbID.value[k - 2];
      }
    }
    AfterRelationLiteral(e, n);
    AllLiteralAppend(RelationGroup(e, n), AfterRelation(e, n));
  }

  lemma EarlyGroupsMarked(e: Edge, n: string)
    ensures AllMarked(RelationGroup(e, n)) && AllMarked(HopUpGroup(e))
  {
  }

  lemma RestrictionGroupMarked(e: Edge, n: string)
    ensures AllMarked(TimeGroup(n)) && AllMarked(RestrictionGroup(e, n))
  {
    assert AllMarked([Replace("%restriction%", TimeArgmax)]);
    AllMarkedAppend([Replace("%restriction%", TimeArgmax)], TimeGroup(n));
  }

  lemma NameBlankMarked(n: string)
    ensures AllMarked(NameGroup(n)) && AllMarked(BlankGroup(n))
  {
  }

  lemma LateGroupsMarked(e: Edge, n: string)
    ensures AllMarked(NameGroup(n)) && AllMarked(ObjectGroup(e, n)) && AllMarked(BlankGroup(n))
    ensures AllMarked(AfterName(e, n)) && AllMarked(Late(e, n))
  {
    NameBlankMarked(n);
    AllMarkedAppend(ObjectGroup(e, n), BlankGroup(n));
    AllMarkedAppend(NameGroup(n), AfterName(e, n));
  }

  // ---------------------------------------------------------------------------
  // Word-level steps

  /** An edge number holds no marker. */
  lemma NumberPlain(i: nat)
    ensures NoMarker(DecimalString(i))
  {
  }

  /** A pattern that differs from `v` at some position inside both does not
      start `v`. */
  lemma DiffersAt(v: string, pat: string, k: nat)
    requires k < |v| && k < |pat| && v[k] != pat[k]
    ensures !StartsWith(v, pat)
  {
  }

  lemma FirstMisses(w: string, ws: seq<Rewrite>)
    requires Word(w) && |ws| > 0 && AllMarked(ws) && !MatchesAt(w[1..], ws[0])
    ensures RewriteAll(w, ws) == RewriteAll(w, ws[1..])
  {
    WordStep(w, ws[0]);
  }

  /** A substitution whose pattern starts with the two characters `a b`;
      patterns shorter than two characters count as doing so. */
  predicate SameLead(a: char, b: char, r: Rewrite)
  {
    match r
    case Replace(pat, _) => |pat| < 2 || (a == pat[0] && b == pat[1])
    case RelationId(_) => a == '?' && b == 'r'
  }

  /** No substitution of `ws` starts with `a b`. */
  predicate LeadMissed(a: char, b: char, ws: seq<Rewrite>)
  {
    forall k :: 0 <= k < |ws| ==> !SameLead(a, b, ws[k])
  }

  lemma DiffersAtSecond(v: string, pat: string)
    requires |v| >= 2 && |pat| >= 2 && (v[0] != pat[0] || v[1] != pat[1])
    ensures !StartsWith(v, pat)
  {
    if v[0] != pat[0] {
      DiffersAt(v, pat, 0);
    } else {
      DiffersAt(v, pat, 1);
    }
  }

  /** A substitution whose pattern does not start with the word's marker and
      the character after it misses the word. */
  lemma MissByLead(w: string, r: Rewrite)
    requires Word(w) && |w| >= 3 && Marked(r) && !SameLead(w[1], w[2], r)
    ensures Rewritten(w, r) == w
  {
    WordStep(w, r);
    if MatchesAt(w[1..], r) && r.Replace? {
      DiffersAtSecond(w[1..], r.pat);
    }
  }

  lemma {:induction false} MissAllByLead(w: string, ws: seq<Rewrite>)
    requires Word(w) && |w| >= 3 && AllMarked(ws) && LeadMissed(w[1], w[2], ws)
    ensures RewriteAll(w, ws) == w
    decreases |ws|
  {
    if |ws| > 0 {
      MissByLead(w, ws[0]);
      MissAllByLead(w, ws[1..]);
    }
  }

  /** ` v x` is a placeholder word led by the first two characters of `v`. */
  lemma LedWord(v: string, x: string)
    requires |v| >= 2 && IsMarker(v[0]) && NoMarker(v[1..]) && NoMarker(x)
    ensures Word(" " + v + x)
    ensures (" " + v + x)[1] == v[0] && (" " + v + x)[2] == v[1]
  {
    var w := " " + v + x;
    assert w[2..] == v[1..] + x;
  }

  /** The substitution whose pattern is `v` on the word ` v post`. */
  lemma HitStep(v: string, post: string, rep: string)
    requires |v| >= 2 && IsMarker(v[0]) && NoMarker(v[1..]) && NoMarker(post)
    requires forall k :: 0 <= k < |v| ==> !IsSpace(v[k])
    ensures Rewritten(" " + v + post, Replace(v, rep)) == " " + rep + post
  {
    var w := " " + v + post;
    LedWord(v, post);
    assert w[1..] == v + post;
    assert StartsWith(w[1..], v) by {
      assert (v + post)[..|v|] == v;
    }
    WordStep(w, Replace(v, rep));
    assert w[1 + |v|..] == post;
  }

  lemma SuffixStep(v: string, post: string, n: string)
    requires |v| >= 2 && IsMarker(v[0]) && NoMarker(v[1..]) && NoMarker(post)
    requires forall k :: 0 <= k < |v| ==> !IsSpace(v[k])
    ensures Rewritten(" " + v + post, Replace(v, v + n)) == " " + v + n + post
  {
    HitStep(v, post, v + n);
    assert " " + (v + n) + post == " " + v + n + post;
  }

  /** The word ` v post` where the first substitution appends `n` to `v` and
      the others start differently. */
  lemma SuffixHit(v: string, post: string, n: string, ws: seq<Rewrite>)
    requires |v| >= 2 && IsMarker(v[0]) && NoMarker(v[1..]) && NoMarker(post) && NoMarker(n)
    requires |ws| > 0 && AllMarked(ws) && ws[0] == Replace(v, v + n)
    requires LeadMissed(v[0], v[1], ws[1..])
    ensures RewriteAll(" " + v + post, ws) == " " + v + n + post
  {
    var w2 := " " + v + (n + post);
    assert Marked(ws[0]);
    SuffixStep(v, post, n);
    AppendAssociative(" " + v, n, post);
    NoMarkerAppend(n, post);
    LedWord(v, n + post);
    MissAllByLead(w2, ws[1..]);
  }

  /** As `SuffixHit`, after a first substitution whose pattern differs from
      `v` at position `k`. */
  lemma SuffixAfterMiss(v: string, post: string, n: string, ws: seq<Rewrite>, k: nat)
    requires |v| >= 2 && IsMarker(v[0]) && NoMarker(v[1..]) && NoMarker(post) && NoMarker(n)
    requires |ws| > 1 && AllMarked(ws) && ws[0].Replace? && ws[1] == Replace(v, v + n)
    requires k < |v| && k < |ws[0].pat| && v[k] != ws[0].pat[k]
    requires LeadMissed(v[0], v[1], ws[2..])
    ensures RewriteAll(" " + v + post, ws) == " " + v + n + post
  {
    var w := " " + v + post;
    LedWord(v, post);
    assert w[1..] == v + post;
    DiffersAt(v + post, ws[0].pat, k);
    FirstMisses(w, ws);
    assert ws[1..][1..] == ws[2..];
    SuffixHit(v, post, n, ws[1..]);
  }

  // ---------------------------------------------------------------------------
  // Each group on the words it changes. Words are written ` v post`, with `v`
  // the placeholder.

  /** `?p` and `?m` get the edge number. */
  lemma NameP(n: string)
    requires NoMarker(n)
    ensures RewriteAll(" " + "?p", NameGroup(n)) == " " + "?p" + n
  {
    assert " " + "?p" + "" == " " + "?p";
    NameBlankMarked(n);
    SuffixHit("?p", "", n, NameGroup(n));
  }

  lemma NameM(n: string)
    requires NoMarker(n)
    ensures RewriteAll(" " + "?m", NameGroup(n)) == " " + "?m" + n
  {
    assert " " + "?m" + "" == " " + "?m";
    NameBlankMarked(n);
    SuffixAfterMiss("?m", "", n, NameGroup(n), 1);
  }

  /** The blank node `_:s` gets the edge number. */
  lemma BlankS(n: string)
    requires NoMarker(n)
    ensures RewriteAll(" " + "_:s", BlankGroup(n)) == " " + "_:s" + n
  {
    assert " " + "_:s" + "" == " " + "_:s";
    NameBlankMarked(n);
    SuffixAfterMiss("_:s", "", n, BlankGroup(n), 2);
  }

  /** `?a` and `?n` of the time restriction get the edge number. */
  lemma TimeA(n: string)
    requires NoMarker(n)
    ensures RewriteAll(" " + "?a", TimeGroup(n)) == " " + "?a" + n
  {
    assert " " + "?a" + "" == " " + "?a";
    assert AllMarked(TimeGroup(n));
    SuffixAfterMiss("?a", "", n, TimeGroup(n), 1);
  }

  lemma TimeN(n: string)
    requires NoMarker(n)
    ensures RewriteAll(" " + "?n" + "].", TimeGroup(n)) == " " + "?n" + n + "]."
  {
    assert AllMarked(TimeGroup(n));
    SuffixHit("?n", "].", n, TimeGroup(n));
  }

  // ---------------------------------------------------------------------------
  // Each word of a template through the whole chain

  /** The chain up to some point misses the word ` v post`. */
  lemma Pass(v: string, post: string, a: seq<Rewrite>, b: seq<Rewrite>)
    requires |v| >= 2 && IsMarker(v[0]) && NoMarker(v[1..]) && NoMarker(post)
    requires AllMarked(a) && LeadMissed(v[0], v[1], a)
    ensures RewriteAll(" " + v + post, a + b) == RewriteAll(" " + v + post, b)
  {
    LedWord(v, post);
    RewriteAllAppend(" " + v + post, a, b);
    MissAllByLead(" " + v + post, a);
  }

  /** A substitution whose pattern differs from `v` at position `k` misses
      the word ` v post`. */
  lemma MissAt(v: string, post: string, ws: seq<Rewrite>, k: nat)
    requires |v| >= 2 && IsMarker(v[0]) && NoMarker(v[1..]) && NoMarker(post)
    requires |ws| > 0 && AllMarked(ws) && ws[0].Replace?
    requires k < |v| && k < |ws[0].pat| && v[k] != ws[0].pat[k]
    ensures RewriteAll(" " + v + post, ws) == RewriteAll(" " + v + post, ws[1..])
  {
    var w := " " + v + post;
    LedWord(v, post);
    assert w[1..] == v + post;
    DiffersAt(v + post, ws[0].pat, k);
    FirstMisses(w, ws);
  }

  lemma NoMarkerAppend(a: string, b: string)
    requires NoMarker(a) && NoMarker(b)
    ensures NoMarker(a + b)
  {
    assert forall k :: 0 <= k < |b| ==> (a + b)[|a| + k] == b[k];
  }

  /** The word ` v post` after its marker has become the plain text `rep`. */
  lemma ByIdStep(v: string, post: string, rep: string, ws: seq<Rewrite>)
    requires |v| >= 2 && IsMarker(v[0]) && NoMarker(v[1..]) && NoMarker(post) && NoMarker(rep)
    requires forall k :: 0 <= k < |v| ==> !IsSpace(v[k])
    requires AllMarked(ws)
    ensures RewriteAll(" " + v + post, [Replace(v, rep)] + ws) == " " + rep + post
  {
    assert ([Replace(v, rep)] + ws)[1..] == ws;
    HitStep(v, post, rep);
    assert NoMarker(" " + rep) by {
      NoMarkerAppend(" ", rep);
    }
    NoMarkerAppend(" " + rep, post);
    InertTextAll(" " + rep + post, ws);
  }

  lemma AfterHopMarked(e: Edge, n: string)
    ensures AllMarked(AfterHop(e, n))
  {
    RestrictionGroupMarked(e, n);
    LateMarked(e, n);
    AllMarkedAppend(RestrictionGroup(e, n), Late(e, n));
  }

  lemma AfterRelationMarked(e: Edge, n: string)
    ensures AllMarked(AfterRelation(e, n))
  {
    EarlyGroupsMarked(e, n);
    AfterHopMarked(e, n);
    AllMarkedAppend(HopUpGroup(e), AfterHop(e, n));
  }

  lemma LateMarked(e: Edge, n: string)
    ensures AllMarked(Late(e, n))
  {
    LateGroupsMarked(e, n);
  }

  /** A word whose placeholder no early substitution starts like passes
      straight to the late ones. */
  lemma PastEarly(v: string, post: string, e: Edge, n: string)
    requires |v| >= 2 && IsMarker(v[0]) && NoMarker(v[1..]) && NoMarker(post)
    requires LeadMissed(v[0], v[1], RelationGroup(e, n)) && LeadMissed(v[0], v[1], HopUpGroup(e))
    requires LeadMissed(v[0], v[1], RestrictionGroup(e, n))
    ensures RewriteAll(" " + v + post, Chain(e, n)) == RewriteAll(" " + v + post, Late(e, n))
  {
    EarlyGroupsMarked(e, n);
    RestrictionGroupMarked(e, n);
    Pass(v, post, RelationGroup(e, n), AfterRelation(e, n));
    Pass(v, post, HopUpGroup(e), AfterHop(e, n));
    Pass(v, post, RestrictionGroup(e, n), Late(e, n));
  }

  /** `?p` and `?m` through the chain. */
  lemma NamePWord(e: Edge, n: string)
    requires NoMarker(n)
    ensures RewriteAll(" " + "?p", Chain(e, n)) == " " + "?p" + n
  {
    assert " " + "?p" + "" == " " + "?p";
    PastEarly("?p", "", e, n);
    NamePLate(e, n);
  }

  lemma NameMWord(e: Edge, n: string)
    requires NoMarker(n)
    ensures RewriteAll(" " + "?m", Chain(e, n)) == " " + "?m" + n
  {
    assert " " + "?m" + "" == " " + "?m";
    PastEarly("?m", "", e, n);
    NameMLate(e, n);
  }

  lemma NamePLate(e: Edge, n: string)
    requires NoMarker(n)
    ensures RewriteAll(" " + "?p", Late(e, n)) == " " + "?p" + n
  {
    assert " " + "?p" + "" == " " + "?p";
    LateGroupsMarked(e, n);
    RewriteAllAppend(" " + "?p", NameGroup(n), AfterName(e, n));
    NameP(n);
    LedWord("?p", n);
    MissAllByLead(" " + "?p" + n, AfterName(e, n));
  }

  lemma NameMLate(e: Edge, n: string)
    requires NoMarker(n)
    ensures RewriteAll(" " + "?m", Late(e, n)) == " " + "?m" + n
  {
    assert " " + "?m" + "" == " " + "?m";
    LateGroupsMarked(e, n);
    RewriteAllAppend(" " + "?m", NameGroup(n), AfterName(e, n));
    NameM(n);
    LedWord("?m", n);
    MissAllByLead(" " + "?m" + n, AfterName(e, n));
  }

  // ---------------------------------------------------------------------------
  // What each placeholder becomes

  /** Ids written into the pattern hold no placeholder character, and the
      relation id no backslash (so that `re.sub` uses it as it stands). */
  predicate IdsPlain(e: Edge)
  {
    (e.kbID.Some? ==> NoMarker(e.kbID.value) && '\\' !in e.kbID.value)
    && (e.rightkbID.Some? ==> NoMarker(e.rightkbID.value))
  }

  /** The relation word with shape letter `l`: the relation's id when the
      edge has one, else the numbered relation variable. */
  function RelationInstance(e: Edge, n: string, l: char): string
  {
    if e.kbID.Some? then " " + ("e:" + e.kbID.value) else " " + "?r" + n + [l]
  }

  /** The object slot followed by `x`: the object itself, or with `hopUp` the
      object reached through one broader relation from a numbered blank node. */
  function ObjectWords(e: Edge, n: string, x: string): seq<string>
  {
    if e.hopUp then [" [", " " + "_:s" + n, " [", " " + HopUpPath, " " + ObjectName(e, n) + ("]]" + x)]
    else [" " + ObjectName(e, n) + x]
  }

  /** The restriction slot: the numbered time restriction with `argmax`,
      else nothing but its leading space. */
  function RestrictionWords(e: Edge, n: string): seq<string>
  {
    if e.argmax then [" " + "?m" + n, " " + "?a" + n, " [base:time", " " + "?n" + n + "]."] else [" "]
  }

  lemma {:induction false} JoinPlain(sep: string, xs: seq<string>)
    requires NoMarker(sep) && forall k :: 0 <= k < |xs| ==> NoMarker(xs[k])
    ensures NoMarker(Join(sep, xs))
    decreases |xs|
  {
    if |xs| > 1 {
      JoinPlain(sep, xs[1..]);
      NoMarkerAppend(xs[0], sep);
      NoMarkerAppend(xs[0] + sep, Join(sep, xs[1..]));
    }
  }

  lemma HopUpPathPlain()
    ensures NoMarker(HopUpPath)
  {
    var ps := RelationPredicates(HopUpRelations);
    forall k | 0 <= k < |ps|
      ensures NoMarker(ps[k])
    {
      assert NoMarker(HopUpRelations[k]);
      NoMarkerAppend("e:", HopUpRelations[k]);
      NoMarkerAppend("e:" + HopUpRelations[k], "v");
    }
    JoinPlain("|", ps);
  }

  // ---------------------------------------------------------------------------
  // The relation and subject words

  /** `?rd`, `?rr` or `?rv` through the chain. */
  lemma RelationWord(e: Edge, n: string, l: char)
    requires NoMarker(n) && l in "drv" && IdsPlain(e)
    ensures RewriteAll(" " + "?r" + [l], Chain(e, n)) == RelationInstance(e, n, l)
  {
    if e.kbID.Some? {
      RelationById(e, n, l);
    } else {
      RelationNumbered(e, n, l);
    }
  }

  lemma RelationById(e: Edge, n: string, l: char)
    requires l in "drv" && e.kbID.Some? && NoMarker(e.kbID.value) && '\\' !in e.kbID.value
    ensures RewriteAll(" " + "?r" + [l], Chain(e, n)) == " " + ("e:" + e.kbID.value)
  {
    var id := "e:" + e.kbID.value;
    assert '\\' !in id by {
      assert forall k :: 2 <= k < |id| ==> id[k] == e.kbID.value[k - 2];
    }
    RewriteAllCons(" " + "?r" + [l], RelationId(id), AfterRelation(e, n));
    RelationStep(l, id);
    NoMarkerAppend("e:", e.kbID.value);
    NoMarkerAppend(" ", id);
    AfterRelationMarked(e, n);
    InertTextAll(" " + id, AfterRelation(e, n));
  }

  /** `re.sub(r"\?r[drv]", id, ...)` on a relation word. */
  lemma RelationStep(l: char, id: string)
    requires l in "drv" && '\\' !in id
    ensures Rewritten(" " + "?r" + [l], RelationId(id)) == " " + id
  {
    var w := " " + "?r" + [l];
    LedWord("?r", [l]);
    assert RelationAt(w[1..]);
    WordStep(w, RelationId(id));
    assert w[4..] == [];
  }

  lemma RelationNumbered(e: Edge, n: string, l: char)
    requires NoMarker(n) && l in "drv" && e.kbID.None?
    ensures RewriteAll(" " + "?r" + [l], Chain(e, n)) == " " + "?r" + n + [l]
  {
    RewriteAllCons(" " + "?r" + [l], Replace("?r", "?r" + n), AfterRelation(e, n));
    SuffixStep("?r", [l], n);
    AppendAssociative(" " + "?r", n, [l]);
    RelationNumberedRest(e, n, n + [l]);
  }

  /** A numbered relation variable is left alone by the rest of the chain. */
  lemma RelationNumberedRest(e: Edge, n: string, x: string)
    requires NoMarker(x)
    ensures RewriteAll(" " + "?r" + x, AfterRelation(e, n)) == " " + "?r" + x
  {
    EarlyGroupsMarked(e, n);
    Pass("?r", x, HopUpGroup(e), AfterHop(e, n));
    PastNames("?r", x, e, n);
    RelationNumberedLast(e, n, x);
  }

  lemma RelationNumberedLast(e: Edge, n: string, x: string)
    requires NoMarker(x)
    ensures RewriteAll(" " + "?r" + x, AfterName(e, n)) == " " + "?r" + x
  {
    LateGroupsMarked(e, n);
    LedWord("?r", x);
    MissAllByLead(" " + "?r" + x, AfterName(e, n));
  }

  /** `?e1` is never touched. */
  lemma SubjectWord(e: Edge, n: string, x: string)
    requires NoMarker(n) && NoMarker(x)
    ensures RewriteAll(" " + "?e1" + x, Chain(e, n)) == " " + "?e1" + x
  {
    SubjectEarly(e, n, x);
    SubjectTail(e, n, x);
  }

  lemma SubjectEarly(e: Edge, n: string, x: string)
    requires NoMarker(x)
    ensures RewriteAll(" " + "?e1" + x, Chain(e, n)) == RewriteAll(" " + "?e1" + x, AfterHop(e, n))
  {
    EarlyGroupsMarked(e, n);
    AfterRelationMarked(e, n);
    Pass("?e1", x, RelationGroup(e, n), AfterRelation(e, n));
    if e.hopUp {
      MissAt("?e1", x, AfterRelation(e, n), 2);
      assert AfterRelation(e, n)[1..] == AfterHop(e, n);
    } else {
      assert AfterRelation(e, n) == AfterHop(e, n);
    }
  }

  /** `?e1`, `?e2` and `_:s` pass the restriction and the name groups. */
  lemma PastNames(v: string, post: string, e: Edge, n: string)
    requires |v| >= 2 && IsMarker(v[0]) && NoMarker(v[1..]) && NoMarker(post)
    requires LeadMissed(v[0], v[1], RestrictionGroup(e, n)) && LeadMissed(v[0], v[1], NameGroup(n))
    ensures RewriteAll(" " + v + post, AfterHop(e, n)) == RewriteAll(" " + v + post, AfterName(e, n))
  {
    RestrictionGroupMarked(e, n);
    NameBlankMarked(n);
    Pass(v, post, RestrictionGroup(e, n), Late(e, n));
    Pass(v, post, NameGroup(n), AfterName(e, n));
  }

  lemma SubjectTail(e: Edge, n: string, x: string)
    requires NoMarker(n) && NoMarker(x)
    ensures RewriteAll(" " + "?e1" + x, AfterHop(e, n)) == " " + "?e1" + x
  {
    PastNames("?e1", x, e, n);
    SubjectLast(e, n, x);
  }

  lemma SubjectLast(e: Edge, n: string, x: string)
    requires NoMarker(n) && NoMarker(x)
    ensures RewriteAll(" " + "?e1" + x, AfterName(e, n)) == " " + "?e1" + x
  {
    LateGroupsMarked(e, n);
    MissAt("?e1", x, AfterName(e, n), 2);
    assert AfterName(e, n)[1..] == BlankGroup(n);
    LedWord("?e1", x);
    MissAllByLead(" " + "?e1" + x, BlankGroup(n));
  }

  // ---------------------------------------------------------------------------
  // The object word

  /** `_:s`, brought in by the hop up, after the hop up. */
  lemma BlankTail(e: Edge, n: string)
    requires NoMarker(n)
    ensures RewriteAll(" " + "_:s", AfterHop(e, n)) == " " + "_:s" + n
  {
    assert " " + "_:s" + "" == " " + "_:s";
    PastNames("_:s", "", e, n);
    LateGroupsMarked(e, n);
    Pass("_:s", "", ObjectGroup(e, n), BlankGroup(n));
    BlankS(n);
  }

  /** `?e2` after the hop up. */
  lemma ObjectTail(e: Edge, n: string, x: string)
    requires NoMarker(n) && NoMarker(x) && IdsPlain(e)
    ensures RewriteAll(" " + "?e2" + x, AfterHop(e, n)) == " " + ObjectName(e, n) + x
  {
    PastNames("?e2", x, e, n);
    ObjectLast(e, n, x);
  }

  lemma ObjectLast(e: Edge, n: string, x: string)
    requires NoMarker(n) && NoMarker(x) && IdsPlain(e)
    ensures RewriteAll(" " + "?e2" + x, AfterName(e, n)) == " " + ObjectName(e, n) + x
  {
    LateGroupsMarked(e, n);
    if e.rightkbID.Some? {
      assert NoMarker(ObjectName(e, n)) by {
        NoMarkerAppend("e:", e.rightkbID.value);
      }
      ByIdStep("?e2", x, ObjectName(e, n), BlankGroup(n));
    } else {
      SuffixHit("?e2", x, n, AfterName(e, n));
      AppendAssociative(" ", "?e2", n);
    }
  }

  /** `?e2` through the chain. */
  lemma ObjectWord(e: Edge, n: string, x: string)
    requires NoMarker(n) && NoMarker(x) && IdsPlain(e)
    ensures RewriteAll(" " + "?e2" + x, Chain(e, n)) == Flatten(ObjectWords(e, n, x))
  {
    EarlyGroupsMarked(e, n);
    Pass("?e2", x, RelationGroup(e, n), AfterRelation(e, n));
    if e.hopUp {
      ObjectHop(e, n, x);
    } else {
      assert AfterRelation(e, n) == AfterHop(e, n);
      ObjectTail(e, n, x);
      Flatten1(" " + ObjectName(e, n) + x);
    }
  }

  lemma Flatten1(a: string)
    ensures Flatten([a]) == a
  {
    assert [a][1..] == [];
  }

  lemma Flatten4(a: string, b: string, c: string, d: string)
    ensures Flatten([a, b, c, d]) == a + b + c + d
  {
    assert Flatten([d]) == d + Flatten([]) by {
      assert [d][1..] == [];
    }
    assert Flatten([c, d]) == c + Flatten([d]) by {
      assert [c, d][1..] == [d];
    }
    assert Flatten([b, c, d]) == b + Flatten([c, d]) by {
      assert [b, c, d][1..] == [c, d];
    }
    assert Flatten([a, b, c, d]) == a + Flatten([b, c, d]) by {
      assert [a, b, c, d][1..] == [b, c, d];
    }
    AppendAssociative(c, d, []);
    AppendAssociative(b, c, d);
    AppendAssociative(a, b + c, d);
    AppendAssociative(a, b, c);
  }

  lemma Flatten5(a: string, b: string, c: string, d: string, f: string)
    ensures Flatten([a, b, c, d, f]) == a + b + c + d + f
  {
    Flatten4(b, c, d, f);
    assert Flatten([a, b, c, d, f]) == a + Flatten([b, c, d, f]) by {
      assert [a, b, c, d, f][1..] == [b, c, d, f];
    }
    AppendAssociative(a, b + c + d, f);
    AppendAssociative(a, b + c, d);
    AppendAssociative(a, b, c);
  }

  /** The word starts with white space. */
  predicate SpaceLed(s: string)
  {
    |s| > 0 && IsSpace(s[0])
  }

  lemma SpaceLedWord(x: string)
    ensures SpaceLed(" " + x)
  {
  }

  /** Literal text of the templates with no placeholder in it. */
  lemma PlainLiterals()
    ensures NoMarker(" [") && NoMarker(" [base:time")
  {
  }

  /** A marked chain on four separated words is the chain on each. */
  lemma RewriteAllFour(a: string, b: string, c: string, d: string, ws: seq<Rewrite>)
    requires SpaceLed(b) && SpaceLed(c) && SpaceLed(d) && AllMarked(ws) && AllLiteral(ws)
    ensures RewriteAll(a + b + c + d, ws) == RewriteAll(a, ws) + RewriteAll(b, ws) + RewriteAll(c, ws) + RewriteAll(d, ws)
  {
    Flatten4(a, b, c, d);
    assert Separated([a, b, c, d]);
    RewriteAllFlatten([a, b, c, d], ws);
    assert RewriteAllEach([a, b, c, d], ws) == [RewriteAll(a, ws), RewriteAll(b, ws), RewriteAll(c, ws), RewriteAll(d, ws)];
    Flatten4(RewriteAll(a, ws), RewriteAll(b, ws), RewriteAll(c, ws), RewriteAll(d, ws));
  }

  lemma RewriteAllFive(a: string, b: string, c: string, d: string, f: string, ws: seq<Rewrite>)
    requires SpaceLed(b) && SpaceLed(c) && SpaceLed(d) && SpaceLed(f) && AllMarked(ws) && AllLiteral(ws)
    ensures RewriteAll(a + b + c + d + f, ws)
         == RewriteAll(a, ws) + RewriteAll(b, ws) + RewriteAll(c, ws) + RewriteAll(d, ws) + RewriteAll(f, ws)
  {
    Flatten5(a, b, c, d, f);
    assert Separated([a, b, c, d, f]);
    RewriteAllFlatten([a, b, c, d, f], ws);
    assert RewriteAllEach([a, b, c, d, f], ws)
        == [RewriteAll(a, ws), RewriteAll(b, ws), RewriteAll(c, ws), RewriteAll(d, ws), RewriteAll(f, ws)];
    Flatten5(RewriteAll(a, ws), RewriteAll(b, ws), RewriteAll(c, ws), RewriteAll(d, ws), RewriteAll(f, ws));
  }

  /** The hop-up text followed by `x`, cut into words. */
  lemma HopRegroup(x: string)
    ensures " " + EntityAbstract + x == " [" + (" " + "_:s") + " [" + (" " + HopUpPath) + (" " + "?e2" + ("]]" + x))
  {
    var b, d := " " + "_:s", " " + HopUpPath;
    var p := " " + "?e2";
    Flatten5("[", " _:s", " [", d, " ?e2]]");
    assert " _:s" == b;
    assert " ?e2]]" == p + "]]";
    assert " " + "[" == " [";
    Regroup(" ", "[", b, " [", d, p, "]]", x);
  }

  lemma Regroup(s0: string, a: string, b: string, c: string, d: string, p: string, q: string, x: string)
    ensures s0 + (a + b + c + d + (p + q)) + x == s0 + a + b + c + d + (p + (q + x))
  {
    AppendAssociative(p, q, x);
    AppendAssociative(a + b + c + d, p + q, x);
    AppendAssociative(s0, a + b + c + d + (p + q), x);
    AppendAssociative(s0, a + b + c + d, p + (q + x));
    AppendAssociative(s0, a + b + c, d);
    AppendAssociative(s0, a + b, c);
    AppendAssociative(s0, a, b);
  }

  lemma HopPathWord(e: Edge, n: string)
    ensures RewriteAll(" " + HopUpPath, AfterHop(e, n)) == " " + HopUpPath
  {
    AfterHopMarked(e, n);
    HopUpPathPlain();
    NoMarkerAppend(" ", HopUpPath);
    InertTextAll(" " + HopUpPath, AfterHop(e, n));
  }

  lemma HopObjectWord(e: Edge, n: string, x: string)
    requires NoMarker(n) && NoMarker(x) && IdsPlain(e)
    ensures RewriteAll(" " + "?e2" + ("]]" + x), AfterHop(e, n)) == " " + ObjectName(e, n) + ("]]" + x)
  {
    NoMarkerAppend("]]", x);
    ObjectTail(e, n, "]]" + x);
  }

  lemma ObjectHop(e: Edge, n: string, x: string)
    requires NoMarker(n) && NoMarker(x) && IdsPlain(e) && e.hopUp
    ensures RewriteAll(" " + "?e2" + x, AfterRelation(e, n)) == Flatten(ObjectWords(e, n, x))
  {
    var ws := AfterHop(e, n);
    var b, d, f := " " + "_:s", " " + HopUpPath, " " + "?e2" + ("]]" + x);
    ObjectHopEntry(e, n, x);
    ObjectHopSplit(e, n, x);
    BlankTail(e, n);
    HopPathWord(e, n);
    HopObjectWord(e, n, x);
    Flatten5(" [", " " + "_:s" + n, " [", d, " " + ObjectName(e, n) + ("]]" + x));
  }

  /** The hop up brings in the abstract entity text. */
  lemma ObjectHopEntry(e: Edge, n: string, x: string)
    requires NoMarker(x) && e.hopUp
    ensures RewriteAll(" " + "?e2" + x, AfterRelation(e, n))
         == RewriteAll(" [" + (" " + "_:s") + " [" + (" " + HopUpPath) + (" " + "?e2" + ("]]" + x)), AfterHop(e, n))
  {
    var r, ws := Replace("?e2", EntityAbstract), AfterHop(e, n);
    assert AfterRelation(e, n) == [r] + ws;
    RewriteAllCons(" " + "?e2" + x, r, ws);
    ObjectHopHit(x);
  }

  /** The hop-up substitution turns the object word into the hop-up text. */
  lemma ObjectHopHit(x: string)
    requires NoMarker(x)
    ensures Rewritten(" " + "?e2" + x, Replace("?e2", EntityAbstract))
         == " [" + (" " + "_:s") + " [" + (" " + HopUpPath) + (" " + "?e2" + ("]]" + x))
  {
    var v := "?e2";
    assert IsMarker(v[0]) && NoMarker(v[1..]);
    assert forall k :: 0 <= k < |v| ==> !IsSpace(v[k]);
    HitStep(v, x, EntityAbstract);
    HopRegroup(x);
  }

  /** The rest of the chain on the abstract entity text, word by word. */
  lemma ObjectHopSplit(e: Edge, n: string, x: string)
    ensures var ws, b, d, f := AfterHop(e, n), " " + "_:s", " " + HopUpPath, " " + "?e2" + ("]]" + x);
      RewriteAll(" [" + b + " [" + d + f, ws) == " [" + RewriteAll(b, ws) + " [" + RewriteAll(d, ws) + RewriteAll(f, ws)
  {
    var ws, b, d, f := AfterHop(e, n), " " + "_:s", " " + HopUpPath, " " + "?e2" + ("]]" + x);
    AfterHopMarked(e, n);
    SpaceLedWord("_:s");
    SpaceLedWord("[");
    SpaceLedWord(HopUpPath);
    SpaceLedWord("?e2" + ("]]" + x));
    AfterRelationLiteral(e, n);
    RewriteAllFive(" [", b, " [", d, f, ws);
    PlainLiterals();
    InertTextAll(" [", ws);
  }

  // ---------------------------------------------------------------------------
  // The restriction slot

  /** Every substitution's pattern starts with `?`. */
  predicate QuestionLed(ws: seq<Rewrite>)
  {
    forall k :: 0 <= k < |ws| ==> ws[k].RelationId? || (|ws[k].pat| > 0 && ws[k].pat[0] == '?')
  }

  predicate NoQuestion(s: string)
  {
    forall k :: 0 <= k < |s| ==> s[k] != '?'
  }

  lemma {:induction false} QuestionFree(s: string, ws: seq<Rewrite>)
    requires NoQuestion(s) && QuestionLed(ws)
    ensures RewriteAll(s, ws) == s
    decreases |ws|
  {
    if |ws| > 0 {
      if ws[0].Replace? {
        AbsentLead(s, ws[0].pat);
      }
      QuestionFree(s, ws[1..]);
    }
  }

  /** `%restriction%` is the only substitution touching its word. */
  lemma RestrictionSlot(rep: string)
    ensures ReplaceAll(" %restriction%", "%restriction%", rep) == " " + rep
  {
    var s, pat := " %restriction%", "%restriction%";
    DiffersAt(s, pat, 0);
    assert s[1..] == pat;
    assert StartsWith(pat, pat) by {
      assert pat[..|pat|] == pat;
    }
    assert pat[|pat|..] == [];
    assert ReplaceAll(pat, pat, rep) == rep + [];
  }

  lemma RestrictionWord(e: Edge, n: string)
    requires NoMarker(n)
    ensures RewriteAll(" %restriction%", Chain(e, n)) == Flatten(RestrictionWords(e, n))
  {
    RestrictionEarly(e, n);
    RestrictionLate(e, n);
  }

  lemma RestrictionEarly(e: Edge, n: string)
    ensures RewriteAll(" %restriction%", Chain(e, n)) == RewriteAll(" %restriction%", AfterHop(e, n))
  {
    var s := " %restriction%";
    RestrictionQuestionFree(e, n);
    RewriteAllAppend(s, RelationGroup(e, n), AfterRelation(e, n));
    RewriteAllAppend(s, HopUpGroup(e), AfterHop(e, n));
  }

  /** The relation and hop-up groups look for `?` only. */
  lemma RestrictionQuestionFree(e: Edge, n: string)
    ensures RewriteAll(" %restriction%", RelationGroup(e, n)) == " %restriction%"
    ensures RewriteAll(" %restriction%", HopUpGroup(e)) == " %restriction%"
  {
    var s := " %restriction%";
    assert NoQuestion(s);
    QuestionFree(s, RelationGroup(e, n));
    QuestionFree(s, HopUpGroup(e));
  }

  lemma RestrictionLate(e: Edge, n: string)
    requires NoMarker(n)
    ensures RewriteAll(" %restriction%", AfterHop(e, n)) == Flatten(RestrictionWords(e, n))
  {
    if e.argmax {
      assert AfterHop(e, n) == [Replace("%restriction%", TimeArgmax)] + (TimeGroup(n) + Late(e, n));
      RewriteAllCons(" %restriction%", Replace("%restriction%", TimeArgmax), TimeGroup(n) + Late(e, n));
      RestrictionSlot(TimeArgmax);
      TimeRest(e, n);
    } else {
      LateMarked(e, n);
      RewriteAllCons(" %restriction%", Replace("%restriction%", ""), Late(e, n));
      RestrictionSlot("");
      InertTextAll(" ", Late(e, n));
      Flatten1(" ");
    }
  }

  /** The time restriction cut into words. */
  lemma TimeRegroup()
    ensures " " + TimeArgmax == " " + "?m" + (" " + "?a") + " [base:time" + (" " + "?n" + "].")
  {
    Flatten4("?m", " ?a", " [base:time", " ?n].");
    assert " ?a" == " " + "?a";
    assert " ?n]." == " " + "?n" + "].";
    var b, d := " " + "?a", " " + "?n" + "].";
    AppendAssociative(" ", "?m" + b + " [base:time", d);
    AppendAssociative(" ", "?m" + b, " [base:time");
    AppendAssociative(" ", "?m", b);
  }

  lemma TimeRest(e: Edge, n: string)
    requires NoMarker(n) && e.argmax
    ensures RewriteAll(" " + TimeArgmax, TimeGroup(n) + Late(e, n)) == Flatten(RestrictionWords(e, n))
  {
    var ws := TimeGroup(n) + Late(e, n);
    var a, b, d := " " + "?m", " " + "?a", " " + "?n" + "].";
    assert RewriteAll(" " + TimeArgmax, ws)
        == RewriteAll(a, ws) + RewriteAll(b, ws) + RewriteAll(" [base:time", ws) + RewriteAll(d, ws) by {
      TimeRegroup();
      TimeGroupLateMarked(e, n);
      SpaceLedWord("?a");
      SpaceLedWord("[base:time");
      SpaceLedWord("?n" + "].");
      AfterRelationLiteral(e, n);
      RewriteAllFour(a, b, " [base:time", d, ws);
    }
    assert RewriteAll(" [base:time", ws) == " [base:time" by {
      TimeGroupLateMarked(e, n);
      PlainLiterals();
      InertTextAll(" [base:time", ws);
    }
    TimeWordM(e, n);
    TimeWordA(e, n);
    TimeWordN(e, n);
    Flatten4(" " + "?m" + n, " " + "?a" + n, " [base:time", " " + "?n" + n + "].");
  }

  lemma TimeGroupLateMarked(e: Edge, n: string)
    ensures AllMarked(TimeGroup(n) + Late(e, n))
  {
    RestrictionGroupMarked(e, n);
    LateMarked(e, n);
    AllMarkedAppend(TimeGroup(n), Late(e, n));
  }

  lemma TimeWordM(e: Edge, n: string)
    requires NoMarker(n)
    ensures RewriteAll(" " + "?m", TimeGroup(n) + Late(e, n)) == " " + "?m" + n
  {
    assert " " + "?m" + "" == " " + "?m";
    RestrictionGroupMarked(e, n);
    Pass("?m", "", TimeGroup(n), Late(e, n));
    NameMLate(e, n);
  }

  lemma TimeWordA(e: Edge, n: string)
    requires NoMarker(n)
    ensures RewriteAll(" " + "?a", TimeGroup(n) + Late(e, n)) == " " + "?a" + n
  {
    RewriteAllAppend(" " + "?a", TimeGroup(n), Late(e, n));
    TimeA(n);
    NumberedLate(e, n, "?a", n);
  }

  lemma TimeWordN(e: Edge, n: string)
    requires NoMarker(n)
    ensures RewriteAll(" " + "?n" + "].", TimeGroup(n) + Late(e, n)) == " " + "?n" + n + "]."
  {
    RewriteAllAppend(" " + "?n" + "].", TimeGroup(n), Late(e, n));
    TimeN(n);
    NoMarkerAppend(n, "].");
    NumberedLate(e, n, "?n", n + "].");
    AppendAssociative(" " + "?n", n, "].");
  }

  /** A numbered time variable is left alone by the rest of the chain. */
  lemma NumberedLate(e: Edge, n: string, v: string, x: string)
    requires (v == "?a" || v == "?n") && NoMarker(x)
    ensures RewriteAll(" " + v + x, Late(e, n)) == " " + v + x
  {
    LateMarked(e, n);
    LedWord(v, x);
    MissAllByLead(" " + v + x, Late(e, n));
  }

  // ---------------------------------------------------------------------------
  // The templates as slots, and what the chain makes of each

  /** One word of a relation template: literal text with no placeholder, the
      subject `?e1` or the object `?e2` followed by literal text, the name
      `?p` or `?m`, the relation variable with its shape letter, or the
      restriction slot. */
  datatype Slot =
    | Plain(text: string)
    | Subject(post: string)
    | Object(post: string)
    | Name(v: string)
    | Relation(letter: char)
    | Restriction

  function SlotText(t: Slot): string
  {
    match t
    case Plain(x) => x
    case Subject(post) => " " + "?e1" + post
    case Object(post) => " " + "?e2" + post
    case Name(v) => " " + v
    case Relation(l) => " " + "?r" + [l]
    case Restriction => " %restriction%"
  }

  predicate SlotOk(t: Slot)
  {
    match t
    case Plain(x) => NoMarker(x)
    case Subject(post) => NoMarker(post)
    case Object(post) => NoMarker(post)
    case Name(v) => v == "?p" || v == "?m"
    case Relation(l) => l in "drv"
    case Restriction => true
  }

  /** Well-formed slots, each but the first led by white space. */
  predicate SlotsOk(ts: seq<Slot>)
  {
    forall k :: 0 <= k < |ts| ==> SlotOk(ts[k]) && (k > 0 ==> SpaceLed(SlotText(ts[k])))
  }

  function Texts(ts: seq<Slot>): (r: seq<string>)
    ensures |r| == |ts|
  {
    seq(|ts|, k requires 0 <= k < |ts| => SlotText(ts[k]))
  }

  /** The words edge number `n` turns a slot into. */
  function Instance(e: Edge, n: string, t: Slot): seq<string>
  {
    match t
    case Plain(x) => [x]
    case Subject(post) => [" " + "?e1" + post]
    case Object(post) => ObjectWords(e, n, post)
    case Name(v) => [" " + v + n]
    case Relation(l) => [RelationInstance(e, n, l)]
    case Restriction => RestrictionWords(e, n)
  }

  function Expand(e: Edge, n: string, ts: seq<Slot>): seq<string>
    decreases |ts|
  {
    if |ts| == 0 then [] else Instance(e, n, ts[0]) + Expand(e, n, ts[1..])
  }

  lemma ChainMarked(e: Edge, n: string)
    ensures AllMarked(Chain(e, n))
  {
    EarlyGroupsMarked(e, n);
    AfterRelationMarked(e, n);
    AllMarkedAppend(RelationGroup(e, n), AfterRelation(e, n));
  }

  /** The chain on one slot's text. */
  lemma SlotWord(e: Edge, n: string, t: Slot)
    requires NoMarker(n) && IdsPlain(e) && SlotOk(t)
    ensures RewriteAll(SlotText(t), Chain(e, n)) == Flatten(Instance(e, n, t))
  {
    match t
    case Plain(x) =>
      ChainMarked(e, n);
      InertTextAll(x, Chain(e, n));
      Flatten1(x);
    case Subject(post) =>
      SubjectWord(e, n, post);
      Flatten1(" " + "?e1" + post);
    case Object(post) =>
      ObjectWord(e, n, post);
    case Name(v) =>
      if v == "?p" {
        NamePWord(e, n);
      } else {
        NameMWord(e, n);
      }
      Flatten1(" " + v + n);
    case Relation(l) =>
      RelationWord(e, n, l);
      Flatten1(RelationInstance(e, n, l));
    case Restriction =>
      RestrictionWord(e, n);
  }

  /** The chain over the slots' words, word by word. */
  lemma {:induction false} ExpandWords(e: Edge, n: string, ts: seq<Slot>)
    requires NoMarker(n) && IdsPlain(e) && forall k :: 0 <= k < |ts| ==> SlotOk(ts[k])
    ensures Flatten(RewriteAllEach(Texts(ts), Chain(e, n))) == Flatten(Expand(e, n, ts))
    decreases |ts|
  {
    if |ts| > 0 {
      var ws := Chain(e, n);
      var x := RewriteAll(SlotText(ts[0]), ws);
      ExpandWords(e, n, ts[1..]);
      EachTextsCons(ts, ws);
      FlattenAppend([x], RewriteAllEach(Texts(ts[1..]), ws));
      Flatten1(x);
      SlotWord(e, n, ts[0]);
      FlattenAppend(Instance(e, n, ts[0]), Expand(e, n, ts[1..]));
    }
  }

  lemma EachTextsCons(ts: seq<Slot>, ws: seq<Rewrite>)
    requires |ts| > 0
    ensures RewriteAllEach(Texts(ts), ws) == [RewriteAll(SlotText(ts[0]), ws)] + RewriteAllEach(Texts(ts[1..]), ws)
  {
  }

  lemma SlotsSeparated(ts: seq<Slot>)
    requires SlotsOk(ts)
    ensures Separated(Texts(ts))
  {
  }

  const DirectSlots: seq<Slot> :=
    [Plain("{GRAPH"), Plain(Statements), Plain(" {"), Subject(""), Name("?p"), Name("?m"), Plain(" ."),
     Name("?m"), Relation('d'), Object(""), Plain(" ."), Restriction, Plain(" }}")]
  const ReverseSlots: seq<Slot> :=
    [Plain("{GRAPH"), Plain(Statements), Plain(" {"), Object(""), Name("?p"), Name("?m"), Plain(" ."),
     Name("?m"), Relation('r'), Subject(""), Plain(" ."), Restriction, Plain(" }}")]
  const VStructureSlots: seq<Slot> :=
    [Plain("{GRAPH"), Plain(Statements), Plain(" {"), Name("?m"), Name("?p"), Object(""), Plain(" ."),
     Name("?m"), Relation('v'), Subject(""), Plain(" ."), Restriction, Plain(" }}")]
  /** The union template, cut after each of its three branches. */
  const UnionDirectSlots: seq<Slot> :=
    [Plain(NL + "{"),
     Plain(NL + "{GRAPH"), Plain(Statements), Plain(" {"), Subject(""), Name("?p"), Name("?m"), Plain(" ."),
     Name("?m"), Relation('d'), Object(""), Plain(" ."), Plain(" }}")]
  const UnionReverseSlots: seq<Slot> :=
    [Plain(NL + "UNION"),
     Plain(NL + "{GRAPH"), Plain(Statements), Plain(" {"), Object(""), Name("?p"), Name("?m"), Plain(" ."),
     Name("?m"), Relation('r'), Subject(""), Plain(" ."), Plain(" }}")]
  const UnionVStructureSlots: seq<Slot> :=
    [Plain(NL + "UNION"),
     Plain(NL + "{GRAPH"), Plain(Statements), Plain(" {"), Name("?m"), Name("?p"), Object("."),
     Name("?m"), Relation('v'), Subject("."), Plain(" }}}"),
     Plain(NL)]
  const UnionSlots: seq<Slot> := UnionDirectSlots + UnionReverseSlots + UnionVStructureSlots

  /** The slots of the template an edge starts from. */
  function EdgeSlots(e: Edge): seq<Slot>
  {
    match e.shape
    case Some(Direct) => DirectSlots
    case Some(Reverse) => ReverseSlots
    case Some(VStructure) => VStructureSlots
    case None => UnionSlots
  }

  /** The slot texts that are placeholders, as the templates spell them. */
  lemma SlotLiterals()
    ensures SlotText(Subject("")) == " ?e1" && SlotText(Object("")) == " ?e2"
    ensures SlotText(Subject(".")) == " ?e1." && SlotText(Object(".")) == " ?e2."
    ensures SlotText(Name("?p")) == " ?p" && SlotText(Name("?m")) == " ?m"
    ensures SlotText(Relation('d')) == " ?rd" && SlotText(Relation('r')) == " ?rr" && SlotText(Relation('v')) == " ?rv"
  {
  }

  /** The literal text of the templates holds no placeholder character. */
  lemma PlainTemplateLiterals()
    ensures NoMarker("{GRAPH") && NoMarker(Statements) && NoMarker(" {") && NoMarker(" .") && NoMarker(" }}")
    ensures NoMarker(" }}}") && NoMarker(NL) && NoMarker(NL + "{") && NoMarker(NL + "{GRAPH") && NoMarker(NL + "UNION")
  {
  }

  lemma DirectTexts()
    ensures Texts(DirectSlots) == DirectPieces && SlotsOk(DirectSlots)
  {
    DirectPiecesSpelled();
    DirectSlotsOk();
  }

  lemma DirectPiecesSpelled()
    ensures Texts(DirectSlots) == DirectPieces
  {
    SlotLiterals();
    assert Texts(DirectSlots) == DirectPieces;
  }

  lemma DirectSlotsOk()
    ensures SlotsOk(DirectSlots)
  {
    SlotLiterals();
    PlainTemplateLiterals();
  }

  lemma ReverseTexts()
    ensures Texts(ReverseSlots) == ReversePieces && SlotsOk(ReverseSlots)
  {
    ReversePiecesSpelled();
    ReverseSlotsOk();
  }

  lemma ReversePiecesSpelled()
    ensures Texts(ReverseSlots) == ReversePieces
  {
    SlotLiterals();
    assert Texts(ReverseSlots) == ReversePieces;
  }

  lemma ReverseSlotsOk()
    ensures SlotsOk(ReverseSlots)
  {
    SlotLiterals();
    PlainTemplateLiterals();
  }

  lemma VStructureTexts()
    ensures Texts(VStructureSlots) == VStructurePieces && SlotsOk(VStructureSlots)
  {
    VStructurePiecesSpelled();
    VStructureSlotsOk();
  }

  lemma VStructurePiecesSpelled()
    ensures Texts(VStructureSlots) == VStructurePieces
  {
    SlotLiterals();
    assert Texts(VStructureSlots) == VStructurePieces;
  }

  lemma VStructureSlotsOk()
    ensures SlotsOk(VStructureSlots)
  {
    SlotLiterals();
    PlainTemplateLiterals();
  }

  lemma UnionTexts()
    ensures Texts(UnionSlots) == UnionPieces && SlotsOk(UnionSlots)
  {
    var a, b, c := UnionDirectSlots, UnionReverseSlots, UnionVStructureSlots;
    UnionDirectTexts();
    UnionReverseTexts();
    UnionVStructureTexts();
    TextsAppend(a, b);
    TextsAppend(a + b, c);
    UnionPiecesCut();
    SlotsOkAppend(a, b);
    SlotsOkAppend(a + b, c);
  }

  const UnionDirectPieces: seq<string> :=
    [NL + "{", NL + "{GRAPH", Statements, " {", " ?e1", " ?p", " ?m", " .", " ?m", " ?rd", " ?e2", " .", " }}"]
  const UnionReversePieces: seq<string> :=
    [NL + "UNION", NL + "{GRAPH", Statements, " {", " ?e2", " ?p", " ?m", " .", " ?m", " ?rr", " ?e1", " .", " }}"]
  const UnionVStructurePieces: seq<string> :=
    [NL + "UNION", NL + "{GRAPH", Statements, " {", " ?m", " ?p", " ?e2.", " ?m", " ?rv", " ?e1.", " }}}", NL]

  lemma UnionPiecesCut()
    ensures UnionPieces == UnionDirectPieces + UnionReversePieces + UnionVStructurePieces
  {
  }

  lemma UnionDirectTexts()
    ensures Texts(UnionDirectSlots) == UnionDirectPieces && SlotsOk(UnionDirectSlots)
  {
    UnionDirectPiecesSpelled();
    UnionDirectSlotsOk();
  }

  lemma UnionDirectPiecesSpelled()
    ensures Texts(UnionDirectSlots) == UnionDirectPieces
  {
    SlotLiterals();
    assert Texts(UnionDirectSlots) == UnionDirectPieces;
  }

  lemma UnionDirectSlotsOk()
    ensures SlotsOk(UnionDirectSlots)
  {
    SlotLiterals();
    PlainTemplateLiterals();
  }

  lemma UnionReverseTexts()
    ensures Texts(UnionReverseSlots) == UnionReversePieces && SlotsOk(UnionReverseSlots)
    ensures SpaceLed(SlotText(UnionReverseSlots[0]))
  {
    UnionReversePiecesSpelled();
    UnionReverseSlotsOk();
  }

  lemma UnionReversePiecesSpelled()
    ensures Texts(UnionReverseSlots) == UnionReversePieces
  {
    SlotLiterals();
    assert Texts(UnionReverseSlots) == UnionReversePieces;
  }

  lemma UnionReverseSlotsOk()
    ensures SlotsOk(UnionReverseSlots)
    ensures SpaceLed(SlotText(UnionReverseSlots[0]))
  {
    SlotLiterals();
    PlainTemplateLiterals();
  }

  lemma UnionVStructureTexts()
    ensures Texts(UnionVStructureSlots) == UnionVStructurePieces && SlotsOk(UnionVStructureSlots)
    ensures SpaceLed(SlotText(UnionVStructureSlots[0]))
  {
    UnionVStructurePiecesSpelled();
    UnionVStructureSlotsOk();
  }

  lemma UnionVStructurePiecesSpelled()
    ensures Texts(UnionVStructureSlots) == UnionVStructurePieces
  {
    SlotLiterals();
    assert Texts(UnionVStructureSlots) == UnionVStructurePieces;
  }

  lemma UnionVStructureSlotsOk()
    ensures SlotsOk(UnionVStructureSlots)
    ensures SpaceLed(SlotText(UnionVStructureSlots[0]))
  {
    SlotLiterals();
    PlainTemplateLiterals();
  }

  lemma TextsAppend(a: seq<Slot>, b: seq<Slot>)
    ensures Texts(a + b) == Texts(a) + Texts(b)
  {
  }

  lemma SlotsOkAppend(a: seq<Slot>, b: seq<Slot>)
    requires SlotsOk(a) && SlotsOk(b) && (|b| > 0 ==> SpaceLed(SlotText(b[0])))
    ensures SlotsOk(a + b)
  {
    forall k | 0 <= k < |a + b|
      ensures SlotOk((a + b)[k]) && (k > 0 ==> SpaceLed(SlotText((a + b)[k])))
    {
      if k >= |a| {
        assert (a + b)[k] == b[k - |a|];
      }
    }
  }

  lemma EdgeTexts(e: Edge)
    ensures EdgeTemplate(e) == Flatten(Texts(EdgeSlots(e))) && SlotsOk(EdgeSlots(e))
  {
    match e.shape
    case Some(Direct) => DirectTexts();
    case Some(Reverse) => ReverseTexts();
    case Some(VStructure) => VStructureTexts();
    case None => UnionTexts();
  }

  /** What the substitution chain makes of an edge's template, word by word:
      the relation's id or the numbered relation variable, the object's id or
      the numbered object variable (reached through a numbered blank node with
      `hopUp`), numbered names, and the numbered time restriction or nothing. */
  lemma RelationPatternWords(e: Edge, i: nat)
    requires IdsPlain(e)
    ensures RelationPattern(e, i) == Flatten(Expand(e, DecimalString(i), EdgeSlots(e)))
  {
    var n := DecimalString(i);
    NumberPlain(i);
    EdgeRewritesInGroups(e, i);
    EdgeTexts(e);
    SlotsSeparated(EdgeSlots(e));
    ChainMarked(e, n);
    ChainLiteral(e, n);
    RewriteAllFlatten(Texts(EdgeSlots(e)), Chain(e, n));
    ExpandWords(e, n, EdgeSlots(e));
  }
}
