/** The gold-answer extractor of webquestions_io.py: `get_answers_from_question`
    returns every answer of a WebQuestions `targetValue` such as
    `(list (description Abduction) (description "New Moon"))`. The source
    does this with `re.findall("\(description \"?(.*?)\"?\)", ...)`; here the
    regular expression is written out as the left-to-right scan with
    backtracking that Python's engine performs. */
module GoldAnswers {
  import opened Wrappers
  import opened Text

  /** The literal text every match starts with. */
  const Opener := "(description "

  /** Does the text at position `p` start with the opener? */
  predicate OpenerAt(s: string, p: nat)
  {
    p + |Opener| <= |s| && s[p..p + |Opener|] == Opener
  }

  /** Can the lazy group `(.*?)` stop at `n`, i.e. does `"?\)` match at `n`?
      The optional quote is tried first. */
  predicate ClosesAt(s: string, n: nat)
  {
    n < |s| && (s[n] == ')' || (s[n] == '"' && n + 1 < |s| && s[n + 1] == ')'))
  }

  /** The lazy group `(.*?)` started at `n`: the first position at which
      `"?\)` matches, provided no line break comes before it (`.` does not
      match `\n`). */
  function GroupEnd(s: string, n: nat): (r: Option<nat>)
    requires n <= |s|
    ensures r.Some? ==> n <= r.value && ClosesAt(s, r.value)
    decreases |s| - n
  {
    if n == |s| then None
    else if ClosesAt(s, n) then Some(n)
    else if s[n] == '\n' then None
    else GroupEnd(s, n + 1)
  }

  /** The lazy group stops at the first position where `"?\)` matches and
      never crosses a line break; it fails only when a line break comes
      before every such position. */
  lemma {:induction false} GroupEndFirst(s: string, n: nat)
    requires n <= |s|
    ensures GroupEnd(s, n).Some? ==> forall k :: n <= k < GroupEnd(s, n).value ==> s[k] != '\n' && !ClosesAt(s, k)
    ensures GroupEnd(s, n).None? ==> forall k :: n <= k < |s| && ClosesAt(s, k) ==> exists j :: n <= j < k && s[j] == '\n'
    decreases |s| - n
  {
    if n < |s| && !ClosesAt(s, n) {
      if s[n] == '\n' {
        forall k | n <= k < |s| && ClosesAt(s, k)
          ensures exists j :: n <= j < k && s[j] == '\n'
        {
          assert s[n] == '\n';
        }
      } else {
        GroupEndFirst(s, n + 1);
      }
    }
  }

  /** One match: the captured group and the position after the match. */
  datatype Match = Match(item: string, end: nat)

  /** The match, if any, of the regular expression at exactly position `p`.
      The greedy `"?` first tries to take a quote after the opener; only when
      the rest of the pattern then fails is the quote left to the group. A
      closing quote directly before `)` is taken by the second `"?`. */
  function MatchAt(s: string, p: nat): (r: Option<Match>)
    requires p <= |s|
    ensures r.Some? <==> OpenerAt(s, p) && GroupEnd(s, p + |Opener|).Some?
    ensures r.Some? ==> p + |Opener| < r.value.end <= |s|
  {
    if !OpenerAt(s, p) then None
    else
      var q := p + |Opener|;
      if q < |s| && s[q] == '"' && GroupEnd(s, q + 1).Some? then
        Some(Closed(s, q + 1, GroupEnd(s, q + 1).value))
      else if GroupEnd(s, q).Some? then
        Some(Closed(s, q, GroupEnd(s, q).value))
      else None
  }

  /** The match whose group runs from `start` to `stop`; the closing quote,
      if any, is consumed with the parenthesis. */
  function Closed(s: string, start: nat, stop: nat): (m: Match)
    requires start <= stop && ClosesAt(s, stop)
    ensures stop < m.end <= |s|
  {
    Match(s[start..stop], if s[stop] == '"' then stop + 2 else stop + 1)
  }

  /** The captured group holds no `)` and no line break. */
  lemma MatchAtClean(s: string, p: nat)
    requires p <= |s| && MatchAt(s, p).Some?
    ensures Clean(MatchAt(s, p).value.item)
  {
    var q := p + |Opener|;
    if q < |s| && s[q] == '"' && GroupEnd(s, q + 1).Some? {
      GroupEndFirst(s, q + 1);
      CleanSlice(s, q + 1, GroupEnd(s, q + 1).value);
    } else {
      GroupEndFirst(s, q);
      CleanSlice(s, q, GroupEnd(s, q).value);
    }
  }

  lemma CleanSlice(s: string, start: nat, stop: nat)
    requires start <= stop <= |s|
    requires forall k :: start <= k < stop ==> s[k] != '\n' && !ClosesAt(s, k)
    ensures Clean(s[start..stop])
  {
    forall k | 0 <= k < stop - start
      ensures s[start..stop][k] != ')' && s[start..stop][k] != '\n'
    {
      assert s[start..stop][k] == s[start + k];
      assert !ClosesAt(s, start + k);
    }
  }

  /** A quote right after the opener is never part of the answer: the group
      starts after it. */
  lemma MatchAtQuoted(s: string, p: nat)
    requires p <= |s| && MatchAt(s, p).Some?
    requires p + |Opener| < |s| && s[p + |Opener|] == '"'
    ensures GroupEnd(s, p + |Opener| + 1).Some?
    ensures MatchAt(s, p).value.item == s[p + |Opener| + 1..GroupEnd(s, p + |Opener| + 1).value]
  {
    QuoteLeftOnlyWhenUnclosed(s, p + |Opener|);
  }

  /** Match `m` ends with `)`. A quote directly before that `)` is not part
      of the answer: it is taken by the closing `"?`, and the answer ends
      before it; otherwise the answer ends right before the `)`. */
  predicate EndsAnswer(s: string, m: Match)
  {
    2 <= m.end <= |s| && s[m.end - 1] == ')'
    && (s[m.end - 2] == '"' ==> |m.item| <= m.end - 2 && s[m.end - 2 - |m.item|..m.end - 2] == m.item)
    && (s[m.end - 2] != '"' ==> |m.item| <= m.end - 1 && s[m.end - 1 - |m.item|..m.end - 1] == m.item)
  }

  /** Every match ends its answer that way. */
  lemma MatchAtCloses(s: string, p: nat)
    requires p <= |s| && MatchAt(s, p).Some?
    ensures EndsAnswer(s, MatchAt(s, p).value)
  {
    var start, stop := MatchGroup(s, p);
    ClosedEnd(s, start, stop);
  }

  /** The group of a match at `p`: it starts after the opener and its
      optional quote, and stops at the first closing place. */
  lemma MatchGroup(s: string, p: nat) returns (start: nat, stop: nat)
    requires p <= |s| && MatchAt(s, p).Some?
    ensures 0 < start <= stop && ClosesAt(s, stop)
    ensures forall k :: start <= k < stop ==> !ClosesAt(s, k)
    ensures MatchAt(s, p).value == Closed(s, start, stop)
  {
    var q := p + |Opener|;
    start := if q < |s| && s[q] == '"' && GroupEnd(s, q + 1).Some? then q + 1 else q;
    stop := GroupEnd(s, start).value;
    GroupEndFirst(s, start);
  }

  /** The end of a group that stops at the first place `"?\)` matches. */
  lemma ClosedEnd(s: string, start: nat, stop: nat)
    requires 0 < start <= stop && ClosesAt(s, stop)
    requires forall k :: start <= k < stop ==> !ClosesAt(s, k)
    ensures EndsAnswer(s, Closed(s, start, stop))
  {
    if s[stop] != '"' && start < stop {
      assert !ClosesAt(s, stop - 1);
    }
  }

  /** When the text after the opener starts with a quote, the group without
      that quote closes whenever the group with it does: the second
      alternative of `"?` never has to be used for a quoted answer. */
  lemma QuoteLeftOnlyWhenUnclosed(s: string, q: nat)
    requires q < |s| && GroupEnd(s, q).Some?
    ensures s[q] == '"' ==> GroupEnd(s, q + 1).Some?
  {
    if s[q] == '"' && GroupEnd(s, q).value == q {
      assert ClosesAt(s, q + 1);
    }
  }

  /** A matcher: the match, if any, that starts at each position. */
  type Matcher = nat -> Option<Match>

  /** Every match of `f` before `n` ends after it starts and no later than `n`. */
  ghost predicate Advances(f: Matcher, n: nat)
  {
    forall k: nat :: k < n && f(k).Some? ==> k < f(k).value.end <= n
  }

  /** The groups of the successive non-overlapping matches of `f` from `p`
      up to `n`, each search resuming after the previous match. */
  function Scan(f: Matcher, n: nat, p: nat): seq<string>
    requires p <= n && Advances(f, n)
    decreases n - p
  {
    if p == n then []
    else
      match f(p)
      case Some(m) => [m.item] + Scan(f, n, m.end)
      case None => Scan(f, n, p + 1)
  }

  lemma ScanHit(f: Matcher, n: nat, p: nat)
    requires p < n && Advances(f, n) && f(p).Some?
    ensures Scan(f, n, p) == [f(p).value.item] + Scan(f, n, f(p).value.end)
  {
  }

  lemma ScanMiss(f: Matcher, n: nat, p: nat)
    requires p < n && Advances(f, n) && f(p).None?
    ensures Scan(f, n, p) == Scan(f, n, p + 1)
  {
  }

  /** The regular expression tried at each position of `s`. */
  function MatcherOf(s: string): (f: Matcher)
    ensures Advances(f, |s|)
  {
    var f := (k: nat) => if k <= |s| then MatchAt(s, k) else None;
    assert forall k: nat :: k < |s| && f(k).Some? ==> k < f(k).value.end <= |s|;
    f
  }

  /** `re.findall` from position `p` on: no answer contains a closing
      parenthesis or a line break. */
  function FindAll(s: string, p: nat): (r: seq<string>)
    requires p <= |s|
    ensures forall i :: 0 <= i < |r| ==> Clean(r[i])
  {
    ScanClean(s, p);
    Scan(MatcherOf(s), |s|, p)
  }

  /** The search of `re.findall` over `s` from `p` finds only clean groups. */
  lemma {:induction false} ScanClean(s: string, p: nat)
    requires p <= |s|
    ensures forall i :: 0 <= i < |Scan(MatcherOf(s), |s|, p)| ==> Clean(Scan(MatcherOf(s), |s|, p)[i])
    decreases |s| - p
  {
    var f := MatcherOf(s);
    if p < |s| {
      assert f(p) == MatchAt(s, p);
      if MatchAt(s, p).Some? {
        ScanHit(f, |s|, p);
        MatchAtClean(s, p);
        ScanClean(s, MatchAt(s, p).value.end);
      } else {
        ScanMiss(f, |s|, p);
        ScanClean(s, p + 1);
      }
    }
  }

  /** No closing parenthesis and no line break. */
  predicate Clean(x: string)
  {
    forall k :: 0 <= k < |x| ==> x[k] != ')' && x[k] != '\n'
  }

  /** The number of positions from `p` on where the opener occurs. */
  function OpenerCount(s: string, p: nat): nat
    requires p <= |s|
    decreases |s| - p
  {
    if p == |s| then 0 else (if OpenerAt(s, p) then 1 else 0) + OpenerCount(s, p + 1)
  }

  lemma {:induction false} OpenerCountMonotone(s: string, p: nat, q: nat)
    requires p <= q <= |s|
    ensures OpenerCount(s, q) <= OpenerCount(s, p)
    decreases q - p
  {
    if p < q {
      OpenerCountMonotone(s, p + 1, q);
    }
  }

  /** There are never more answers than occurrences of `(description `. */
  lemma {:induction false} AnswersBoundedByOpeners(s: string, p: nat)
    requires p <= |s|
    ensures |FindAll(s, p)| <= OpenerCount(s, p)
    decreases |s| - p
  {
    if p < |s| {
      match MatchAt(s, p)
      case Some(m) =>
        AnswersBoundedByOpeners(s, m.end);
        OpenerCountMonotone(s, p + 1, m.end);
      case None =>
        AnswersBoundedByOpeners(s, p + 1);
    }
  }

  /** A text without `(description ` has no answers. */
  lemma NoOpenerNoAnswers(s: string)
    requires forall p :: 0 <= p <= |s| ==> !OpenerAt(s, p)
    ensures FindAll(s, 0) == []
  {
    NoOpenerFrom(s, 0);
  }

  lemma {:induction false} NoOpenerFrom(s: string, p: nat)
    requires p <= |s|
    requires forall k :: p <= k <= |s| ==> !OpenerAt(s, k)
    ensures FindAll(s, p) == []
    decreases |s| - p
  {
    if p < |s| {
      NoOpenerFrom(s, p + 1);
    }
  }

  lemma FindAllEnd(s: string, p: nat)
    requires p == |s|
    ensures FindAll(s, p) == []
  {
  }

  /** A match at `p` contributes its group, and the search resumes after it. */
  lemma FindAllHit(s: string, p: nat)
    requires p < |s| && MatchAt(s, p).Some?
    ensures FindAll(s, p) == [MatchAt(s, p).value.item] + FindAll(s, MatchAt(s, p).value.end)
  {
  }

  /** Without a match at `p` the search moves on by one. */
  lemma FindAllMiss(s: string, p: nat)
    requires p < |s| && MatchAt(s, p).None?
    ensures FindAll(s, p) == FindAll(s, p + 1)
  {
  }

  // ---------------------------------------------------------------------------
  // Writing answers as a WebQuestions `targetValue` and reading them back

  /** An answer as it is written in the dataset: bare, or in double quotes. */
  datatype Answer = Bare(text: string) | Quoted(text: string)

  /** `(description X)` or `(description "X")`, after a separating space. */
  function Description(x: Answer): string
  {
    match x
    case Bare(t) => " (description " + t + ")"
    case Quoted(t) => " (description \"" + t + "\")"
  }

  function Descriptions(xs: seq<Answer>): string
    decreases |xs|
  {
    if |xs| == 0 then [] else Description(xs[0]) + Descriptions(xs[1..])
  }

  /** The `targetValue` listing the answers `xs`. */
  function TargetValue(xs: seq<Answer>): string
  {
    "(list" + Descriptions(xs) + ")"
  }

  /** An answer the extractor reads back unchanged: no `)` or line break in
      it, and, when it is written bare, no quote at either end. */
  predicate Readable(x: Answer)
  {
    (forall k :: 0 <= k < |x.text| ==> x.text[k] != ')' && x.text[k] != '\n')
    && (x.Bare? && |x.text| > 0 ==> x.text[0] != '"' && x.text[|x.text| - 1] != '"')
  }

  /** The group of a written answer closes right at the end of the answer. */
  lemma {:induction false} GroupEndOfText(s: string, start: nat, t: string)
    requires start + |t| < |s| && s[start..start + |t|] == t
    requires forall k :: 0 <= k < |t| ==> t[k] != ')' && t[k] != '\n'
    requires |t| > 0 && t[|t| - 1] == '"' ==> s[start + |t|] != ')'
    requires ClosesAt(s, start + |t|)
    ensures GroupEnd(s, start) == Some(start + |t|)
    decreases |t|
  {
    if |t| > 0 {
      assert s[start] == t[0];
      if |t| > 1 {
        assert s[start + 1] == t[1];
      } else {
        assert s[start + 1] == s[start + |t|];
      }
      assert !ClosesAt(s, start);
      assert s[start + 1..start + 1 + |t[1..]|] == t[1..];
      GroupEndOfText(s, start + 1, t[1..]);
    }
  }

  /** The search skips positions where the opener does not occur. */
  lemma {:induction false} SkipNonOpeners(s: string, p: nat, q: nat)
    requires p <= q <= |s|
    requires forall k :: p <= k < q ==> !OpenerAt(s, k)
    ensures FindAll(s, p) == FindAll(s, q)
    decreases q - p
  {
    if p < q {
      SkipNonOpeners(s, p + 1, q);
    }
  }

  /** The written answer `d` sits at position `k` of `s`: so do its parts. */
  lemma SliceAt(s: string, k: nat, d: string, i: nat, j: nat)
    requires k + |d| <= |s| && s[k..k + |d|] == d
    requires i <= j <= |d|
    ensures s[k + i..k + j] == d[i..j]
  {
    forall m | 0 <= m < j - i
      ensures s[k + i..k + j][m] == d[i..j][m]
    {
      assert s[k + i + m] == s[k..k + |d|][i + m];
    }
  }

  lemma CharAt(s: string, k: nat, d: string, i: nat)
    requires k + |d| <= |s| && s[k..k + |d|] == d
    requires i < |d|
    ensures s[k + i] == d[i]
  {
    assert s[k + i] == s[k..k + |d|][i];
  }

  /** The layout of a quoted answer: space, opener, quote, text, quote, `)`. */
  lemma QuotedLayout(t: string)
    ensures |Description(Quoted(t))| == |Opener| + |t| + 4
    ensures Description(Quoted(t))[1..1 + |Opener|] == Opener
    ensures Description(Quoted(t))[1 + |Opener|] == '"'
    ensures Description(Quoted(t))[2 + |Opener|..2 + |Opener| + |t|] == t
    ensures Description(Quoted(t))[2 + |Opener| + |t|] == '"'
    ensures Description(Quoted(t))[3 + |Opener| + |t|] == ')'
  {
  }

  /** The layout of a bare answer: space, opener, text, `)`. */
  lemma BareLayout(t: string)
    ensures |Description(Bare(t))| == |Opener| + |t| + 2
    ensures Description(Bare(t))[1..1 + |Opener|] == Opener
    ensures Description(Bare(t))[1 + |Opener|..1 + |Opener| + |t|] == t
    ensures Description(Bare(t))[1 + |Opener| + |t|] == ')'
    ensures |t| > 0 ==> Description(Bare(t))[1 + |Opener|] == t[0]
  {
  }

  /** A quoted answer written at `k` is matched from its opener on, quotes
      dropped. */
  lemma MatchQuoted(s: string, k: nat, t: string)
    requires Readable(Quoted(t))
    requires k + |Description(Quoted(t))| <= |s| && s[k..k + |Description(Quoted(t))|] == Description(Quoted(t))
    ensures MatchAt(s, k + 1) == Some(Match(t, k + |Description(Quoted(t))|))
  {
    var d := Description(Quoted(t));
    var q := k + 1 + |Opener|;
    QuotedLayout(t);
    SliceAt(s, k, d, 1, 1 + |Opener|);
    CharAt(s, k, d, 1 + |Opener|);
    SliceAt(s, k, d, 2 + |Opener|, 2 + |Opener| + |t|);
    CharAt(s, k, d, 2 + |Opener| + |t|);
    CharAt(s, k, d, 3 + |Opener| + |t|);
    GroupEndOfText(s, q + 1, t);
  }

  /** A bare answer written at `k` is matched from its opener on. */
  lemma MatchBare(s: string, k: nat, t: string)
    requires Readable(Bare(t))
    requires k + |Description(Bare(t))| <= |s| && s[k..k + |Description(Bare(t))|] == Description(Bare(t))
    ensures MatchAt(s, k + 1) == Some(Match(t, k + |Description(Bare(t))|))
  {
    var d := Description(Bare(t));
    var q := k + 1 + |Opener|;
    BareLayout(t);
    SliceAt(s, k, d, 1, 1 + |Opener|);
    SliceAt(s, k, d, 1 + |Opener|, 1 + |Opener| + |t|);
    CharAt(s, k, d, 1 + |Opener| + |t|);
    if |t| > 0 {
      CharAt(s, k, d, 1 + |Opener|);
    }
    GroupEndOfText(s, q, t);
  }

  /** The match at and after the start of one written answer at position `k`
      of a text: none at its leading space, then the answer itself, ending
      right after the answer. */
  lemma DescriptionMatches(s: string, k: nat, x: Answer)
    requires Readable(x)
    requires k + |Description(x)| <= |s| && s[k..k + |Description(x)|] == Description(x)
    ensures MatchAt(s, k).None?
    ensures MatchAt(s, k + 1) == Some(Match(x.text, k + |Description(x)|))
  {
    DescriptionNotOpener(s, k, x);
    match x
    case Quoted(t) => MatchQuoted(s, k, t);
    case Bare(t) => MatchBare(s, k, t);
  }

  /** A written answer starts with a space, not with the opener. */
  lemma DescriptionNotOpener(s: string, k: nat, x: Answer)
    requires k + |Description(x)| <= |s| && s[k..k + |Description(x)|] == Description(x)
    ensures !OpenerAt(s, k)
  {
    assert s[k] == s[k..k + |Description(x)|][0] == ' ';
  }

  /** What a matcher must do for the run `xs` written from position `k` on:
      match nothing at each answer's leading space, then match the answer up
      to its end. */
  ghost predicate Reads(f: Matcher, k: nat, xs: seq<Answer>)
    decreases |xs|
  {
    |xs| == 0 ||
    (f(k).None? && f(k + 1) == Some(Match(xs[0].text, k + |Description(xs[0])|))
     && Reads(f, k + |Description(xs[0])|, xs[1..]))
  }

  /** The readable answer `x` is written at position `k` of `s`. */
  ghost predicate WrittenAt(s: string, k: nat, x: Answer)
  {
    Readable(x) && k + |Description(x)| <= |s| && s[k..k + |Description(x)|] == Description(x)
  }

  /** `f` reads every answer written anywhere in `s` the way `Reads` asks. */
  ghost predicate ReadsEach(f: Matcher, s: string)
  {
    forall k: nat, x: Answer :: WrittenAt(s, k, x) ==>
      f(k).None? && f(k + 1) == Some(Match(x.text, k + |Description(x)|))
  }

  /** The text's own matcher reads each answer written in it. */
  lemma MatcherReadsEach(s: string)
    ensures ReadsEach(MatcherOf(s), s)
  {
    forall k: nat, x: Answer | WrittenAt(s, k, x)
      ensures MatcherOf(s)(k).None? && MatcherOf(s)(k + 1) == Some(Match(x.text, k + |Description(x)|))
    {
      DescriptionMatches(s, k, x);
    }
  }

  /** A matcher that reads each answer written in `s` reads the single answer
      written at `k`. */
  lemma ReadsEachAt(f: Matcher, s: string, k: nat, x: Answer, e: nat)
    requires ReadsEach(f, s) && Readable(x)
    requires e == k + |Description(x)| && e <= |s| && s[k..e] == Description(x)
    ensures f(k).None? && f(k + 1) == Some(Match(x.text, e))
  {
    assert WrittenAt(s, k, x);
  }

  /** A run of readable answers written from `k` to `e` of a text is read as
      a run by any matcher that reads each answer written in the text. */
  lemma {:induction false} DescriptionsRead(f: Matcher, s: string, k: nat, e: nat, xs: seq<Answer>)
    requires ReadsEach(f, s)
    requires forall i :: 0 <= i < |xs| ==> Readable(xs[i])
    requires e == k + |Descriptions(xs)| && e <= |s| && s[k..e] == Descriptions(xs)
    ensures Reads(f, k, xs)
    decreases |xs|
  {
    if |xs| > 0 {
      var mid := DescriptionsAt(s, k, e, xs);
      ReadsEachAt(f, s, k, xs[0], mid);
      assert forall i :: 0 <= i < |xs[1..]| ==> Readable(xs[1..][i]);
      DescriptionsRead(f, s, mid, e, xs[1..]);
      ReadsStep(f, k, mid, xs);
    }
  }

  lemma ReadsStep(f: Matcher, k: nat, next: nat, xs: seq<Answer>)
    requires |xs| > 0 && next == k + |Description(xs[0])|
    requires f(k).None? && f(k + 1) == Some(Match(xs[0].text, next))
    requires Reads(f, next, xs[1..])
    ensures Reads(f, k, xs)
  {
  }

  /** Any matcher that reads a run that way returns the run's answers in
      order, and resumes right after the run. */
  lemma {:induction false} ScanReads(f: Matcher, n: nat, k: nat, e: nat, xs: seq<Answer>)
    requires Advances(f, n) && e == k + |Descriptions(xs)| && e <= n && Reads(f, k, xs)
    ensures Scan(f, n, k) == Texts(xs) + Scan(f, n, e)
    decreases |xs|
  {
    if |xs| == 0 {
      NoDescriptions(xs, Scan(f, n, k));
    } else {
      var next := ReadsHead(f, n, k, xs);
      ScanReads(f, n, next, e, xs[1..]);
      TextsStep(xs, Scan(f, n, k), Scan(f, n, next), Scan(f, n, e));
    }
  }

  /** A matcher that reads a run skips the first answer's leading space, then
      returns its text and resumes at `next`, where the rest of the run starts. */
  lemma ReadsHead(f: Matcher, n: nat, k: nat, xs: seq<Answer>) returns (next: nat)
    requires Advances(f, n) && k + |Descriptions(xs)| <= n && Reads(f, k, xs) && |xs| > 0
    ensures next == k + |Description(xs[0])|
    ensures Scan(f, n, k) == [xs[0].text] + Scan(f, n, next)
    ensures next + |Descriptions(xs[1..])| == k + |Descriptions(xs)| && Reads(f, next, xs[1..])
  {
    next := k + |Description(xs[0])|;
    DescriptionsLength(xs);
    SkipThenHit(f, n, k, xs[0].text, next);
  }

  /** A position where nothing matches, then a match of `t` up to `e`. */
  lemma SkipThenHit(f: Matcher, n: nat, k: nat, t: string, e: nat)
    requires Advances(f, n) && k + 1 < e <= n
    requires f(k).None? && f(k + 1) == Some(Match(t, e))
    ensures Scan(f, n, k) == [t] + Scan(f, n, e)
  {
    ScanMiss(f, n, k);
    ScanHit(f, n, k + 1);
  }

  lemma DescriptionsLength(xs: seq<Answer>)
    requires |xs| > 0
    ensures |Descriptions(xs)| == |Description(xs[0])| + |Descriptions(xs[1..])|
    ensures |Description(xs[0])| > 1
  {
  }

  lemma NoDescriptions(xs: seq<Answer>, found: seq<string>)
    requires |xs| == 0
    ensures |Descriptions(xs)| == 0 && found == Texts(xs) + found
  {
  }

  /** The texts of a run are the first answer's text followed by the others'. */
  lemma TextsStep(xs: seq<Answer>, here: seq<string>, next: seq<string>, after: seq<string>)
    requires |xs| > 0
    requires here == [xs[0].text] + next && next == Texts(xs[1..]) + after
    ensures here == Texts(xs) + after
  {
    assert Texts(xs) == [xs[0].text] + Texts(xs[1..]);
    AppendAssociative([xs[0].text], Texts(xs[1..]), after);
  }

  /** A run of written answers at `k` is its first answer at `k` followed by
      the rest of the run. */
  lemma DescriptionsAt(s: string, k: nat, e: nat, xs: seq<Answer>) returns (mid: nat)
    requires |xs| > 0
    requires e == k + |Descriptions(xs)| && e <= |s| && s[k..e] == Descriptions(xs)
    ensures mid == k + |Description(xs[0])| && s[k..mid] == Description(xs[0])
    ensures e == mid + |Descriptions(xs[1..])| && s[mid..e] == Descriptions(xs[1..])
  {
    mid := k + |Description(xs[0])|;
    SliceSplit(s, k, Description(xs[0]), Descriptions(xs[1..]));
  }

  lemma SliceSplit(s: string, k: nat, a: string, b: string)
    requires k + |a + b| <= |s| && s[k..k + |a + b|] == a + b
    ensures s[k..k + |a|] == a && s[k + |a|..k + |a + b|] == b
  {
    assert s[k..k + |a|] == (a + b)[..|a|];
    assert s[k + |a|..k + |a + b|] == (a + b)[|a|..];
  }

  /** The texts of the answers, in order. */
  function Texts(xs: seq<Answer>): (r: seq<string>)
    ensures |r| == |xs| && forall i :: 0 <= i < |xs| ==> r[i] == xs[i].text
    decreases |xs|
  {
    if |xs| == 0 then [] else [xs[0].text] + Texts(xs[1..])
  }

  /** Round trip: the extractor returns exactly the answers a `targetValue`
      lists, in order, whichever of them are quoted. */
  lemma ReadTargetValue(xs: seq<Answer>)
    requires forall i :: 0 <= i < |xs| ==> Readable(xs[i])
    ensures FindAll(TargetValue(xs), 0) == Texts(xs)
  {
    var e := 5 + |Descriptions(xs)|;
    TargetValueShape(xs, e);
    TargetValueRead(TargetValue(xs), e, xs);
  }

  /** Any text laid out as `(list`, the run, and one closing character reads
      as the run's answers. */
  lemma TargetValueRead(s: string, e: nat, xs: seq<Answer>)
    requires forall i :: 0 <= i < |xs| ==> Readable(xs[i])
    requires e == 5 + |Descriptions(xs)| && |s| == e + 1
    requires s[..5] == "(list" && s[5..e] == Descriptions(xs)
    ensures FindAll(s, 0) == Texts(xs)
  {
    ListHeadSkipped(s);
    RunRead(s, 5, e, xs);
    NothingInClosingParen(s, e);
    assert Texts(xs) + [] == Texts(xs);
  }

  /** The search over a text in which the run `xs` is written from `k` to `e`
      finds the run's answers, then goes on at `e`. */
  lemma RunRead(s: string, k: nat, e: nat, xs: seq<Answer>)
    requires forall i :: 0 <= i < |xs| ==> Readable(xs[i])
    requires e == k + |Descriptions(xs)| && e <= |s| && s[k..e] == Descriptions(xs)
    ensures FindAll(s, k) == Texts(xs) + FindAll(s, e)
  {
    MatcherReadsEach(s);
    ScanRun(MatcherOf(s), s, k, e, xs);
  }

  /** Any matcher that reads each answer written in `s` reads a whole run
      written in it. */
  lemma ScanRun(f: Matcher, s: string, k: nat, e: nat, xs: seq<Answer>)
    requires Advances(f, |s|) && ReadsEach(f, s)
    requires forall i :: 0 <= i < |xs| ==> Readable(xs[i])
    requires e == k + |Descriptions(xs)| && e <= |s| && s[k..e] == Descriptions(xs)
    ensures Scan(f, |s|, k) == Texts(xs) + Scan(f, |s|, e)
  {
    DescriptionsRead(f, s, k, e, xs);
    ScanReads(f, |s|, k, e, xs);
  }

  lemma TargetValueShape(xs: seq<Answer>, e: nat)
    requires e == 5 + |Descriptions(xs)|
    ensures |TargetValue(xs)| == e + 1
    ensures TargetValue(xs)[..5] == "(list"
    ensures TargetValue(xs)[5..e] == Descriptions(xs)
  {
  }

  /** Nothing is found in the `(list` that heads a `targetValue`. */
  lemma ListHeadSkipped(s: string)
    requires 5 <= |s| && s[..5] == "(list"
    ensures FindAll(s, 0) == FindAll(s, 5)
  {
    forall p | 0 <= p < 5
      ensures !OpenerAt(s, p)
    {
      ListHeadNotOpener(s, p);
    }
    SkipNonOpeners(s, 0, 5);
  }

  lemma ListHeadNotOpener(s: string, p: nat)
    requires 5 <= |s| && s[..5] == "(list" && p < 5
    ensures !OpenerAt(s, p)
  {
    if p + |Opener| <= |s| {
      assert s[p] == s[..5][p];
      if p == 0 {
        assert s[1] == s[..5][1];
        assert s[p..p + |Opener|][1] == s[1];
      } else {
        assert s[p..p + |Opener|][0] == s[p];
      }
    }
  }

  /** Nothing is found in the last character of a text: it is too short for
      the opener. */
  lemma NothingInClosingParen(s: string, e: nat)
    requires |s| == e + 1
    ensures FindAll(s, e) == []
  {
    FindAllMiss(s, e);
    FindAllEnd(s, |s|);
  }

  // ---------------------------------------------------------------------------
  // get_answers_from_question

  /** `question_object.get('targetValue')` is `None`, and `re.findall` raises. */
  datatype ExtractError = MissingTargetValue

  /** `get_answers_from_question(question_object)`. */
  function AnswersFromQuestion(question: map<string, string>): (r: Result<seq<string>, ExtractError>)
    ensures r.Failure? <==> "targetValue" !in question
    ensures r.Success? ==> forall i :: 0 <= i < |r.value| ==> Clean(r.value[i])
  {
    if "targetValue" in question then
      Success(FindAll(question["targetValue"], 0))
    else Failure(MissingTargetValue)
  }

  /** The first example of the docstring (webquestions_io.py:10-11); the
      `targetValue` is written as its list head, its one description and the
      closing parenthesis. */
  lemma QuotedAnswerExample()
    ensures AnswersFromQuestion(map[
      "url" := "http://www.freebase.com/view/en/natalie_portman",
      "targetValue" := "(list" + " (description \"Padm\U{e9} Amidala\")" + ")",
      "utterance" := "what character did natalie portman play in star wars?"])
      == Success(["Padm\U{e9} Amidala"])
  {
    var xs := [Quoted("Padm\U{e9} Amidala")];
    ReadableExamples();
    DescriptionExamples();
    assert Descriptions(xs) == Description(xs[0]) + [];
    assert Description(xs[0]) + [] == Description(xs[0]);
    ReadTargetValue(xs);
    var lit := "(list" + " (description \"Padm\U{e9} Amidala\")" + ")";
    assert TargetValue(xs) == lit;
    assert Texts(xs) == ["Padm\U{e9} Amidala"];
  }

  /** The second example of the docstring (webquestions_io.py:12-13): bare and
      quoted answers are all found, in order. */
  lemma MixedAnswersExample()
    ensures AnswersFromQuestion(map["targetValue" :=
      "(list" + " (description Abduction)" + " (description Eclipse)"
      + " (description \"Valentine's Day\")" + " (description \"New Moon\")" + ")"])
      == Success(["Abduction", "Eclipse", "Valentine's Day", "New Moon"])
  {
    var xs := [Bare("Abduction"), Bare("Eclipse"), Quoted("Valentine's Day"), Quoted("New Moon")];
    var d0, d1, d2, d3 := Description(xs[0]), Description(xs[1]), Description(xs[2]), Description(xs[3]);
    assert Descriptions(xs[3..]) == d3 + [];
    assert Descriptions(xs) == d0 + (d1 + (d2 + (d3 + [])));
    assert d3 + [] == d3;
    AppendAssociative("(list", d0, d1 + (d2 + d3));
    AppendAssociative("(list" + d0, d1, d2 + d3);
    AppendAssociative("(list" + d0 + d1, d2, d3);
    ReadableExamples();
    DescriptionExamples();
    ReadTargetValue(xs);
    var lit := "(list" + " (description Abduction)" + " (description Eclipse)"
      + " (description \"Valentine's Day\")" + " (description \"New Moon\")" + ")";
    assert TargetValue(xs) == lit;
    assert Texts(xs) == ["Abduction", "Eclipse", "Valentine's Day", "New Moon"];
  }

  lemma ReadableExamples()
    ensures Readable(Quoted("Padm\U{e9} Amidala"))
    ensures Readable(Bare("Abduction")) && Readable(Bare("Eclipse"))
    ensures Readable(Quoted("Valentine's Day")) && Readable(Quoted("New Moon"))
  {
    ReadableExample1();
    ReadableExample2();
    ReadableExample3();
    ReadableExample4();
    ReadableExample5();
  }

  lemma ReadableExample1() ensures Readable(Quoted("Padm\U{e9} Amidala")) {}
  lemma ReadableExample2() ensures Readable(Bare("Abduction")) {}
  lemma ReadableExample3() ensures Readable(Bare("Eclipse")) {}
  lemma ReadableExample4() ensures Readable(Quoted("Valentine's Day")) {}
  lemma ReadableExample5() ensures Readable(Quoted("New Moon")) {}

  lemma DescriptionExamples()
    ensures Description(Quoted("Padm\U{e9} Amidala")) == " (description \"Padm\U{e9} Amidala\")"
    ensures Description(Bare("Abduction")) == " (description Abduction)"
    ensures Description(Bare("Eclipse")) == " (description Eclipse)"
    ensures Description(Quoted("Valentine's Day")) == " (description \"Valentine's Day\")"
    ensures Description(Quoted("New Moon")) == " (description \"New Moon\")"
  {
    DescriptionExample1();
    DescriptionExample2();
    DescriptionExample3();
    DescriptionExample4();
    DescriptionExample5();
  }

  lemma DescriptionExample1()
    ensures Description(Quoted("Padm\U{e9} Amidala")) == " (description \"Padm\U{e9} Amidala\")"
  {
  }

  lemma DescriptionExample2()
    ensures Description(Bare("Abduction")) == " (description Abduction)"
  {
  }

  lemma DescriptionExample3()
    ensures Description(Bare("Eclipse")) == " (description Eclipse)"
  {
  }

  lemma DescriptionExample4()
    ensures Description(Quoted("Valentine's Day")) == " (description \"Valentine's Day\")"
  {
  }

  lemma DescriptionExample5()
    ensures Description(Quoted("New Moon")) == " (description \"New Moon\")"
  {
  }
}
