/** `map_query_results` and the pure part of `load_entity_map`: the values of
    the question variable are mapped to canonical answer strings through an
    index from entity id to labels, falling back to the id itself, and
    everything is lower-cased. The index is a parameter here; reading it from
    a file is not modelled. */
module AnswerMapping {
  import opened Wrappers
  import opened Text

  type Row = map<string, string>

  /** An `nltk.Index`: entity id to its labels, in the index's list order. */
  type EntityIndex = map<string, seq<string>>

  /** The row (by position) that lacks the question variable: `r[v]` raises. */
  datatype MapError = MissingVariable(row: nat)

  // ---------------------------------------------------------------------------
  // Step 1: the question variable's value in every row

  /** `[r[v] for r in rows]`, failing at the first row without `v`. */
  function QuestionValues(rows: seq<Row>, v: string): (r: Result<seq<string>, MapError>)
    ensures r.Success? <==> forall k :: 0 <= k < |rows| ==> v in rows[k]
    ensures r.Success? ==> |r.value| == |rows| && forall k :: 0 <= k < |rows| ==> r.value[k] == rows[k][v]
    ensures r.Failure? ==> r.error.row < |rows| && v !in rows[r.error.row]
    ensures r.Failure? ==> forall k :: 0 <= k < r.error.row ==> v in rows[k]
    decreases |rows|
  {
    if |rows| == 0 then Success([])
    else if v !in rows[0] then Failure(MissingVariable(0))
    else match QuestionValues(rows[1..], v)
      case Failure(MissingVariable(j)) => Failure(MissingVariable(j + 1))
      case Success(vs) => Success([rows[0][v]] + vs)
  }

  // ---------------------------------------------------------------------------
  // Step 2: fan out to labels, lower-cased

  /** `entity_map.get(a, [a])`. */
  function LabelsOf(index: EntityIndex, a: string): (r: seq<string>)
    ensures a !in index ==> r == [a]
    ensures a in index ==> r == index[a]
  {
    if a in index then index[a] else [a]
  }

  function LowerAll(xs: seq<string>): (r: seq<string>)
    ensures |r| == |xs|
    ensures forall k :: 0 <= k < |xs| ==> r[k] == Lower(xs[k])
  {
    seq(|xs|, k requires 0 <= k < |xs| => Lower(xs[k]))
  }

  /** `[e.lower() for a in answers for e in entity_map.get(a, [a])]`. */
  function Canonical(index: EntityIndex, answers: seq<string>): (r: seq<string>)
    ensures forall x :: x in r ==> !exists k :: 0 <= k < |x| && IsUpper(x[k])
    decreases |answers|
  {
    if |answers| == 0 then []
    else LowerAll(LabelsOf(index, answers[0])) + Canonical(index, answers[1..])
  }

  /** `map_query_results(rows, v)` against the given index. */
  function MapQueryResults(rows: seq<Row>, v: string, index: EntityIndex): (r: Result<seq<string>, MapError>)
    ensures r.Failure? <==> exists k :: 0 <= k < |rows| && v !in rows[k]
    ensures r.Failure? ==> r.error == QuestionValues(rows, v).error
    ensures forall x :: r.Success? && x in r.value ==> !exists k :: 0 <= k < |x| && IsUpper(x[k])
  {
    match QuestionValues(rows, v)
    case Failure(e) => Failure(e)
    case Success(answers) =>
      Success(Canonical(index, answers))
  }

  // ---------------------------------------------------------------------------
  // Properties of the fan-out

  /** The answers of consecutive rows are consecutive in the result. */
  lemma {:induction false} CanonicalAppend(index: EntityIndex, a: seq<string>, b: seq<string>)
    ensures Canonical(index, a + b) == Canonical(index, a) + Canonical(index, b)
    decreases |a|
  {
    if |a| == 0 {
      assert a + b == b;
    } else {
      assert (a + b)[1..] == a[1..] + b;
      CanonicalAppend(index, a[1..], b);
      AppendAssociative(LowerAll(LabelsOf(index, a[0])), Canonical(index, a[1..]), Canonical(index, b));
    }
  }

  /** One id known to the index yields all its labels, lower-cased, in order;
      an unknown id yields itself, lower-cased. */
  lemma CanonicalOne(index: EntityIndex, a: string)
    ensures a in index ==> Canonical(index, [a]) == LowerAll(index[a])
    ensures a !in index ==> Canonical(index, [a]) == [Lower(a)]
  {
    assert Canonical(index, [a]) == LowerAll(LabelsOf(index, a)) + Canonical(index, []);
  }

  /** The number of answers: the number of labels of each known id, plus one
      for each unknown id. */
  function FanOut(index: EntityIndex, answers: seq<string>): nat
    decreases |answers|
  {
    if |answers| == 0 then 0
    else (if answers[0] in index then |index[answers[0]]| else 1) + FanOut(index, answers[1..])
  }

  lemma {:induction false} CanonicalLength(index: EntityIndex, answers: seq<string>)
    ensures |Canonical(index, answers)| == FanOut(index, answers)
    decreases |answers|
  {
    if |answers| > 0 {
      CanonicalLength(index, answers[1..]);
    }
  }

  /** A string is an answer exactly when it is the lower-cased form of a label
      of some known id, or of some unknown id itself. */
  lemma {:induction false} CanonicalMembers(index: EntityIndex, answers: seq<string>, x: string)
    ensures x in Canonical(index, answers) <==>
      exists k :: 0 <= k < |answers| && x in LowerAll(LabelsOf(index, answers[k]))
    decreases |answers|
  {
    if |answers| > 0 {
      CanonicalMembers(index, answers[1..], x);
      if x in Canonical(index, answers) && x !in LowerAll(LabelsOf(index, answers[0])) {
        var k :| 0 <= k < |answers[1..]| && x in LowerAll(LabelsOf(index, answers[1..][k]));
        assert x in LowerAll(LabelsOf(index, answers[k + 1]));
      }
      if exists k :: 0 <= k < |answers| && x in LowerAll(LabelsOf(index, answers[k])) {
        var k :| 0 <= k < |answers| && x in LowerAll(LabelsOf(index, answers[k]));
        if k > 0 {
          assert x in LowerAll(LabelsOf(index, answers[1..][k - 1]));
        }
      }
    }
  }

  /** The documented example, against an index in which Q76 is listed with the
      label "barack obama" and Q235234 is not listed. */
  lemma MapQueryResultsExample()
    ensures MapQueryResults([map["e1" := "Q76"], map["e1" := "Q235234"]], "e1", map["Q76" := ["barack obama"]])
         == Success(["barack obama", "q235234"])
  {
    QuestionValuesExample();
    CanonicalExample();
  }

  lemma QuestionValuesExample()
    ensures QuestionValues([map["e1" := "Q76"], map["e1" := "Q235234"]], "e1") == Success(["Q76", "Q235234"])
  {
    var rows := [map["e1" := "Q76"], map["e1" := "Q235234"]];
    assert "e1" in rows[0] && "e1" in rows[1];
    var r := QuestionValues(rows, "e1");
    assert r.Success? && |r.value| == 2;
    assert r.value[0] == "Q76" && r.value[1] == "Q235234";
    assert r.value == ["Q76", "Q235234"];
  }

  lemma CanonicalExample()
    ensures Canonical(map["Q76" := ["barack obama"]], ["Q76", "Q235234"]) == ["barack obama", "q235234"]
  {
    KnownIdExample();
    UnknownIdExample();
    CanonicalPair(map["Q76" := ["barack obama"]], "Q76", "Q235234");
  }

  /** The answers of two ids are those of the first, then those of the second. */
  lemma CanonicalPair(index: EntityIndex, a: string, b: string)
    ensures Canonical(index, [a, b]) == Canonical(index, [a]) + Canonical(index, [b])
  {
    CanonicalAppend(index, [a], [b]);
    assert [a] + [b] == [a, b];
  }

  /** The indexed id of the example yields its one label. */
  lemma KnownIdExample()
    ensures Canonical(map["Q76" := ["barack obama"]], ["Q76"]) == ["barack obama"]
  {
    var index := map["Q76" := ["barack obama"]];
    CanonicalOne(index, "Q76");
    LowerExamples();
    assert LowerAll(["barack obama"]) == [Lower("barack obama")];
  }

  /** The unknown id of the example yields itself lower-cased. */
  lemma UnknownIdExample()
    ensures Canonical(map["Q76" := ["barack obama"]], ["Q235234"]) == ["q235234"]
  {
    var index := map["Q76" := ["barack obama"]];
    assert "Q235234" !in index;
    CanonicalOne(index, "Q235234");
    LowerExamples();
  }

  lemma LowerExamples()
    ensures Lower("barack obama") == "barack obama"
    ensures Lower("Q235234") == "q235234"
  {
  }

  // ---------------------------------------------------------------------------
  // Building the index: `nltk.Index({(t[1], t[0]) for t in lines})`

  /** The label-per-id index of a list of `label<TAB>id` lines, each already split
      into fields. Any line with fewer than two fields makes the loader give up
      and return an empty map. */
  function LoadIndex(lines: seq<seq<string>>): (r: map<string, set<string>>)
    ensures (exists k :: 0 <= k < |lines| && |lines[k]| < 2) ==> r == map[]
  {
    if forall k :: 0 <= k < |lines| ==> |lines[k]| >= 2 then Invert(lines) else map[]
  }

  /** The pairs of the first `|lines|` lines, grouped by id. */
  function Invert(lines: seq<seq<string>>): (r: map<string, set<string>>)
    requires forall k :: 0 <= k < |lines| ==> |lines[k]| >= 2
    ensures forall id :: id in r <==> exists k :: 0 <= k < |lines| && lines[k][1] == id
    ensures forall id, l :: id in r && l in r[id] <==> exists k :: 0 <= k < |lines| && lines[k][1] == id && lines[k][0] == l
    decreases |lines|
  {
    if |lines| == 0 then map[]
    else
      var p := lines[..|lines| - 1];
      var m := Invert(p);
      var t := lines[|lines| - 1];
      var r := m[t[1] := (if t[1] in m then m[t[1]] else {}) + {t[0]}];
      InvertLast(lines, p, m, r);
      r
  }

  /** Adding the pair of the last line to the index of the lines before it. */
  lemma InvertLast(lines: seq<seq<string>>, p: seq<seq<string>>, m: map<string, set<string>>, r: map<string, set<string>>)
    requires |lines| > 0 && forall k :: 0 <= k < |lines| ==> |lines[k]| >= 2
    requires p == lines[..|lines| - 1]
    requires forall id :: id in m <==> exists k :: 0 <= k < |p| && p[k][1] == id
    requires forall id, l :: id in m && l in m[id] <==> exists k :: 0 <= k < |p| && p[k][1] == id && p[k][0] == l
    requires var t := lines[|lines| - 1]; r == m[t[1] := (if t[1] in m then m[t[1]] else {}) + {t[0]}]
    ensures forall id :: id in r <==> exists k :: 0 <= k < |lines| && lines[k][1] == id
    ensures forall id, l :: id in r && l in r[id] <==> exists k :: 0 <= k < |lines| && lines[k][1] == id && lines[k][0] == l
  {
    var n := |lines| - 1;
    var t := lines[n];
    forall id
      ensures id in r <==> exists k :: 0 <= k < |lines| && lines[k][1] == id
    {
      if id in r && id != t[1] {
        var k :| 0 <= k < n && p[k][1] == id;
        assert lines[k][1] == id;
      }
      if exists k :: 0 <= k < |lines| && lines[k][1] == id {
        var k :| 0 <= k < |lines| && lines[k][1] == id;
        if k < n {
          assert p[k][1] == id;
        }
      }
    }
    forall id, l
      ensures id in r && l in r[id] <==> exists k :: 0 <= k < |lines| && lines[k][1] == id && lines[k][0] == l
    {
      if id in r && l in r[id] && !(id == t[1] && l == t[0]) {
        var k :| 0 <= k < n && p[k][1] == id && p[k][0] == l;
        assert lines[k][1] == id && lines[k][0] == l;
      }
      if exists k :: 0 <= k < |lines| && lines[k][1] == id && lines[k][0] == l {
        var k :| 0 <= k < |lines| && lines[k][1] == id && lines[k][0] == l;
        if k < n {
          assert p[k][1] == id && p[k][0] == l;
        }
      }
    }
  }

  /** A list index that holds, for each id, the labels of a set index (in any
      order, a label possibly more than once). */
  ghost predicate Lists(index: EntityIndex, labels: map<string, set<string>>)
  {
    index.Keys == labels.Keys &&
    forall id :: id in index ==> (forall l :: l in index[id] <==> l in labels[id])
  }

  /** Whatever order the index lists labels in, the answers are the same set:
      the lower-cased labels of the known ids and the lower-cased unknown ids. */
  lemma CanonicalFromLoadedIndex(index: EntityIndex, labels: map<string, set<string>>, answers: seq<string>, x: string)
    requires Lists(index, labels)
    ensures x in Canonical(index, answers) <==>
      exists k :: 0 <= k < |answers| && AnswerOf(labels, answers[k], x)
  {
    CanonicalMembers(index, answers, x);
    forall k | 0 <= k < |answers|
      ensures x in LowerAll(LabelsOf(index, answers[k])) <==> AnswerOf(labels, answers[k], x)
    {
      AnswerOfListed(index, labels, answers[k], x);
    }
  }

  /** `x` is an answer for id `a`: a lower-cased label of `a`, or `a` itself
      lower-cased when the index does not know `a`. */
  ghost predicate AnswerOf(labels: map<string, set<string>>, a: string, x: string)
  {
    if a in labels then exists l :: l in labels[a] && x == Lower(l) else x == Lower(a)
  }

  lemma AnswerOfListed(index: EntityIndex, labels: map<string, set<string>>, a: string, x: string)
    requires Lists(index, labels)
    ensures x in LowerAll(LabelsOf(index, a)) <==> AnswerOf(labels, a, x)
  {
    var ls := LabelsOf(index, a);
    if a in labels {
      if x in LowerAll(ls) {
        var j :| 0 <= j < |ls| && LowerAll(ls)[j] == x;
        assert ls[j] in index[a];
      }
      if AnswerOf(labels, a, x) {
        var l :| l in labels[a] && x == Lower(l);
        assert l in index[a];
        var j :| 0 <= j < |ls| && ls[j] == l;
        assert LowerAll(ls)[j] == x;
      }
    } else {
      assert LowerAll(ls) == [Lower(a)];
    }
  }
}
