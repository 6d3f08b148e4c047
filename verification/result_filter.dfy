/** The post-processing half of `query_wikidata`: of the binding rows the
    endpoint returns, keep the rows whose every value is a Wikidata entity URI,
    then strip the entity prefix from every value. A row is a map from variable
    name to the binding's value string. */
module ResultFilter {
  import opened Text

  type Row = map<string, string>

  const EntityPrefix := "http://www.wikidata.org/entity/"

  /** Every value of the row is an entity URI (vacuously so for an empty row). */
  predicate IsEntityRow(r: Row)
  {
    forall b :: b in r ==> StartsWith(r[b], EntityPrefix)
  }

  /** The first list comprehension: rows with a non-entity value are dropped. */
  function KeepEntityRows(rows: seq<Row>): (r: seq<Row>)
    ensures |r| <= |rows|
    ensures forall k :: 0 <= k < |r| ==> IsEntityRow(r[k])
    decreases |rows|
  {
    if |rows| == 0 then []
    else (if IsEntityRow(rows[0]) then [rows[0]] else []) + KeepEntityRows(rows[1..])
  }

  /** One value with the prefix removed: `.replace(prefix, "")` removes every
      occurrence, not only the leading one. */
  function StripValue(v: string): (r: string)
    ensures !Contains(v, EntityPrefix) ==> r == v
    ensures |r| <= |v| && forall c :: c in r ==> c in v
  {
    ReplaceAllNoLonger(v, EntityPrefix, "");
    ReplaceAll(v, EntityPrefix, "")
  }

  /** The second list comprehension on one row: same variables, stripped values. */
  function StripRow(r: Row): (s: Row)
    ensures s.Keys == r.Keys
  {
    map b | b in r :: StripValue(r[b])
  }

  function StripRows(rows: seq<Row>): (r: seq<Row>)
    ensures |r| == |rows|
    ensures forall k :: 0 <= k < |rows| ==> r[k].Keys == rows[k].Keys
  {
    seq(|rows|, k requires 0 <= k < |rows| => StripRow(rows[k]))
  }

  /** The bindings branch of `query_wikidata`: nothing when there are no
      bindings, else the kept rows, stripped. */
  function QueryResults(bindings: seq<Row>): (r: seq<Row>)
    ensures |r| <= |bindings|
  {
    if |bindings| > 0 then StripRows(KeepEntityRows(bindings)) else []
  }

  // ---------------------------------------------------------------------------
  // What the filter keeps

  /** Filtering distributes over concatenation, so the kept rows stay in their
      original relative order. */
  lemma {:induction false} KeepEntityRowsAppend(a: seq<Row>, b: seq<Row>)
    ensures KeepEntityRows(a + b) == KeepEntityRows(a) + KeepEntityRows(b)
    decreases |a|
  {
    if |a| == 0 {
      assert a + b == b;
    } else {
      assert (a + b)[1..] == a[1..] + b;
      KeepEntityRowsAppend(a[1..], b);
    }
  }

  /** Each row is kept as often as it occurs when all its values are entity
      URIs, and never otherwise: a row with one bad value is dropped whole. */
  lemma {:induction false} KeepEntityRowsCount(rows: seq<Row>, x: Row)
    ensures multiset(KeepEntityRows(rows))[x] == if IsEntityRow(x) then multiset(rows)[x] else 0
    decreases |rows|
  {
    if |rows| > 0 {
      KeepEntityRowsCount(rows[1..], x);
      HeadTail(rows);
    }
  }

  /** The filter changes nothing exactly when every row is an entity row. */
  lemma {:induction false} KeepEntityRowsUnchanged(rows: seq<Row>)
    ensures KeepEntityRows(rows) == rows <==> forall k :: 0 <= k < |rows| ==> IsEntityRow(rows[k])
    decreases |rows|
  {
    if |rows| > 0 {
      KeepEntityRowsUnchanged(rows[1..]);
      if !IsEntityRow(rows[0]) {
        assert |KeepEntityRows(rows)| < |rows|;
      } else if forall k :: 0 <= k < |rows| ==> IsEntityRow(rows[k]) {
        assert forall k :: 0 <= k < |rows[1..]| ==> IsEntityRow(rows[1..][k]);
        HeadTail(rows);
      } else {
        var k :| 0 <= k < |rows| && !IsEntityRow(rows[k]);
        assert !IsEntityRow(rows[1..][k - 1]);
        assert KeepEntityRows(rows)[1..] == KeepEntityRows(rows[1..]);
      }
    }
  }

  /** The "no bindings" branch returns what the general branch would. */
  lemma QueryResultsIsStrippedFilter(bindings: seq<Row>)
    ensures QueryResults(bindings) == StripRows(KeepEntityRows(bindings))
  {
  }

  /** The whole post-processing distributes over concatenation. */
  lemma QueryResultsAppend(a: seq<Row>, b: seq<Row>)
    ensures QueryResults(a + b) == QueryResults(a) + QueryResults(b)
  {
    KeepEntityRowsAppend(a, b);
    QueryResultsIsStrippedFilter(a);
    QueryResultsIsStrippedFilter(b);
    QueryResultsIsStrippedFilter(a + b);
  }

  // ---------------------------------------------------------------------------
  // Stripping inverts writing an id as an entity URI

  /** A plain id as an entity URI. */
  function EntityUri(id: string): string
  {
    EntityPrefix + id
  }

  /** A row of plain ids as a row of entity URIs. */
  function UriRow(ids: Row): (r: Row)
    ensures r.Keys == ids.Keys
  {
    map b | b in ids :: EntityUri(ids[b])
  }

  function UriRows(rows: seq<Row>): (r: seq<Row>)
    ensures |r| == |rows|
  {
    seq(|rows|, k requires 0 <= k < |rows| => UriRow(rows[k]))
  }

  /** No value of the row contains the entity prefix. */
  predicate PlainIds(ids: Row)
  {
    forall b :: b in ids ==> !Contains(ids[b], EntityPrefix)
  }

  lemma StripEntityUri(id: string)
    requires !Contains(id, EntityPrefix)
    ensures StripValue(EntityUri(id)) == id
  {
    assert EntityUri(id)[|EntityPrefix|..] == id;
  }

  /** A row of entity URIs passes the filter, and stripping gives back the ids. */
  lemma UriRowRoundTrip(ids: Row)
    requires PlainIds(ids)
    ensures IsEntityRow(UriRow(ids))
    ensures StripRow(UriRow(ids)) == ids
  {
    forall b | b in ids
      ensures StripRow(UriRow(ids))[b] == ids[b]
    {
      StripEntityUri(ids[b]);
    }
  }

  /** Rows of entity URIs whose ids do not themselves contain the prefix come
      back from the post-processing as the ids, all of them, in order. */
  lemma {:induction false} QueryResultsRoundTrip(rows: seq<Row>)
    requires forall k :: 0 <= k < |rows| ==> PlainIds(rows[k])
    ensures QueryResults(UriRows(rows)) == rows
    decreases |rows|
  {
    if |rows| > 0 {
      var head, tail := [UriRow(rows[0])], UriRows(rows[1..]);
      assert UriRows(rows) == head + tail;
      QueryResultsAppend(head, tail);
      QueryResultsOne(rows[0]);
      QueryResultsRoundTrip(rows[1..]);
      HeadTail(rows);
    }
  }

  /** The round trip for a single row. */
  lemma QueryResultsOne(ids: Row)
    requires PlainIds(ids)
    ensures QueryResults([UriRow(ids)]) == [ids]
  {
    UriRowRoundTrip(ids);
    assert KeepEntityRows([UriRow(ids)]) == [UriRow(ids)];
  }
}
