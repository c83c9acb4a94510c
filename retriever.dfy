/** The retriever: reshapes the vector store's nested query result into one
    record per document. The similarity search itself is an oracle: its
    result is an input here, `None` when the query raised. */
module Retriever {
  import opened Text
  import opened Documents

  /** One member of the query result: a list with one inner list per query
      text, `None` in the result, or absent from it. */
  datatype Column<T> = Absent | Null | Rows(rows: seq<seq<T>>)

  /** The query result for one query text. */
  datatype QueryResult = QueryResult(documents: Column<string>, metadatas: Column<Metadata>, distances: Column<real>)

  const DefaultDistance: real := 0.0

  /** Reading index `i` of a present column's first row raises unless the
      column has a first row of more than `i` entries; an absent column is
      never read. */
  predicate Readable<T>(col: Column<T>, i: nat) {
    col.Absent? || (col.Rows? && |col.rows| > 0 && i < |col.rows[0]|)
  }

  function MetadataAt(col: Column<Metadata>, i: nat): Metadata
    requires Readable(col, i)
  {
    if col.Absent? then map[] else col.rows[0][i]
  }

  function DistanceAt(col: Column<real>, i: nat): real
    requires Readable(col, i)
  {
    if col.Absent? then DefaultDistance else col.rows[0][i]
  }

  /** The documents for the first query text, when the result has any to offer. */
  predicate HasDocuments(q: QueryResult) {
    q.documents.Rows? && |q.documents.rows| > 0
  }

  /** Every row the loop reads can be read. */
  predicate WellShaped(q: QueryResult)
    requires HasDocuments(q)
  {
    forall i :: 0 <= i < |q.documents.rows[0]| ==> Readable(q.metadatas, i) && Readable(q.distances, i)
  }

  /** What `retrieve` returns for a query outcome: nothing when the query
      raised, when there are no documents, or when reading any row raises;
      otherwise one record per document of the first row, in order. */
  function Reshape(outcome: Option<QueryResult>): seq<Doc> {
    if outcome.None? || !HasDocuments(outcome.value) || !WellShaped(outcome.value) then []
    else
      var q := outcome.value;
      var docs := q.documents.rows[0];
      seq(|docs|, i requires 0 <= i < |docs| => Doc(docs[i], MetadataAt(q.metadatas, i), DistanceAt(q.distances, i)))
  }

  /** `retrieve`: the record-building loop, abandoning everything built so far
      when a row cannot be read. */
  method Retrieve(outcome: Option<QueryResult>) returns (documents: seq<Doc>)
    ensures documents == Reshape(outcome)
  {
    if outcome.None? {
      return [];
    }
    var q := outcome.value;
    documents := [];
    if q.documents.Rows? && |q.documents.rows| > 0 {
      var docs := q.documents.rows[0];
      for i := 0 to |docs|
        invariant forall j :: 0 <= j < i ==> Readable(q.metadatas, j) && Readable(q.distances, j)
        invariant |documents| == i
        invariant forall j :: 0 <= j < i ==>
          documents[j] == Doc(docs[j], MetadataAt(q.metadatas, j), DistanceAt(q.distances, j))
      {
        var metadata: Metadata := map[];
        if !q.metadatas.Absent? {
          if !(q.metadatas.Rows? && |q.metadatas.rows| > 0 && i < |q.metadatas.rows[0]|) {
            assert !Readable(q.metadatas, i);
            return [];
          }
          metadata := q.metadatas.rows[0][i];
        }
        var distance := DefaultDistance;
        if !q.distances.Absent? {
          if !(q.distances.Rows? && |q.distances.rows| > 0 && i < |q.distances.rows[0]|) {
            assert !Readable(q.distances, i);
            return [];
          }
          distance := q.distances.rows[0][i];
        }
        documents := documents + [Doc(docs[i], metadata, distance)];
      }
    }
  }

  /** The result is all or nothing: either empty, or exactly one record per
      document of the first row, each carrying that document's text. */
  lemma ReshapeAllOrNothing(outcome: Option<QueryResult>)
    ensures var r := Reshape(outcome);
      r == [] || (outcome.Some? && HasDocuments(outcome.value) &&
                  |r| == |outcome.value.documents.rows[0]| &&
                  forall i :: 0 <= i < |r| ==> r[i].content == outcome.value.documents.rows[0][i])
  {
  }

  /** A readable result with documents loses none of them, and absent
      metadata and distances read as `{}` and `0.0`. */
  lemma ReshapeKeepsEverything(q: QueryResult)
    requires HasDocuments(q) && WellShaped(q)
    ensures var r := Reshape(Some(q));
      && |r| == |q.documents.rows[0]|
      && (forall i :: 0 <= i < |r| ==> r[i].content == q.documents.rows[0][i])
      && (q.metadatas.Absent? ==> forall i :: 0 <= i < |r| ==> r[i].metadata == map[])
      && (q.distances.Absent? ==> forall i :: 0 <= i < |r| ==> r[i].distance == DefaultDistance)
  {
  }

  /** A metadata column that is present but too short makes the whole
      result empty, even though the documents were there. */
  lemma ShortMetadataLosesAll(q: QueryResult)
    requires HasDocuments(q) && |q.documents.rows[0]| > 0
    requires q.metadatas.Rows? && |q.metadatas.rows| > 0 && |q.metadatas.rows[0]| < |q.documents.rows[0]|
    ensures Reshape(Some(q)) == []
  {
    assert !Readable(q.metadatas, |q.metadatas.rows[0]|);
  }

  /** `get_collection_count`: the store's count, or 0 when counting raised. */
  function CollectionCount(count: Option<int>): (n: int)
    ensures count.None? ==> n == 0
    ensures count.Some? ==> n == count.value
  {
    count.GetOr(0)
  }
}
