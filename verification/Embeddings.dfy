/**
 Batched text embedding over a remote endpoint, and the script that fills in the chunks that have
 no embedding yet.
*/
module Embeddings {
  import opened Wrappers
  import opened StableSort

  type Vector = seq<real>

  /** One entry of the endpoint's answer; entries may come in any order. */
  datatype Item = Item(index: int, embedding: Vector)

  predicate ByIndex(a: Item, b: Item) { a.index <= b.index }

  /** The endpoint answers a list of texts, or fails. */
  datatype Endpoint = Endpoint(answer: seq<string> -> Option<seq<Item>>, strip: string -> string)

  function Sanitized(e: Endpoint, t: string): string {
    if t != "" && e.strip(t) != "" then e.strip(t) else " "
  }

  function SanitizedAll(e: Endpoint, ts: seq<string>): (r: seq<string>)
    ensures |r| == |ts| && forall i :: 0 <= i < |r| ==> r[i] == Sanitized(e, ts[i])
  {
    seq(|ts|, i requires 0 <= i < |ts| => Sanitized(e, ts[i]))
  }

  function Vectors(items: seq<Item>): (r: seq<Vector>)
    ensures |r| == |items| && forall i :: 0 <= i < |r| ==> r[i] == items[i].embedding
  {
    seq(|items|, i requires 0 <= i < |items| => items[i].embedding)
  }

  /** The answer's vectors in the order of their indices. */
  function Call(e: Endpoint, texts: seq<string>): Option<seq<Vector>> {
    if texts == [] then Some([])
    else
      match e.answer(texts)
      case None => None
      case Some(items) => Some(Vectors(Sorted(items, ByIndex)))
  }

  function Take<T>(s: seq<T>, n: nat): seq<T> { if n <= |s| then s[..n] else s }

  function Size(batchSize: int): nat
    ensures Size(batchSize) > 0
  {
    if batchSize <= 0 then 128 else batchSize
  }

  /** All batches one after the other; the first failure fails the whole. */
  ghost function Batched(e: Endpoint, texts: seq<string>, size: nat): Option<seq<Vector>>
    requires size > 0
    decreases |texts|
  {
    if texts == [] then Some([])
    else
      var chunk := Take(texts, size);
      match Call(e, SanitizedAll(e, chunk))
      case None => None
      case Some(vs) =>
        match Batched(e, texts[|chunk|..], size)
        case None => None
        case Some(rest) => Some(Take(vs, |chunk|) + rest)
  }

  // ---- An honest endpoint -----------------------------------------------------------------------

  ghost function Expected(texts: seq<string>, embed: string -> Vector): seq<Item> {
    seq(|texts|, i requires 0 <= i < |texts| => Item(i, embed(texts[i])))
  }

  /** The endpoint gives every text its own vector under the text's index, in any order. */
  ghost predicate Honest(e: Endpoint, embed: string -> Vector) {
    forall texts: seq<string> :: texts != [] ==>
      e.answer(texts).Some? && multiset(e.answer(texts).value) == multiset(Expected(texts, embed))
  }

  ghost function Pointwise(e: Endpoint, embed: string -> Vector, texts: seq<string>): seq<Vector> {
    seq(|texts|, i requires 0 <= i < |texts| => embed(Sanitized(e, texts[i])))
  }

  /** Sorting by index undoes whatever order the endpoint answered in. */
  lemma CallIsPointwise(e: Endpoint, embed: string -> Vector, texts: seq<string>)
    requires Honest(e, embed)
    ensures Call(e, texts).Some? && |Call(e, texts).value| == |texts|
    ensures forall i :: 0 <= i < |texts| ==> Call(e, texts).value[i] == embed(texts[i])
  {
    if texts != [] {
      var items, expected := e.answer(texts).value, Expected(texts, embed);
      var sorted := Sorted(items, ByIndex);
      SortedPermutes(items, ByIndex);
      SortedAscends(items, ByIndex);
      assert Ascending(expected, ByIndex);
      DistinctIndices(expected, sorted);
      AscendingUnique(expected, sorted, ByIndex);
    }
  }

  lemma DistinctIndices(expected: seq<Item>, sorted: seq<Item>)
    requires multiset(expected) == multiset(sorted)
    requires forall i :: 0 <= i < |expected| ==> expected[i].index == i
    ensures DistinctKeys(expected, ByIndex)
  {
  }

  /** For every batch size, batching is the pointwise map of one-text embedding, in input order. */
  lemma {:induction false} BatchedIsPointwise(e: Endpoint, embed: string -> Vector, texts: seq<string>, size: nat)
    requires Honest(e, embed) && size > 0
    ensures Batched(e, texts, size) == Some(Pointwise(e, embed, texts))
    decreases |texts|
  {
    if texts != [] {
      var chunk := Take(texts, size);
      var vs := Call(e, SanitizedAll(e, chunk)).value;
      CallIsPointwise(e, embed, SanitizedAll(e, chunk));
      BatchedIsPointwise(e, embed, texts[|chunk|..], size);
      assert Take(vs, |chunk|) + Pointwise(e, embed, texts[|chunk|..]) == Pointwise(e, embed, texts);
    } else {
      assert Pointwise(e, embed, texts) == [];
    }
  }

  /** Every text gets the vector of itself without surrounding blanks, or of a single blank if nothing else is left. */
  lemma EveryTextEmbedded(e: Endpoint, embed: string -> Vector, texts: seq<string>, size: nat, i: nat)
    requires Honest(e, embed) && size > 0 && i < |texts|
    ensures Batched(e, texts, size).Some? && |Batched(e, texts, size).value| == |texts|
    ensures Batched(e, texts, size).value[i] ==
            if texts[i] == "" || e.strip(texts[i]) == "" then embed(" ") else embed(e.strip(texts[i]))
  {
    BatchedIsPointwise(e, embed, texts, size);
    PointwiseAt(e, embed, texts, i);
  }

  lemma PointwiseAt(e: Endpoint, embed: string -> Vector, texts: seq<string>, i: nat)
    requires i < |texts|
    ensures |Pointwise(e, embed, texts)| == |texts|
    ensures Pointwise(e, embed, texts)[i] ==
            if texts[i] == "" || e.strip(texts[i]) == "" then embed(" ") else embed(e.strip(texts[i]))
  {
    assert Pointwise(e, embed, texts)[i] == embed(Sanitized(e, texts[i]));
  }

  // ---- The embedding service --------------------------------------------------------------------

  /** What the loop will return if the remaining texts give `rest`. */
  ghost function Following(results: seq<Vector>, rest: Option<seq<Vector>>): Option<seq<Vector>> {
    match rest
    case None => None
    case Some(vs) => Some(results + vs)
  }

  lemma NextSlice(e: Endpoint, texts: seq<string>, i: nat, size: nat, results: seq<Vector>)
    requires size > 0 && i < |texts|
    ensures var chunk := Take(texts[i..], size);
            var answer := Call(e, SanitizedAll(e, chunk));
            Following(results, Batched(e, texts[i..], size)) ==
            if answer.None? then None
            else Following(results + Take(answer.value, |chunk|), Batched(e, texts[i + |chunk|..], size))
  {
    var chunk := Take(texts[i..], size);
    var answer := Call(e, SanitizedAll(e, chunk));
    assert texts[i..][|chunk|..] == texts[i + |chunk|..];
    if answer.Some? && Batched(e, texts[i + |chunk|..], size).Some? {
      var rest := Batched(e, texts[i + |chunk|..], size).value;
      assert results + (Take(answer.value, |chunk|) + rest) == results + Take(answer.value, |chunk|) + rest;
    }
  }

  lemma WholeIsFollowing(rest: Option<seq<Vector>>)
    ensures Following([], rest) == rest
  {
    if rest.Some? {
      assert [] + rest.value == rest.value;
    }
  }

  /** Steps through the texts in slices of the batch size. */
  method GetEmbeddingsBatch(e: Endpoint, texts: seq<string>, batchSize: int) returns (r: Option<seq<Vector>>)
    ensures r == Batched(e, texts, Size(batchSize))
    ensures batchSize > 0 ==> r == Batched(e, texts, batchSize)
    ensures batchSize <= 0 ==> r == Batched(e, texts, 128)
  {
    var size := Size(batchSize);
    var results: seq<Vector> := [];
    var i := 0;
    assert texts[0..] == texts;
    WholeIsFollowing(Batched(e, texts, size));
    while i < |texts|
      invariant 0 <= i <= |texts|
      invariant Batched(e, texts, size) == Following(results, Batched(e, texts[i..], size))
    {
      NextSlice(e, texts, i, size, results);
      var chunk := Take(texts[i..], size);
      var answer := Call(e, SanitizedAll(e, chunk));
      if answer.None? {
        return None;
      }
      results := results + Take(answer.value, |chunk|);
      i := i + |chunk|;
    }
    assert texts[i..] == [] && results + [] == results;
    return Some(results);
  }

  // ---- The backfill ---------------------------------------------------------------------------------

  /** Rows stand in the order the script selects them: by creation time, then id. */
  datatype Row = Row(content: string, embedding: Option<Vector>)

  /** The positions of the rows without an embedding, in order. */
  function Missing(rows: seq<Row>): seq<nat> {
    if rows == [] then []
    else Missing(rows[..|rows| - 1]) + if rows[|rows| - 1].embedding.None? then [|rows| - 1] else []
  }

  lemma {:induction false} MissingFacts(rows: seq<Row>)
    ensures forall k :: 0 <= k < |Missing(rows)| ==> Missing(rows)[k] < |rows| && rows[Missing(rows)[k]].embedding.None?
    ensures forall i :: 0 <= i < |rows| && rows[i].embedding.None? ==> Listed(Missing(rows), i)
    ensures forall j, k :: 0 <= j < k < |Missing(rows)| ==> Missing(rows)[j] < Missing(rows)[k]
  {
    if rows != [] {
      var front := rows[..|rows| - 1];
      MissingFacts(front);
      forall i | 0 <= i < |rows| && rows[i].embedding.None?
        ensures Listed(Missing(rows), i)
      {
        if i < |front| {
          assert Listed(Missing(front), i);
          var k :| 0 <= k < |Missing(front)| && Missing(front)[k] == i;
          assert Missing(rows)[k] == i;
        } else {
          assert Missing(rows)[|Missing(rows)| - 1] == i;
        }
      }
    }
  }

  ghost predicate Listed(s: seq<nat>, i: int) {
    exists k :: 0 <= k < |s| && s[k] == i
  }

  /** Only gaps were filled: texts stand, and so do the embeddings that were there. */
  ghost predicate FilledFrom(before: seq<Row>, rows: seq<Row>) {
    && |rows| == |before|
    && forall i :: 0 <= i < |rows| ==>
         && rows[i].content == before[i].content
         && (before[i].embedding.Some? ==> rows[i] == before[i])
  }

  ghost predicate OwnVectors(e: Endpoint, embed: string -> Vector, before: seq<Row>, rows: seq<Row>)
    requires |rows| == |before|
  {
    forall i :: 0 <= i < |rows| && before[i].embedding.None? && rows[i].embedding.Some? ==>
      rows[i].embedding.value == embed(Sanitized(e, rows[i].content))
  }

  function Contents(rows: seq<Row>, batch: seq<nat>): (r: seq<string>)
    requires forall k :: 0 <= k < |batch| ==> batch[k] < |rows|
    ensures |r| == |batch| && forall k :: 0 <= k < |r| ==> r[k] == rows[batch[k]].content
  {
    seq(|batch|, k requires 0 <= k < |batch| => rows[batch[k]].content)
  }

  ghost predicate Assigned(before: seq<Row>, rows: seq<Row>, batch: seq<nat>, vs: seq<Vector>, n: nat)
    requires n <= |batch| && n <= |vs|
    requires forall k :: 0 <= k < |batch| ==> batch[k] < |before|
  {
    && |rows| == |before|
    && (forall k :: 0 <= k < n ==> rows[batch[k]] == before[batch[k]].(embedding := Some(vs[k])))
    && (forall i :: 0 <= i < |rows| && !Listed(batch[..n], i) ==> rows[i] == before[i])
  }

  /** Every selected row gets the vector at its own place in the answer. */
  method AssignBatch(before: seq<Row>, batch: seq<nat>, vs: seq<Vector>) returns (rows: seq<Row>)
    requires |batch| == |vs|
    requires forall k :: 0 <= k < |batch| ==> batch[k] < |before| && before[batch[k]].embedding.None?
    requires forall j, k :: 0 <= j < k < |batch| ==> batch[j] < batch[k]
    ensures Assigned(before, rows, batch, vs, |batch|)
    ensures Gaps(rows) + |batch| == Gaps(before)
  {
    rows := before;
    for n := 0 to |batch|
      invariant Assigned(before, rows, batch, vs, n) && Gaps(rows) + n == Gaps(before)
    {
      assert !Listed(batch[..n], batch[n]);
      FillingClosesOneGap(rows, batch[n], vs[n]);
      rows := rows[batch[n] := rows[batch[n]].(embedding := Some(vs[n]))];
      forall i | 0 <= i < |rows| && !Listed(batch[..n + 1], i)
        ensures rows[i] == before[i]
      {
        StillUnlisted(batch, n, i);
      }
    }
  }

  lemma StillUnlisted(batch: seq<nat>, n: nat, i: int)
    requires n < |batch| && !Listed(batch[..n + 1], i)
    ensures !Listed(batch[..n], i) && i != batch[n]
  {
    assert forall k :: 0 <= k <= n ==> batch[..n + 1][k] == batch[k];
    assert forall k :: 0 <= k < n ==> batch[..n][k] == batch[k];
  }

  function Gaps(rows: seq<Row>): nat { |Missing(rows)| }

  lemma {:induction false} FillingClosesOneGap(rows: seq<Row>, i: nat, v: Vector)
    requires i < |rows| && rows[i].embedding.None?
    ensures Gaps(rows[i := rows[i].(embedding := Some(v))]) + 1 == Gaps(rows)
    decreases |rows|
  {
    var n := |rows| - 1;
    var filled := rows[i := rows[i].(embedding := Some(v))];
    if i == n {
      assert filled[..n] == rows[..n];
    } else {
      FillingClosesOneGap(rows[..n], i, v);
      assert filled[..n] == rows[..n][i := rows[i].(embedding := Some(v))];
    }
  }

  /** A row without a vector is filled only if every such row before it is. */
  ghost predicate EarliestFirst(before: seq<Row>, rows: seq<Row>)
    requires |rows| == |before|
  {
    forall i, j :: 0 <= i < j < |rows| ==>
      before[i].embedding.None? && before[j].embedding.None? && rows[j].embedding.Some? ==> rows[i].embedding.Some?
  }

  lemma FilledIsListed(before: seq<Row>, rows: seq<Row>, batch: seq<nat>, vs: seq<Vector>, i: nat)
    requires |batch| == |vs| && (forall k :: 0 <= k < |batch| ==> batch[k] < |before|)
    requires Assigned(before, rows, batch, vs, |batch|) && i < |before| && before[i].embedding.None?
    ensures Listed(batch, i) <==> rows[i].embedding.Some?
  {
    assert batch[..|batch|] == batch;
    if Listed(batch, i) {
      var k :| 0 <= k < |batch| && batch[k] == i;
    }
  }

  /** A prefix of the ascending list of the gaps holds, with a gap, every earlier one. */
  lemma EarlierIsListed(before: seq<Row>, batch: seq<nat>, i: nat, j: nat)
    requires batch <= Missing(before) && i < j < |before| && before[i].embedding.None? && Listed(batch, j)
    ensures Listed(batch, i)
  {
    MissingFacts(before);
    var all := Missing(before);
    var m :| 0 <= m < |batch| && batch[m] == j;
    assert Listed(all, i);
    var k :| 0 <= k < |all| && all[k] == i;
    assert all[m] == j;
    assert k < m;
    assert batch[k] == i;
  }

  /** The rows filled are the first ones without a vector. */
  lemma EarliestFilled(before: seq<Row>, rows: seq<Row>, batch: seq<nat>, vs: seq<Vector>)
    requires batch <= Missing(before) && |batch| == |vs|
    requires forall k :: 0 <= k < |batch| ==> batch[k] < |before|
    requires Assigned(before, rows, batch, vs, |batch|)
    ensures EarliestFirst(before, rows)
  {
    forall i, j | 0 <= i < j < |rows| && before[i].embedding.None? && before[j].embedding.None?
      ensures rows[j].embedding.Some? ==> rows[i].embedding.Some?
    {
      FilledIsListed(before, rows, batch, vs, i);
      FilledIsListed(before, rows, batch, vs, j);
      if Listed(batch, j) {
        EarlierIsListed(before, batch, i, j);
      }
    }
  }

  /** What one committed batch changes. */
  lemma BatchFills(start: seq<Row>, before: seq<Row>, rows: seq<Row>, batch: seq<nat>, vs: seq<Vector>)
    requires FilledFrom(start, before) && |batch| == |vs|
    requires forall k :: 0 <= k < |batch| ==> batch[k] < |before| && before[batch[k]].embedding.None?
    requires Assigned(before, rows, batch, vs, |batch|)
    ensures FilledFrom(start, rows)
  {
    assert batch[..|batch|] == batch;
    forall i | 0 <= i < |rows|
      ensures rows[i] == before[i]
          || (before[i].embedding.None? && rows[i].embedding.Some? && rows[i].content == before[i].content)
    {
      if Listed(batch, i) {
        var k :| 0 <= k < |batch| && batch[k] == i;
      }
    }
  }

  lemma BatchOwnVectors(e: Endpoint, embed: string -> Vector, start: seq<Row>, before: seq<Row>, rows: seq<Row>,
      batch: seq<nat>, vs: seq<Vector>)
    requires |start| == |before| && OwnVectors(e, embed, start, before) && |batch| == |vs|
    requires forall k :: 0 <= k < |batch| ==> batch[k] < |before|
    requires vs == Pointwise(e, embed, Contents(before, batch))
    requires Assigned(before, rows, batch, vs, |batch|)
    ensures OwnVectors(e, embed, start, rows)
  {
    assert batch[..|batch|] == batch;
    forall i | 0 <= i < |rows| && start[i].embedding.None? && rows[i].embedding.Some?
      ensures rows[i].embedding.value == embed(Sanitized(e, rows[i].content))
    {
      if Listed(batch, i) {
        var k :| 0 <= k < |batch| && batch[k] == i;
      }
    }
  }

  /** How one turn of the loop ended: a batch of `count` was committed, or the loop is left. */
  datatype Turn = Committed(count: nat) | NoMore | Mismatch | Failed

  /** What a turn makes of the rows; the last clause is what an honest endpoint adds. */
  ghost predicate TurnKeeps(e: Endpoint, embed: string -> Vector, start: seq<Row>, before: seq<Row>, rows: seq<Row>,
      turn: Turn)
  {
    && FilledFrom(start, rows)
    && (turn.Committed? ==> turn.count > 0 && Gaps(rows) + turn.count == Gaps(before))
    && (!turn.Committed? ==> rows == before)
    && (Honest(e, embed) ==> OwnVectors(e, embed, start, rows) && (turn.Committed? || turn.NoMore?))
  }

  class Backfill {
    var rows: seq<Row>
    const endpoint: Endpoint

    constructor (endpoint: Endpoint, rows: seq<Row>)
      ensures this.endpoint == endpoint && this.rows == rows
    {
      this.endpoint, this.rows := endpoint, rows;
    }

    /** One batch: select the first gaps, embed their texts, assign, commit. */
    method FillBatch(batchSize: nat, ghost embed: string -> Vector, ghost start: seq<Row>) returns (turn: Turn)
      requires FilledFrom(start, rows)
      requires Honest(endpoint, embed) ==> OwnVectors(endpoint, embed, start, rows)
      modifies this
      ensures TurnKeeps(endpoint, embed, start, old(rows), rows, turn)
      ensures turn == NoMore <==> batchSize == 0 || Gaps(old(rows)) == 0
      ensures |rows| == |old(rows)| && EarliestFirst(old(rows), rows)
      ensures turn.Committed? ==> turn.count == if batchSize < Gaps(old(rows)) then batchSize else Gaps(old(rows))
    {
      MissingFacts(rows);
      var batch := Take(Missing(rows), batchSize);
      if batch == [] {
        return NoMore;
      }
      ghost var before := rows;
      var texts := Contents(rows, batch);
      var embeddings := GetEmbeddingsBatch(endpoint, texts, batchSize);
      if Honest(endpoint, embed) {
        BatchedIsPointwise(endpoint, embed, texts, Size(batchSize));
      }
      if embeddings.None? {
        return Failed;
      }
      if |embeddings.value| != |batch| {
        return Mismatch;
      }
      rows := AssignBatch(rows, batch, embeddings.value);
      EarliestFilled(before, rows, batch, embeddings.value);
      BatchFills(start, before, rows, batch, embeddings.value);
      if Honest(endpoint, embed) {
        BatchOwnVectors(endpoint, embed, start, before, rows, batch, embeddings.value);
      }
      return Committed(|batch|);
    }

    /**
     Fills gaps batch by batch until there are none, an answer has the wrong length, or the endpoint
     fails; `processed` counts exactly the gaps closed. With an honest endpoint no gap is left, and
     each filled row has the vector of its own text.
    */
    method Run(batchSize: nat, ghost embed: string -> Vector) returns (code: int, processed: nat)
      modifies this
      ensures FilledFrom(old(rows), rows) && processed + Gaps(rows) == Gaps(old(rows))
      ensures Honest(endpoint, embed) ==> code == 0 && OwnVectors(endpoint, embed, old(rows), rows)
      ensures Honest(endpoint, embed) && batchSize > 0 ==> forall i :: 0 <= i < |rows| ==> rows[i].embedding.Some?
    {
      code, processed := 0, 0;
      ghost var start := rows;
      var turn := Committed(0);
      while turn.Committed?
        invariant FilledFrom(start, rows) && processed + Gaps(rows) == Gaps(start) && code == 0
        invariant Honest(endpoint, embed) ==>
                    && OwnVectors(endpoint, embed, start, rows)
                    && (turn.Committed? || turn.NoMore?)
        invariant turn == NoMore && batchSize > 0 ==> Gaps(rows) == 0
        decreases Gaps(rows), if turn.Committed? then 1 else 0
      {
        turn := FillBatch(batchSize, embed, start);
        if turn.Committed? {
          processed := processed + turn.count;
        }
      }
      if turn.Failed? {
        code := 1;
      }
      MissingFacts(rows);
    }
  }
}
