/** Reading a batch's output file into the store: internal/embed/batch.go (ParseBatchResults,
    WriteJSONL) and cmd/embed.go (persistEmbeddings). */
module BatchResults {
  import opened Ordering
  import opened SymbolIds

  type Vector = seq<real>
  type Vectors = map<Id, Vector>

  /** One symbol's embedding, as handed to the store. */
  datatype Row = Row(id: Id, vector: Vector)

  // ---------- the output file ----------

  /** The response body of one request. */
  datatype Body = Malformed | Embeddings(data: seq<Vector>)

  /** A line of the output file: blank, not JSON, or an answer to one request, which may carry
      an error and may lack a response; code is the response's HTTP status. */
  datatype Line = Blank | Garbled | Reply(id: Id, failed: bool, answered: bool, code: int, body: Body)

  /** The line answers a request with an embedding. */
  predicate Yields(line: Line) {
    Good(line) && line.body.Embeddings? && |line.body.data| > 0 && |line.body.data[0]| > 0
  }

  predicate Good(line: Line) { line.Reply? && !line.failed && line.answered && line.code == 200 }

  /** The line ends the reading with an error. */
  predicate Breaks(line: Line) { line.Garbled? || (Good(line) && !Yields(line)) }

  /** The rows that are read: those of the lines before the first that breaks. */
  function RowsOf(lines: seq<Line>): seq<Row> {
    if |lines| == 0 || Breaks(lines[0]) then []
    else (if Yields(lines[0]) then [Row(lines[0].id, lines[0].body.data[0])] else []) + RowsOf(lines[1..])
  }

  predicate Readable(lines: seq<Line>) { forall line <- lines :: !Breaks(line) }

  lemma {:induction false} RowsOfAppend(a: seq<Line>, b: seq<Line>)
    requires Readable(a)
    ensures RowsOf(a + b) == RowsOf(a) + RowsOf(b)
  {
    if |a| == 0 {
      assert a + b == b && RowsOf(a) + RowsOf(b) == RowsOf(b);
    } else {
      assert a[0] in a && (a + b)[1..] == a[1..] + b;
      RowsOfAppend(a[1..], b);
      var row := if Yields(a[0]) then [Row(a[0].id, a[0].body.data[0])] else [];
      assert row + (RowsOf(a[1..]) + RowsOf(b)) == row + RowsOf(a[1..]) + RowsOf(b);
    }
  }

  /** What a line does to the reading: a blank one, or an answer that failed, is passed over; one
      that is not JSON, or a good answer without an embedding, ends it with an error; any other
      adds its symbol's first embedding. */
  lemma {:induction false} LineEffect(a: seq<Line>, line: Line, b: seq<Line>)
    requires Readable(a)
    ensures line.Blank? || (line.Reply? && (line.failed || !line.answered || line.code != 200)) ==>
              RowsOf(a + ([line] + b)) == RowsOf(a + b) && (Readable(a + ([line] + b)) <==> Readable(a + b))
    ensures line.Garbled? ==> RowsOf(a + ([line] + b)) == RowsOf(a) && !Readable(a + ([line] + b))
    ensures line.Reply? && !line.failed && line.answered && line.code == 200 ==>
              if line.body.Embeddings? && |line.body.data| > 0 && |line.body.data[0]| > 0
              then RowsOf(a + ([line] + b)) == RowsOf(a) + ([Row(line.id, line.body.data[0])] + RowsOf(b))
              else RowsOf(a + ([line] + b)) == RowsOf(a) && !Readable(a + ([line] + b))
  {
    RowsOfAppend(a, [line] + b);
    RowsOfAppend(a, b);
    assert ([line] + b)[0] == line && ([line] + b)[1..] == b;
    assert [] + RowsOf(b) == RowsOf(b) && RowsOf(a) + [] == RowsOf(a);
    assert line in a + ([line] + b);
    hide RowsOf;
  }

  // ---------- saving ----------

  /** The vectors a run of rows leaves behind, the last row of an ID winning. */
  function RowMap(rows: seq<Row>): Vectors {
    if |rows| == 0 then map[]
    else RowMap(rows[..|rows| - 1])[rows[|rows| - 1].id := rows[|rows| - 1].vector]
  }

  /** The store after each row was saved or, where saved is false, failed to save. */
  function Saved(store: Vectors, rows: seq<Row>, saved: seq<bool>): Vectors
    requires |saved| == |rows|
  {
    if |rows| == 0 then store
    else
      var n := |rows| - 1;
      var before := Saved(store, rows[..n], saved[..n]);
      if saved[n] then before[rows[n].id := rows[n].vector] else before
  }

  function Failures(saved: seq<bool>): nat {
    if |saved| == 0 then 0 else Failures(saved[..|saved| - 1]) + if saved[|saved| - 1] then 0 else 1
  }

  /** The rows that were saved. */
  function Chosen(rows: seq<Row>, saved: seq<bool>): seq<Row>
    requires |saved| == |rows|
  {
    if |rows| == 0 then []
    else
      var n := |rows| - 1;
      Chosen(rows[..n], saved[..n]) + if saved[n] then [rows[n]] else []
  }

  /** The store afterwards is the one before overridden by the rows that were saved, and by them
      alone; the others count as failures. */
  lemma {:induction false} SavedExactly(store: Vectors, rows: seq<Row>, saved: seq<bool>)
    requires |saved| == |rows|
    ensures Saved(store, rows, saved) == store + RowMap(Chosen(rows, saved))
    ensures |Chosen(rows, saved)| + Failures(saved) == |rows|
  {
    if |rows| > 0 {
      var n := |rows| - 1;
      var c := Chosen(rows[..n], saved[..n]);
      SavedExactly(store, rows[..n], saved[..n]);
      assert (c + [rows[n]])[..|c|] == c && c + [] == c;
    }
  }

  /** Of two rows of an ID the later one counts. */
  lemma {:induction false} RowMapLast(rows: seq<Row>, k: nat)
    requires k < |rows| && forall j :: k < j < |rows| ==> rows[j].id != rows[k].id
    ensures rows[k].id in RowMap(rows) && RowMap(rows)[rows[k].id] == rows[k].vector
    ensures forall id <- RowMap(rows) :: exists j :: 0 <= j < |rows| && rows[j].id == id
  {
    var n := |rows| - 1;
    if k < n { RowMapLast(rows[..n], k); }
    forall id | id in RowMap(rows) ensures exists j :: 0 <= j < |rows| && rows[j].id == id {
      var j := RowMapFrom(rows, id);
    }
  }

  lemma {:induction false} RowMapFrom(rows: seq<Row>, id: Id) returns (j: nat)
    requires id in RowMap(rows)
    ensures j < |rows| && rows[j].id == id
  {
    var n := |rows| - 1;
    if rows[n].id == id { j := n; } else { j := RowMapFrom(rows[..n], id); }
  }

  lemma {:induction false} AllSaved(store: Vectors, rows: seq<Row>, saved: seq<bool>)
    requires |saved| == |rows| && Failures(saved) == 0
    ensures Saved(store, rows, saved) == store + RowMap(rows)
  {
    if |rows| > 0 {
      AllSaved(store, rows[..|rows| - 1], saved[..|rows| - 1]);
    }
  }

  /** Saving touches nothing but the rows' own IDs. */
  lemma {:induction false} SavedOnlyRows(store: Vectors, rows: seq<Row>, saved: seq<bool>)
    requires |saved| == |rows|
    ensures Saved(store, rows, saved).Keys <= store.Keys + RowMap(rows).Keys
    ensures store.Keys <= Saved(store, rows, saved).Keys
    ensures forall id <- store :: id !in RowMap(rows) ==> Saved(store, rows, saved)[id] == store[id]
  {
    if |rows| > 0 {
      SavedOnlyRows(store, rows[..|rows| - 1], saved[..|rows| - 1]);
    }
  }

  lemma {:induction false} RowMapPrefix(rows: seq<Row>, k: nat)
    requires k <= |rows|
    ensures RowMap(rows[..k]).Keys <= RowMap(rows).Keys
    decreases |rows|
  {
    if k < |rows| {
      RowMapPrefix(rows[..|rows| - 1], k);
      assert rows[..|rows| - 1][..k] == rows[..k];
    } else {
      assert rows[..k] == rows;
    }
  }

  /** Recovery may be repeated: whatever an earlier try saved before it failed or crashed after
      k rows, a full save then leaves the same store as one on its own. */
  lemma {:induction false} RecoveryRepeats(store: Vectors, rows: seq<Row>, k: nat, first: seq<bool>, second: seq<bool>)
    requires k <= |rows| && |first| == k && |second| == |rows| && Failures(second) == 0
    ensures Saved(Saved(store, rows[..k], first), rows, second) == Saved(store, rows, second)
  {
    var before := Saved(store, rows[..k], first);
    AllSaved(before, rows, second);
    AllSaved(store, rows, second);
    SavedOnlyRows(store, rows[..k], first);
    RowMapPrefix(rows, k);
  }

  /** The store handle; a save may fail, and then changes nothing. */
  class Saver {
    var vectors: Vectors

    constructor (v: Vectors)
      ensures vectors == v
    {
      vectors := v;
    }

    method SaveEmbedding(id: Id, vector: Vector) returns (ok: bool)
      modifies this
      ensures vectors == if ok then old(vectors)[id := vector] else old(vectors)
    {
      ok := *;
      if ok {
        vectors := vectors[id := vector];
      }
    }
  }

  /** persistEmbeddings, with ParseBatchResults feeding it row by row. saved tells which rows
      were stored. */
  method PersistEmbeddings(lines: seq<Line>, saver: Saver) returns (count: nat, failed: nat, err: bool,
      saved: seq<bool>)
    modifies saver
    ensures |saved| == |RowsOf(lines)| && saver.vectors == Saved(old(saver.vectors), RowsOf(lines), saved)
    ensures count + failed == |RowsOf(lines)| && failed == Failures(saved)
    ensures err <==> failed > 0 || !Readable(lines)
    ensures !err ==> saver.vectors == old(saver.vectors) + RowMap(RowsOf(lines))
  {
    count, failed, saved := 0, 0, [];
    ghost var rows := [];
    var i := 0;
    NothingSaved(saver.vectors);
    assert lines[0..] == lines && [] + RowsOf(lines) == RowsOf(lines);
    hide RowsOf, Saved, Failures, RowMap;
    while i < |lines|
      invariant 0 <= i <= |lines| && RowsOf(lines) == rows + RowsOf(lines[i..])
      invariant |saved| == |rows| && saver.vectors == Saved(old(saver.vectors), rows, saved)
      invariant count + failed == |rows| && failed == Failures(saved)
      invariant forall k :: 0 <= k < i ==> !Breaks(lines[k])
    {
      var line := lines[i];
      ReadNext(lines, rows, i);
      if line.Blank? {
        i := i + 1;
        continue;
      }
      if line.Garbled? {
        return count, failed, true, saved;
      }
      if line.failed || !line.answered || line.code != 200 {
        i := i + 1;
        continue;
      }
      if line.body.Malformed? || |line.body.data| == 0 || |line.body.data[0]| == 0 {
        return count, failed, true, saved;
      }
      var row := Row(line.id, line.body.data[0]);
      var ok := saver.SaveEmbedding(row.id, row.vector);
      SavedNext(old(saver.vectors), rows, saved, row, ok);
      if ok {
        count := count + 1;
      } else {
        failed := failed + 1;
      }
      rows, saved := rows + [row], saved + [ok];
      i := i + 1;
    }
    ReadAll(lines, rows, i);
    if failed == 0 { AllSaved(old(saver.vectors), rows, saved); }
    err := failed > 0;
  }

  /** What line i adds to the rows of the lines before it. */
  lemma {:induction false} ReadNext(lines: seq<Line>, rows: seq<Row>, i: nat)
    requires i < |lines| && RowsOf(lines) == rows + RowsOf(lines[i..])
    ensures Breaks(lines[i]) ==> RowsOf(lines) == rows
    ensures !Breaks(lines[i]) && Yields(lines[i]) ==>
              RowsOf(lines) == rows + [Row(lines[i].id, lines[i].body.data[0])] + RowsOf(lines[i + 1..])
    ensures !Breaks(lines[i]) && !Yields(lines[i]) ==> RowsOf(lines) == rows + RowsOf(lines[i + 1..])
  {
    assert lines[i..][0] == lines[i] && lines[i..][1..] == lines[i + 1..];
    assert rows + [] == rows && [] + RowsOf(lines[i + 1..]) == RowsOf(lines[i + 1..]);
    if Yields(lines[i]) {
      var row := [Row(lines[i].id, lines[i].body.data[0])];
      assert rows + (row + RowsOf(lines[i + 1..])) == rows + row + RowsOf(lines[i + 1..]);
    }
  }

  lemma {:induction false} ReadAll(lines: seq<Line>, rows: seq<Row>, i: nat)
    requires i == |lines| && RowsOf(lines) == rows + RowsOf(lines[i..])
    ensures RowsOf(lines) == rows
  {
    assert lines[i..] == [] && rows + [] == rows;
  }

  lemma {:induction false} NothingSaved(store: Vectors)
    ensures Saved(store, [], []) == store && Failures([]) == 0
  {
  }

  lemma {:induction false} SavedNext(store: Vectors, rows: seq<Row>, saved: seq<bool>, row: Row, ok: bool)
    requires |saved| == |rows|
    ensures Saved(store, rows + [row], saved + [ok])
         == if ok then Saved(store, rows, saved)[row.id := row.vector] else Saved(store, rows, saved)
    ensures Failures(saved + [ok]) == Failures(saved) + if ok then 0 else 1
  {
    assert (rows + [row])[..|rows|] == rows && (saved + [ok])[..|rows|] == saved;
  }

  // ---------- the request file ----------

  datatype SymbolText = SymbolText(id: Id, text: string)

  ghost predicate OncePerId(symbols: seq<SymbolText>) {
    forall i, j :: 0 <= i < j < |symbols| ==> symbols[i].id != symbols[j].id
  }

  /** WriteJSONL: one request per symbol in order, refused as a whole when an ID repeats. */
  method WriteJSONL(symbols: seq<SymbolText>) returns (ok: bool, requests: seq<SymbolText>)
    ensures ok <==> OncePerId(symbols)
    ensures requests == if ok then symbols else []
  {
    var seen: set<Id> := {};
    requests := [];
    for i := 0 to |symbols|
      invariant requests == symbols[..i]
      invariant forall k :: 0 <= k < i ==> symbols[k].id in seen
      invariant forall id <- seen :: exists k :: 0 <= k < i && symbols[k].id == id
      invariant forall k, j :: 0 <= k < j < i ==> symbols[k].id != symbols[j].id
    {
      if symbols[i].id in seen {
        return false, [];
      }
      seen := seen + {symbols[i].id};
      requests := requests + [symbols[i]];
    }
    return true, requests;
  }
}
