/** What the batch commands do when nothing fails, whatever state they start from: which guard a
    loaded state meets, that a paid batch is recovered, that a new one is noted and then left
    alone. BatchProtocol says what may never happen; this says what does. */
module BatchOutcomes {
  import opened BatchResults
  import opened BatchProtocol

  // ---------- which guard a state meets ----------

  /** A batch of the index with this fingerprint; an empty one is nobody's. */
  predicate SameIndex(st: BatchState, fp: string) { st.fingerprint == fp && fp != "" }

  /** Heard of within twelve hours, in nanoseconds. */
  predicate Recent(st: BatchState, now: int) { now - st.updatedAt <= 12 * 60 * 60 * 1_000_000_000 }

  predicate Running(st: BatchState) { st.status.Validating? || st.status.InProgress? }

  /** The five ways a loaded state can go, each exactly when. */
  lemma {:induction false} DecidesExactly(run: Index, st: BatchState)
    requires run.loaded == Some(st)
    ensures Decide(run) == Idle <==>
              || (Running(st) && Recent(st, run.now) && SameIndex(st, run.fp))
              || (st.status.Completed? && SameIndex(st, run.fp) && st.outputFile == "")
    ensures Decide(run) == Saving(ByIndex(run), st, 0, 0) <==>
              st.status.Completed? && SameIndex(st, run.fp) && st.outputFile != ""
    ensures Decide(run) == Asking(run, st) <==> Running(st) && !Recent(st, run.now)
    ensures Decide(run) == Clearing(run, st) <==>
              || st.status.Creating?
              || (st.status.Completed? && !SameIndex(st, run.fp))
              || (Running(st) && Recent(st, run.now) && !SameIndex(st, run.fp))
    ensures Decide(run) == Fresh(run) <==>
              st.status.Failed? || st.status.Cancelled? || st.status.Expired? || st.status.Other?
  {
  }

  /** Which states allow a new batch, and what the API must have said of a stale one. */
  lemma {:induction false} MayCreateExactly(run: Index, st: BatchState)
    requires run.loaded == Some(st)
    ensures MayCreate(run) <==>
              || st.status.Creating? || st.status.Other?
              || st.status.Failed? || st.status.Cancelled? || st.status.Expired?
              || (st.status.Completed? && !SameIndex(st, run.fp))
              || (Running(st) && Recent(st, run.now) && !SameIndex(st, run.fp))
              || (Running(st) && !Recent(st, run.now) && run.api.None?)
              || (Running(st) && !Recent(st, run.now) && run.api.Some?
                  && (run.api.value.Failed? || run.api.value.Cancelled? || run.api.value.Expired?
                      || (run.api.value.Completed? && !SameIndex(st, run.fp))))
  {
  }

  /** What becomes of a stale batch, by what the API truthfully says of it. */
  lemma {:induction false} AskedExactly(w: World, run: Index, st: BatchState, status: Status, output: string, at: int)
    requires w.pc == Asking(run, st) && Truthful(w.kept.server, st.batchId, Report(status, output))
    ensures var w1 := Step(w, Answers(Report(status, output), at));
            var done := BatchState(st.batchId, st.inputFile, output, Completed, at, st.fingerprint);
            && w1.kept.disk == w.kept.disk && w1.kept.server == w.kept.server && w1.kept.store == w.kept.store
            && (w1.pc.Clearing? <==>
                  || status.Failed? || status.Cancelled? || status.Expired?
                  || (status.Completed? && !SameIndex(st, run.fp)))
            && (w1.pc == Saving(ByIndex(run.(api := Some(status))), done, 0, 0) <==>
                  status.Completed? && SameIndex(st, run.fp) && output != "")
            && (w1.pc == Idle <==>
                  || status.Creating? || status.Validating? || status.InProgress? || status.Other?
                  || (status.Completed? && SameIndex(st, run.fp) && output == ""))
  {
  }

  /** The same as the step after the question. */
  lemma {:induction false} AskedNext(w: World, run: Index, st: BatchState, a: Answer, at: int)
    requires w.pc == Asking(run, st) && Truthful(w.kept.server, st.batchId, a)
    ensures var w1 := Step(w, Answers(a, at));
            && w1.kept == w.kept.(settled := w1.kept.settled)
            && (a.Unreachable? ==> w1.pc == Clearing(run, st))
            && (a.Report? ==>
                  var asked := run.(api := Some(a.status));
                  if Dead(a.status) then w1.pc == Clearing(asked, st)
                  else if a.status == Completed
                  then w1.pc == Recover(asked, st.(status := Completed, outputFile := a.outputFile, updatedAt := at))
                  else w1.pc == Idle)
  {
  }

  lemma {:induction false} ClearedNext(w: World, run: Index, st: BatchState, ok: bool)
    requires w.pc == Clearing(run, st)
    ensures var w1 := Step(w, if ok then Succeeds else Fails);
            && w1.pc == (if ok then Fresh(run) else Idle)
            && w1.kept.server == w.kept.server && w1.kept.store == w.kept.store
            && w1.kept.disk == if ok then None else w.kept.disk
  {
    hide Named;
  }

  /** The statuses that the benign runs allow for. */
  lemma {:induction false} KnownExactly(s: Status)
    ensures Known(s) <==> !s.Creating? && !s.Other?
  {
  }

  // ---------- recovery ----------

  function Successes(n: nat): seq<Choice> { seq(n, _ => Succeeds) }

  lemma {:induction false} OneMore(w: World, n: nat)
    ensures From(w, Successes(n + 1)) == Step(From(w, Successes(n)), Succeeds)
  {
    assert Successes(n + 1)[..n] == Successes(n);
  }

  lemma {:induction false} FirstStep(w: World, c: Choice, cs: seq<Choice>)
    ensures From(w, [c] + cs) == From(Step(w, c), cs)
  {
    FromAppend(w, [c], cs);
    assert [c][..0] == [] && From(w, []) == w;
    assert From(w, [c]) == Step(w, c);
  }

  /** What the store answers to each row. */
  function RowAnswers(saved: seq<bool>): seq<Choice> {
    seq(|saved|, k requires 0 <= k < |saved| => if saved[k] then Succeeds else Fails)
  }

  lemma {:induction false} OneRow(w: World, owner: Owner, st: BatchState, i: nat, bad: nat, ok: bool)
    requires w.pc == Saving(owner, st, i, bad) && st.batchId in w.kept.server
    requires i < |w.kept.server[st.batchId].rows|
    ensures var row := w.kept.server[st.batchId].rows[i];
            Step(w, if ok then Succeeds else Fails)
              == World(if ok then w.kept.(store := w.kept.store[row.id := row.vector]) else w.kept,
                       Saving(owner, st, i + 1, if ok then bad else bad + 1))
  {
  }

  /** The machine saves row by row just as PersistEmbeddings is specified to. */
  lemma {:induction false} RowsSaved(w: World, owner: Owner, st: BatchState, saved: seq<bool>)
    requires w.pc == Saving(owner, st, 0, 0) && st.batchId in w.kept.server
    requires |saved| <= |w.kept.server[st.batchId].rows|
    ensures var rows := w.kept.server[st.batchId].rows[..|saved|];
            From(w, RowAnswers(saved))
              == World(w.kept.(store := Saved(w.kept.store, rows, saved)),
                       Saving(owner, st, |saved|, Failures(saved)))
  {
    var rows := w.kept.server[st.batchId].rows;
    if |saved| > 0 {
      var n := |saved| - 1;
      RowsSaved(w, owner, st, saved[..n]);
      OneRow(From(w, RowAnswers(saved[..n])), owner, st, n, Failures(saved[..n]), saved[n]);
      hide Step, RowMap;
      assert RowAnswers(saved)[..n] == RowAnswers(saved[..n]);
      assert From(w, RowAnswers(saved)) == Step(From(w, RowAnswers(saved[..n])), if saved[n] then Succeeds else Fails);
      assert rows[..n + 1][..n] == rows[..n];
      hide From;
    }
  }

  /** If any row fails, the run ends with an error and the state file stays as it was. */
  lemma {:induction false} FailedRowKeepsFile(w: World, owner: Owner, st: BatchState, saved: seq<bool>)
    requires w.pc == Saving(owner, st, 0, 0) && st.batchId in w.kept.server
    requires |saved| == |w.kept.server[st.batchId].rows|
    ensures var w1 := Step(From(w, RowAnswers(saved)), Succeeds);
            && (Failures(saved) > 0 <==> w1.pc == Idle)
            && (Failures(saved) == 0 <==> w1.pc == Stored(st))
            && w1.kept.disk == w.kept.disk && w1.kept.server == w.kept.server
            && w1.kept.store == Saved(w.kept.store, w.kept.server[st.batchId].rows, saved)
  {
    RowsSaved(w, owner, st, saved);
    var rows := w.kept.server[st.batchId].rows;
    assert rows[..|saved|] == rows;
    hide From, RowAnswers, Saved;
  }

  /** From k0 to k the batch was recovered: every row of it stored and no other ID touched, the
      batch settled, and the state file cleared. */
  ghost predicate RecoveredIn(k0: Kept, k: Kept, id: BatchId) {
    && id in k0.server && k.server == k0.server && k.disk == None
    && k.store == k0.store + RowMap(k0.server[id].rows) && Holds(k.store, k0.server[id].rows)
    && k.settled.Keys == k0.settled.Keys + {id} && (id !in k0.settled ==> k.settled[id] == ResultsStored)
  }

  lemma {:induction false} SavedWhole(w: World, owner: Owner, st: BatchState)
    requires w.pc == Saving(owner, st, 0, 0) && st.batchId in w.kept.server
    ensures var w1 := From(w, Successes(|w.kept.server[st.batchId].rows| + 2));
            w1.pc == Idle && RecoveredIn(w.kept, w1.kept, st.batchId)
  {
    var rows := w.kept.server[st.batchId].rows;
    var saved := seq(|rows|, _ => true);
    NoFailures(|rows|);
    AllSaved(w.kept.store, rows, saved);
    RowsSaved(w, owner, st, saved);
    assert rows[..|rows|] == rows && RowAnswers(saved) == Successes(|rows|);
    OneMore(w, |rows|);
    OneMore(w, |rows| + 1);
    hide *;
    AllRowsSaved(From(w, Successes(|rows|)), w.kept, owner, st);
  }

  lemma {:induction false} AllRowsSaved(w: World, k0: Kept, owner: Owner, st: BatchState)
    requires st.batchId in k0.server && w.pc == Saving(owner, st, |k0.server[st.batchId].rows|, 0)
    requires w.kept == k0.(store := k0.store + RowMap(k0.server[st.batchId].rows))
    ensures var w1 := Step(Step(w, Succeeds), Succeeds); w1.pc == Idle && RecoveredIn(k0, w1.kept, st.batchId)
  {
    var w1 := World(Settle(w.kept, {st.batchId}, ResultsStored), Stored(st));
    assert Step(w, Succeeds) == w1;
    hide RowMap;
  }

  lemma {:induction false} NoFailures(n: nat)
    ensures Failures(seq(n, _ => true)) == 0
  {
    if n > 0 {
      var saved := seq(n, _ => true);
      assert saved[..n - 1] == seq(n - 1, _ => true);
      NoFailures(n - 1);
    }
  }

  /** An index run recovers the completed batch of its index, however many rows it has. */
  lemma {:induction false} IndexRecovers(w: World, st: BatchState, fp: string, now: int)
    requires w.pc == Idle && w.kept.disk == Some(st) && st.status.Completed? && SameIndex(st, fp)
    requires st.outputFile != "" && st.batchId in w.kept.server
    ensures var w1 := From(w, [RunIndex(fp, now)] + Successes(|w.kept.server[st.batchId].rows| + 2));
            w1.pc == Idle && RecoveredIn(w.kept, w1.kept, st.batchId)
  {
    var run := Index(fp, now, Some(st), None);
    FirstStep(w, RunIndex(fp, now), Successes(|w.kept.server[st.batchId].rows| + 2));
    SavedWhole(w.(pc := Saving(ByIndex(run), st, 0, 0)), ByIndex(run), st);
    hide From, RecoveredIn;
  }

  /** So it does one that it took for running and that the API reports completed. */
  lemma {:induction false} StaleRecovers(w: World, st: BatchState, fp: string, now: int, at: int)
    requires w.pc == Idle && w.kept.disk == Some(st) && Running(st) && !Recent(st, now) && SameIndex(st, fp)
    requires st.batchId in w.kept.server && w.kept.server[st.batchId].status.Completed?
    requires w.kept.server[st.batchId].outputFile != ""
    ensures var b := w.kept.server[st.batchId];
            var cs := [RunIndex(fp, now)] + ([Answers(Report(b.status, b.outputFile), at)] + Successes(|b.rows| + 2));
            var w1 := From(w, cs);
            w1.pc == Idle && RecoveredIn(w.kept, w1.kept, st.batchId)
  {
    var b := w.kept.server[st.batchId];
    var run := Index(fp, now, Some(st), None);
    var w0 := w.(pc := Asking(run, st));
    var done := BatchState(st.batchId, st.inputFile, b.outputFile, Completed, at, st.fingerprint);
    var owner := ByIndex(run.(api := Some(b.status)));
    FirstStep(w, RunIndex(fp, now), [Answers(Report(b.status, b.outputFile), at)] + Successes(|b.rows| + 2));
    FirstStep(w0, Answers(Report(b.status, b.outputFile), at), Successes(|b.rows| + 2));
    AskedExactly(w0, run, st, b.status, b.outputFile, at);
    assert Step(w0, Answers(Report(b.status, b.outputFile), at)) == w.(pc := Saving(owner, done, 0, 0));
    SavedWhole(w.(pc := Saving(owner, done, 0, 0)), owner, done);
    hide From, RecoveredIn;
  }

  /** embed-status recovers a batch the server has completed, whatever the state file said of it. */
  lemma {:induction false} StatusRecovers(w: World, st: BatchState, at: int)
    requires w.pc == Idle && w.kept.disk == Some(st)
    requires st.batchId in w.kept.server && w.kept.server[st.batchId].status.Completed?
    requires w.kept.server[st.batchId].outputFile != ""
    ensures var b := w.kept.server[st.batchId];
            var w1 := From(w, StatusRun(b.outputFile, at, |b.rows| + 2));
            w1.pc == Idle && RecoveredIn(w.kept, w1.kept, st.batchId)
  {
    var b := w.kept.server[st.batchId];
    var noted := BatchState(st.batchId, st.inputFile, b.outputFile, Completed, at, st.fingerprint);
    var w1 := World(w.kept.(disk := Some(noted)), Saving(ByStatus, noted, 0, 0));
    var cs := StatusRun(b.outputFile, at, |b.rows| + 2);
    StatusDownloads(w, st, b.outputFile, at, |b.rows| + 2);
    SavedWhole(w1, ByStatus, noted);
    hide From, RecoveredIn, Successes, StatusRun;
    RecoveredSame(w1.kept, w.kept, From(w, cs).kept, st.batchId);
  }

  /** embed-status asks and hears that the batch is completed; everything then succeeds. */
  function StatusRun(output: string, at: int, n: nat): seq<Choice> {
    [RunStatus] + ([Answers(Report(Completed, output), at)] + Successes(2 + n))
  }

  lemma {:induction false} StatusDownloads(w: World, st: BatchState, output: string, at: int, n: nat)
    requires w.pc == Idle && w.kept.disk == Some(st) && output != ""
    requires Truthful(w.kept.server, st.batchId, Report(Completed, output))
    ensures var noted := BatchState(st.batchId, st.inputFile, output, Completed, at, st.fingerprint);
            From(w, StatusRun(output, at, n))
              == From(World(w.kept.(disk := Some(noted)), Saving(ByStatus, noted, 0, 0)), Successes(n))
  {
    var noted := BatchState(st.batchId, st.inputFile, output, Completed, at, st.fingerprint);
    var answer := Answers(Report(Completed, output), at);
    StatusAsks(w, st, Completed, output, at);
    hide From, Step, Successes, Truthful;
    FirstStep(w, RunStatus, [answer] + Successes(2 + n));
    FirstStep(w.(pc := Polling(st)), answer, Successes(2 + n));
    StatusNotes(w.(pc := Polled(noted)), noted, n);
  }

  lemma {:induction false} RecoveredSame(k0: Kept, k1: Kept, k: Kept, id: BatchId)
    requires k0 == k1.(disk := k0.disk) && RecoveredIn(k0, k, id)
    ensures RecoveredIn(k1, k, id)
  {
  }

  lemma {:induction false} StatusAsks(w: World, st: BatchState, status: Status, output: string, at: int)
    requires w.pc == Idle && w.kept.disk == Some(st) && !Dead(status)
    requires Truthful(w.kept.server, st.batchId, Report(status, output))
    ensures Step(w, RunStatus) == w.(pc := Polling(st))
    ensures Step(w.(pc := Polling(st)), Answers(Report(status, output), at))
         == w.(pc := Polled(BatchState(st.batchId, st.inputFile, output, status, at, st.fingerprint)))
  {
  }

  lemma {:induction false} StatusNotes(w: World, st: BatchState, n: nat)
    requires w.pc == Polled(st) && st.status.Completed? && st.outputFile != ""
    ensures From(w, Successes(2 + n))
         == From(World(w.kept.(disk := Some(st)), Saving(ByStatus, st, 0, 0)), Successes(n))
  {
    assert Successes(2 + n) == [Succeeds] + ([Succeeds] + Successes(n));
    FirstStep(w, Succeeds, [Succeeds] + Successes(n));
    FirstStep(World(w.kept.(disk := Some(st)), Acting(st)), Succeeds, Successes(n));
    hide From;
  }

  /** A completed batch without an output file ends an index run with everything kept as it was,
      and an embed-status run with the answer noted. */
  lemma {:induction false} NothingToDownload(w: World, st: BatchState, fp: string, now: int, at: int)
    requires w.pc == Idle && w.kept.disk == Some(st)
    ensures st.status.Completed? && SameIndex(st, fp) && st.outputFile == "" ==> Step(w, RunIndex(fp, now)) == w
    ensures st.batchId in w.kept.server && w.kept.server[st.batchId].status.Completed?
            && w.kept.server[st.batchId].outputFile == ""
            ==>
              From(w, StatusRun("", at, 0))
              == World(w.kept.(disk := Some(st.(status := Completed, outputFile := "", updatedAt := at))), Idle)
  {
    var noted := st.(status := Completed, outputFile := "", updatedAt := at);
    if st.batchId in w.kept.server && w.kept.server[st.batchId].status.Completed?
      && w.kept.server[st.batchId].outputFile == ""
    {
      StatusAsks(w, st, Completed, "", at);
      FirstStep(w, RunStatus, [Answers(Report(Completed, ""), at)] + Successes(2));
      FirstStep(w.(pc := Polling(st)), Answers(Report(Completed, ""), at), Successes(2));
      assert Successes(2) == [Succeeds, Succeeds];
      FromTwo(w.(pc := Polled(noted)), Succeeds, Succeeds);
      hide From, PollingStep, AskingStep;
    }
  }

  /** The whole life of a batch: an index run makes it, the server completes it, embed-status stores it. */
  function WholeLife(output: string, rows: seq<Row>, at: int): seq<Choice> {
    FIRST_BREADCRUMB + FIRST_BATCH
    + ([ServerMoves(BatchId("b1"), Completed, output, rows)] + StatusRun(output, at, |rows| + 2))
  }

  lemma {:induction false} WholeLifeReached(output: string, rows: seq<Row>, at: int)
    requires output != ""
    ensures var w := Run(WholeLife(output, rows, at));
            && w.pc == Idle && w.kept.disk == None && w.kept.store == RowMap(rows)
            && w.kept.settled == map[BatchId("b1") := ResultsStored]
  {
    var id := BatchId("b1");
    var made := FIRST_BREADCRUMB + FIRST_BATCH;
    var move := ServerMoves(id, Completed, output, rows);
    BatchReached();
    FromAppend(START, made, [move] + StatusRun(output, at, |rows| + 2));
    FirstStep(Run(made), move, StatusRun(output, at, |rows| + 2));
    var w := Step(Run(made), move);
    assert w.kept.server == map[id := Batch("f1", Completed, output, rows)];
    hide From, Step, StatusRun;
    StatusRecovers(w, w.kept.disk.value, at);
    NothingBefore(RowMap(rows));
  }

  lemma {:induction false} NothingBefore(rows: Vectors)
    ensures map[] + rows == rows
  {
  }

  // ---------- the other answers to embed-status ----------

  /** A batch that failed or was cancelled is forgotten; one that is neither that nor completed
      stays named in the state file, with the answer noted, and is polled again if asked to. */
  lemma {:induction false} StatusEnds(w: World, st: BatchState, status: Status, output: string, at: int)
    requires w.pc == Polling(st) && Truthful(w.kept.server, st.batchId, Report(status, output))
    requires !status.Completed?
    ensures var noted := BatchState(st.batchId, st.inputFile, output, status, at, st.fingerprint);
            var dead := status.Failed? || status.Cancelled?;
            var w1 := Step(Step(w, Answers(Report(status, output), at)), Succeeds);
            && w1.pc == Acting(noted) && w1.kept.disk == Some(noted)
            && w1.kept.server == w.kept.server && w1.kept.store == w.kept.store
            && (dead ==> Step(Step(w1, Succeeds), Succeeds) == World(w1.kept.(disk := None), Idle))
            && (!dead ==> Step(w1, Succeeds) == w1.(pc := Idle) && Step(w1, PollAgain) == w1.(pc := Polling(noted)))
  {
  }

  // ---------- a new batch ----------

  /** What comes after CreateBatch: the new batch is noted if that can be written, and the run is
      over either way. */
  lemma {:induction false} CreateEnds(w: World, run: Index, file: string, id: BatchId, status: Status, ok: bool)
    requires w.pc == Breadcrumb(run, file)
    ensures var c := if ok then Succeeds else Fails; Step(Step(w, CreateFails(None)), c).pc == Idle
    ensures id !in w.kept.server && id != NoBatch ==>
              var w1 := Step(Step(w, Creates(id, status)), if ok then Succeeds else Fails);
              && w1.pc == Idle && w1.kept.store == w.kept.store
              && w1.kept.server == w.kept.server[id := Batch(file, status, "", [])]
              && w1.kept.disk == if ok then Some(BatchState(id, file, "", status, run.now, run.fp)) else w.kept.disk
  {
    assert Step(w, CreateFails(None)) == w.(pc := NotCreated);
    if id !in w.kept.server && id != NoBatch {
      MadeNext(w, run, file, id, status);
      NotedNext(Step(w, Creates(id, status)), run, BatchState(id, file, "", status, run.now, run.fp), ok);
    }
    hide CreateStep, CreatedStep;
  }

  lemma {:induction false} MadeNext(w: World, run: Index, file: string, id: BatchId, status: Status)
    requires w.pc == Breadcrumb(run, file) && id !in w.kept.server && id != NoBatch
    ensures var w1 := Step(w, Creates(id, status));
            && w1.pc == Created(run, BatchState(id, file, "", status, run.now, run.fp))
            && w1.kept.server == w.kept.server[id := Batch(file, status, "", [])]
            && w1.kept.store == w.kept.store && w1.kept.disk == w.kept.disk
  {
  }

  lemma {:induction false} NotedNext(w: World, run: Index, st: BatchState, ok: bool)
    requires w.pc == Created(run, st)
    ensures Step(w, if ok then Succeeds else Fails)
         == World(w.kept.(disk := if ok then Some(st) else w.kept.disk), Idle)
  {
  }

  /** A run past the guards notes the file it has uploaded, then makes its batch and notes that, with its
      own clock and fingerprint. */
  lemma {:induction false} BatchNoted(w: World, run: Index, file: string, id: BatchId, status: Status)
    requires w.pc == Fresh(run) && NewFile(w.kept, file) && id !in w.kept.server && id != NoBatch
    ensures var cs := [Uploads(file), Succeeds, Creates(id, status)] + [Succeeds];
            var w1 := From(w, cs);
            && Step(Step(w, Uploads(file)), Succeeds).kept.disk
               == Some(BatchState(NoBatch, file, "", Creating, run.now, run.fp))
            && w1.pc == Idle && w1.kept.disk == Some(BatchState(id, file, "", status, run.now, run.fp))
            && w1.kept.server == w.kept.server[id := Batch(file, status, "", [])] && w1.kept.store == w.kept.store
  {
    FromAppend(w, [Uploads(file), Succeeds, Creates(id, status)], [Succeeds]);
    FromThree(w, Uploads(file), Succeeds, Creates(id, status));
    var v := From(w, [Uploads(file), Succeeds, Creates(id, status)]);
    assert [Succeeds] == Successes(1) && Successes(0) == [] && From(v, []) == v;
    OneMore(v, 0);
    CreateEnds(Step(Step(w, Uploads(file)), Succeeds), run, file, id, status, true);
    hide From, CreateStep, CreatedStep, AddBatch;
  }

  /** Within twelve hours the next run of the same index leaves it alone: it ends at once. */
  lemma {:induction false} NotedBatchStands(w: World, id: BatchId, file: string, status: Status, now: int, fp: string,
      later: int)
    requires w.pc == Idle && w.kept.disk == Some(BatchState(id, file, "", status, now, fp)) && fp != ""
    requires status.Validating? || status.InProgress?
    ensures later <= now + 12 * 60 * 60 * 1_000_000_000 ==> Step(w, RunIndex(fp, later)) == w
    ensures later > now + 12 * 60 * 60 * 1_000_000_000 ==> Step(w, RunIndex(fp, later)).pc.Asking?
    ensures forall other :: other != fp && later <= now + 12 * 60 * 60 * 1_000_000_000 ==>
              Step(w, RunIndex(other, later)).pc.Clearing?
  {
  }
}
