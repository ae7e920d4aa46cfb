/** startBatchEmbeddings, recoverCompletedBatch and runEmbedStatus in their own control flow.
    Every file, server and store operation they perform is shown to be a step of the machine of
    BatchProtocol, so what its runs keep, they keep, wherever they crash. */
module BatchSession {
  import opened BatchResults
  import opened BatchProtocol
  import opened BatchOutcomes

  /** How a command ended. */
  datatype Ending = Error | NoSymbols | BatchRecovered | BatchInProgress | BatchStarted | StatusShown

  /** Every row of the batch is stored. */
  ghost predicate Recovered(k: Kept, id: BatchId) { id in k.server && Holds(k.store, k.server[id].rows) }

  /** A batch of the same index, heard of lately, is under way. */
  predicate UnderWay(st: BatchState, fp: string, now: int) {
    (st.status == Validating || st.status == InProgress) && now - st.updatedAt <= STALE_THRESHOLD && Matches(st, fp)
  }

  /** The server has the batch as not finished. */
  predicate StillRuns(k: Kept, id: BatchId) {
    id in k.server && (k.server[id].status == Validating || k.server[id].status == InProgress)
  }

  /** The batch that the state file names is under way: heard of lately and of the same index, or
      not for long but still running. */
  predicate InProgressFor(disk: Option<BatchState>, k: Kept, fp: string, now: int) {
    && disk.Some? && (disk.value.status == Validating || disk.value.status == InProgress)
    && (UnderWay(disk.value, fp, now)
        || (now - disk.value.updatedAt > STALE_THRESHOLD && StillRuns(k, disk.value.batchId)))
  }

  /** Why embed-status may clear the state file of the batch: stored whole, failed or cancelled. */
  ghost predicate MayForget(k: Kept, id: BatchId) {
    && id in k.server
    && ((k.server[id].status == Completed && Recovered(k, id)) || k.server[id].status == Failed
        || k.server[id].status == Cancelled)
  }

  /** From k0 to k one batch was made, of the given file, and the state file names it, with the
      run's fingerprint and clock. */
  ghost predicate Started(k0: Kept, k: Kept, fp: string, now: int, file: string) {
    && k.disk.Some? && k.disk.value.status != Creating
    && k.disk.value == BatchState(k.disk.value.batchId, file, "", k.disk.value.status, now, fp)
    && k.disk.value.batchId !in k0.server && k.server.Keys == k0.server.Keys + {k.disk.value.batchId}
    && k.server[k.disk.value.batchId].inputFile == file
  }

  /** What embed-status does not show as in progress. */
  predicate Ended(s: Status) { s == Completed || s == Failed || s == Cancelled }

  /** Both state files name the same batch, for the same index, or there is none. */
  predicate SameBatch(a: Option<BatchState>, b: Option<BatchState>) {
    a.Some? == b.Some? && (a.Some? ==>
      a.value.batchId == b.value.batchId && a.value.inputFile == b.value.inputFile
          && a.value.fingerprint == b.value.fingerprint)
  }

  /** A batch just started is under way: for twelve hours a run of the same index ends at once, with
      everything as it is. */
  lemma {:induction false} StartedStands(k0: Kept, w: World, fp: string, now: int, file: string, later: int)
    requires w.pc == Idle && Started(k0, w.kept, fp, now, file) && fp != ""
    requires w.kept.disk.value.status == Validating || w.kept.disk.value.status == InProgress
    requires later <= now + 12 * 60 * 60 * 1_000_000_000
    ensures UnderWay(w.kept.disk.value, fp, later) && Step(w, RunIndex(fp, later)) == w
  {
    var st := w.kept.disk.value;
    NotedBatchStands(w, st.batchId, file, st.status, now, fp, later);
  }

  /** The batch is completed and has nothing to download: so the state file says of a batch of this
      index, or so the server says of one that was taken for running too long. */
  predicate NoOutput(disk: Option<BatchState>, k: Kept, fp: string, now: int) {
    && disk.Some? && Matches(disk.value, fp)
    && ((disk.value.status == Completed && disk.value.outputFile == "")
        || ((disk.value.status == Validating || disk.value.status == InProgress)
            && now - disk.value.updatedAt > STALE_THRESHOLD && EmptyHanded(k, disk.value.batchId)))
  }

  predicate EmptyHanded(k: Kept, id: BatchId) {
    id in k.server && k.server[id].status == Completed && k.server[id].outputFile == ""
  }

  /** An operation that failed: a file or store operation, an answer that did not come, a batch not made. */
  predicate Fault(c: Choice) { c == Fails || c.CreateFails? || (c.Answers? && c.answer == Unreachable) }

  function Faults(cs: seq<Choice>): nat {
    if |cs| == 0 then 0 else Faults(cs[..|cs| - 1]) + if Fault(cs[|cs| - 1]) then 1 else 0
  }

  lemma {:induction false} StartedFrom(k0: Kept, k1: Kept)
    requires k0.server.Keys == k1.server.Keys
    ensures forall k, fp, now, file :: Started(k1, k, fp, now, file) ==> Started(k0, k, fp, now, file)
  {
  }

  class Session {
    var world: World
    ghost var trace: seq<Choice>
    ghost var faults: nat

    /** The world is the one that the steps recorded so far lead to, and faults of them failed. */
    ghost predicate Valid()
      reads this
    {
      world == Run(trace) && AllBenign(trace) && faults == Faults(trace)
    }

    constructor ()
      ensures Valid() && world == START && trace == [] && faults == 0
    {
      world, trace, faults := START, [], 0;
    }

    // ---------- the operations a command performs ----------

    method Do(c: Choice)
      requires Valid() && Benign(c)
      modifies this
      ensures Valid() && world == Step(old(world), c) && old(trace) <= trace
      ensures faults == old(faults) + if Fault(c) then 1 else 0
    {
      RunOne(trace, c);
      hide Run, Step;
      world := Step(world, c);
      trace := trace + [c];
      faults := faults + if Fault(c) then 1 else 0;
    }

    /** SaveState, ClearState, or saving one row. */
    method Write() returns (ok: bool)
      requires Valid()
      modifies this
      ensures Valid() && old(trace) <= trace && world == Step(old(world), if ok then Succeeds else Fails)
      ensures faults == old(faults) + if ok then 0 else 1
    {
      ok := *;
      Do(if ok then Succeeds else Fails);
    }

    /** The server moves on while a command waits for it. */
    method Meanwhile(id: BatchId)
      requires Valid()
      modifies this
      ensures Valid() && old(trace) <= trace && world.pc == old(world.pc)
      ensures world.kept == old(world.kept).(server := world.kept.server)
          && world.kept.server.Keys == old(world.kept.server).Keys
      ensures faults == old(faults)
    {
      var to: Status := *;
      var output: string := *;
      var rows: seq<Row> := *;
      if Known(to) {
        Do(ServerMoves(id, to, output, rows));
      }
    }

    method GetBatchStatus(id: BatchId, at: int) returns (a: Answer)
      requires Valid()
      modifies this
      ensures Valid() && old(trace) <= trace
      ensures Truthful(old(world).kept.server, id, a) && world == Step(old(world), Answers(a, at))
      ensures faults == old(faults) + if a == Unreachable then 1 else 0
    {
      var reached: bool := *;
      a := Unreachable;
      if reached && id in world.kept.server {
        a := Report(world.kept.server[id].status, world.kept.server[id].outputFile);
      }
      Do(Answers(a, at));
    }

    // ---------- cmd/index.go, cmd/embed.go ----------

    /** downloadAndSaveEmbeddings: no error only when every row was saved; an error only when there
        is no output file, and then nothing is touched, or when some operation failed. */
    method DownloadAndSave(st: BatchState, ghost owner: Owner) returns (err: bool)
      requires Valid() && world.pc == Download(owner, st)
      modifies this
      ensures Valid() && old(trace) <= trace && world.pc == (if err then Idle else Stored(st))
      ensures world.kept.server == old(world.kept.server) && world.kept.disk == old(world.kept.disk)
      ensures !err ==> st.batchId in world.kept.server && Holds(world.kept.store, world.kept.server[st.batchId].rows)
      ensures faults >= old(faults) && (err <==> st.outputFile == "" || faults > old(faults))
      ensures st.outputFile == "" ==> world.kept == old(world.kept)
    {
      hide Valid, Holds;
      NoRowHolds(world.kept.store);
      if st.outputFile == "" {
        return true;
      }
      var reached: bool := *;
      if !reached || st.batchId !in world.kept.server {
        Do(Answers(Unreachable, 0));
        return true;
      }
      var rows := world.kept.server[st.batchId].rows;
      var failed := 0;
      for i := 0 to |rows|
        invariant Valid() && old(trace) <= trace && world.pc == Saving(owner, st, i, failed)
        invariant world.kept.server == old(world.kept.server) && world.kept.disk == old(world.kept.disk)
        invariant failed == 0 ==> Holds(world.kept.store, rows[..i])
        invariant faults == old(faults) + failed
      {
        var parsed: bool := *;
        if !parsed {
          Do(Answers(Unreachable, 0));
          return true;
        }
        if failed == 0 { RowSaved(world.kept.store, rows, i); }
        var ok := Write();
        if !ok {
          failed := failed + 1;
        }
      }
      assert rows[..|rows|] == rows;
      Do(Succeeds);
      return failed > 0;
    }

    /** recoverCompletedBatch: handled for the same fingerprint, without error only with every row of
        the batch stored; not handled only with the file cleared for another one. An error only when
        there is no output file, and then nothing is touched, or when some operation failed. */
    method RecoverCompletedBatch(st: BatchState, fp: string, ghost run: Index) returns (handled: bool, err: bool)
      requires Valid() && run.fp == fp && world.pc == Recover(run, st)
      modifies this
      ensures Valid() && old(trace) <= trace
      ensures world.pc == if !handled && !err then Fresh(run) else Idle
      ensures world.kept.server == old(world.kept.server)
      ensures err ==> world.kept.disk == old(world.kept.disk)
      ensures handled && !err ==> Matches(st, fp) && Recovered(world.kept, st.batchId)
      ensures !handled && !err ==> !Matches(st, fp) && world.kept.disk == None
      ensures Matches(st, fp) ==> handled
      ensures faults >= old(faults)
      ensures err ==> faults > old(faults) || (Matches(st, fp) && st.outputFile == "" && world.kept == old(world.kept))
      ensures handled && !err ==> st.outputFile != "" && (world.kept.disk == None || faults > old(faults))
    {
      hide Valid, Holds;
      if !Matches(st, fp) {
        var ok := Write();
        return false, !ok;
      }
      var failed := DownloadAndSave(st, ByIndex(run));
      if failed {
        return true, true;
      }
      var _ := Write();
      return true, false;
    }

    /** The guard on a batch under way: a fresh one of the same index ends the run and changes
        nothing; so does an old one that the API still reports running. */
    method CheckInProgress(st: BatchState, fp: string, now: int, ghost run: Index) returns (go: bool, end: Ending)
      requires Valid() && run == Index(fp, now, Some(st), None) && world.pc == Decide(run)
      requires st.status == Validating || st.status == InProgress
      modifies this
      ensures Valid() && old(trace) <= trace && world.kept.server.Keys == old(world.kept.server).Keys
      ensures if go then world.pc.Fresh? && world.pc.run == run.(api := world.pc.run.api) else world.pc == Idle
      ensures now - st.updatedAt <= STALE_THRESHOLD && Matches(st, fp)
          ==> !go && end == BatchInProgress && world.kept == old(world.kept)
      ensures !go ==> end == Error || end == BatchRecovered || end == BatchInProgress
      ensures !go && end == BatchInProgress ==>
                && world.kept.disk == old(world.kept.disk)
                && (UnderWay(st, fp, now)
                    || (now - st.updatedAt > STALE_THRESHOLD && StillRuns(world.kept, st.batchId)))
      ensures !go && end == BatchRecovered ==> Matches(st, fp) && Recovered(world.kept, st.batchId)
      ensures faults >= old(faults)
      ensures !go && end == Error ==> faults > old(faults) || NoOutput(Some(st), world.kept, fp, now)
      ensures !go && end == BatchRecovered ==> world.kept.disk == None || faults > old(faults)
    {
      hide Valid, Holds, Recovered, Step, Recover, ClearingStep;
      if now - st.updatedAt > STALE_THRESHOLD {
        Meanwhile(st.batchId);
        var at: int := *;
        KnownServer();
        ghost var asking := world;
        var actual := GetBatchStatus(st.batchId, at);
        AskedNext(asking, run, st, actual, at);
        ghost var asked := world;
        match actual
        case Unreachable =>
          var ok := Write();
          ClearedNext(asked, run, st, ok);
          if !ok { return false, Error; }
        case Report(status, outputFile) =>
          if Dead(status) {
            var ok := Write();
            ClearedNext(asked, run.(api := Some(status)), st, ok);
            if !ok { return false, Error; }
          } else if status == Completed {
            var done := st.(status := Completed, outputFile := outputFile, updatedAt := at);
            var handled, err := RecoverCompletedBatch(done, fp, run.(api := Some(Completed)));
            if err { return false, Error; }
            if handled { return false, BatchRecovered; }
          } else {
            return false, BatchInProgress;
          }
      } else if !Matches(st, fp) {
        var ok := Write();
        ClearedNext(old(world), run, st, ok);
        if !ok { return false, Error; }
      } else {
        return false, BatchInProgress;
      }
      return true, BatchStarted;
    }

    /** The guards at the head of startBatchEmbeddings; go says that none of them returned. */
    method PassGuards(fp: string, now: int) returns (go: bool, end: Ending)
      requires Valid() && world.pc == Idle
      modifies this
      ensures Valid() && old(trace) <= trace && world.kept.server.Keys == old(world.kept.server).Keys
      ensures if go then world.pc.Fresh? && world.pc.run.fp == fp && world.pc.run.now == now
          && world.pc.run.loaded == old(world.kept.disk)
              else world.pc == Idle
      ensures var disk := old(world.kept.disk);
              && (disk.Some? && UnderWay(disk.value, fp, now)
                  ==> !go && end == BatchInProgress && world.kept == old(world.kept))
              && (!go ==> disk.Some? && (end == Error || end == BatchRecovered || end == BatchInProgress))
              && (!go && end == BatchInProgress ==> world.kept.disk == disk && InProgressFor(disk, world.kept, fp, now))
              && (!go && end == BatchRecovered ==>
                    && disk.Some? && Matches(disk.value, fp) && Recovered(world.kept, disk.value.batchId)
                    && (world.kept.disk == None || faults > old(faults)))
              && (!go && end == Error ==> faults > old(faults) || NoOutput(disk, world.kept, fp, now))
      ensures faults >= old(faults)
    {
      hide Valid, Holds;
      var state := world.kept.disk;
      ghost var run := Index(fp, now, state, None);
      Do(RunIndex(fp, now));
      if state.Some? && state.value.status == Creating {
        var ok := Write();
        if !ok { return false, Error; }
        state := None;
      }
      if state.Some? && state.value.status == Completed {
        var handled, err := RecoverCompletedBatch(state.value, fp, run);
        if err { return false, Error; }
        if handled { return false, BatchRecovered; }
        state := None;
      }
      if state.Some? && (state.value.status == Validating || state.value.status == InProgress) {
        go, end := CheckInProgress(state.value, fp, now, run);
        return;
      }
      return true, BatchStarted;
    }

    /** CreateBatch and SaveState, once the breadcrumb is on disk. A batch made is the one that the
        state file then names. */
    method CreateBatch(ghost run: Index, file: string) returns (end: Ending)
      requires Valid() && world.pc == Breadcrumb(run, file)
      modifies this
      ensures Valid() && world.pc == Idle && old(trace) <= trace
      ensures end == Error ==> faults > old(faults)
      ensures end != Error ==>
                && end == BatchStarted && faults == old(faults)
                && Started(old(world.kept), world.kept, run.fp, run.now, file)
    {
      hide Valid, Step;
      var id: BatchId := *;
      var status: Status := *;
      var made: bool := *;
      if !made || id in world.kept.server || id == NoBatch || !Known(status) {
        Do(CreateFails(None));
        var cleared := Write();
        CreateEnds(old(world), run, file, id, status, cleared);
        return Error;
      }
      Do(Creates(id, status));
      var noted := Write();
      CreateEnds(old(world), run, file, id, status, noted);
      return if noted then BatchStarted else Error;
    }

    /** startBatchEmbeddings: what each of its answers means. Started: one new batch, named in the
        state file with the fingerprint and the time, by a run that was allowed to start one, and no
        other batch left unsettled. In progress: the batch that the state file names is, nothing was
        started, and the file is as it was. Recovered: the batch it named is stored whole, and the file
        cleared if it could be. An error has a cause: an operation that failed, or a completed batch
        without output. toEmbed is what the filter leaves of the symbols. */
    method StartBatchEmbeddings(toEmbed: seq<SymbolText>, fp: string, now: int) returns (end: Ending)
      requires Valid() && world.pc == Idle
      modifies this
      ensures Valid() && world.pc == Idle && old(trace) <= trace && end != StatusShown
      ensures var disk := old(world.kept.disk);
              && (disk.Some? && UnderWay(disk.value, fp, now)
                  ==> end == BatchInProgress && world.kept == old(world.kept))
              && (end == BatchInProgress ==> world.kept.disk == disk && InProgressFor(disk, world.kept, fp, now))
              && (end == BatchRecovered ==>
                    && disk.Some? && Matches(disk.value, fp) && Recovered(world.kept, disk.value.batchId)
                    && (world.kept.disk == None || faults > old(faults)))
              && (end == Error ==> faults > old(faults) || NoOutput(disk, world.kept, fp, now))
      ensures (end == NoSymbols ==> |toEmbed| == 0) && (end == BatchStarted ==> |toEmbed| > 0 && OncePerId(toEmbed))
      ensures end == BatchInProgress || end == BatchRecovered || end == NoSymbols
          ==> world.kept.server.Keys == old(world.kept.server).Keys
      ensures end == BatchStarted ==>
                && (exists file :: Started(old(world.kept), world.kept, fp, now, file))
                && Unsettled(world.kept) <= OnDisk(world.kept)
      ensures end == BatchStarted || end == NoSymbols
          ==> exists api :: MayCreate(Index(fp, now, old(world.kept.disk), api))
    {
      hide Valid, Holds, MayCreate, Unsettled, OnDisk, Recovered, UnderWay, Started, InProgressFor;
      var go;
      go, end := PassGuards(fp, now);
      if !go { return; }
      GuardsPassed();
      ghost var k := world.kept;
      assert MayCreate(Index(fp, now, old(world.kept.disk), world.pc.run.api));
      if |toEmbed| == 0 {
        Do(Fails);
        return NoSymbols;
      }
      var written, requests := WriteJSONL(toEmbed);
      var file: string := *;
      var uploaded: bool := *;
      if !written || !uploaded || !NewFile(world.kept, file) {
        Do(Fails);
        return Error;
      }
      ghost var run := world.pc.run;
      Do(Uploads(file));
      var saved := Write();
      if !saved { return Error; }
      StartedFrom(old(world.kept), world.kept);
      end := CreateBatch(run, file);
      NamedNow();
    }

    /** What Valid says of a run past the guards. */
    lemma {:induction false} GuardsPassed()
      requires Valid() && world.pc.Fresh?
      ensures MayCreate(world.pc.run)
    {
      RunKeeps(trace);
    }

    lemma {:induction false} KnownServer()
      requires Valid()
      ensures forall id <- world.kept.server :: Known(world.kept.server[id].status)
    {
      RunKeeps(trace);
    }

    lemma {:induction false} NamedNow()
      requires Valid()
      ensures Unsettled(world.kept) <= OnDisk(world.kept)
    {
      EveryBatchNamed(trace);
    }

    /** What runEmbedStatus does with the status it was told; done says that it returns. */
    method ActOn(state: BatchState, wait: bool) returns (done: bool, end: Ending)
      requires Valid() && world.pc == Acting(state)
      modifies this
      ensures Valid() && old(trace) <= trace && world.pc == (if done then Idle else Polling(state))
      ensures done <==> state.status == Completed || state.status == Failed || state.status == Cancelled || !wait
      ensures world.kept.server == old(world.kept.server)
      ensures world.kept.disk == old(world.kept.disk)
              || (world.kept.disk == None
                  && (state.status == Completed || state.status == Failed || state.status == Cancelled))
      ensures (end == Error || end == StatusShown) && (end == Error ==> world.kept.disk == old(world.kept.disk))
      ensures state.status == Completed && end != Error ==> Recovered(world.kept, state.batchId)
      ensures faults >= old(faults)
      ensures end == Error ==> faults > old(faults) || (state.status == Completed && state.outputFile == "")
      ensures end == StatusShown && (state.status == Completed || state.status == Failed || state.status == Cancelled)
          ==> world.kept.disk == None || faults > old(faults)
    {
      hide Valid, Holds;
      if state.status == Completed {
        var storeOpen := Write();
        if !storeOpen { return true, Error; }
        var err := DownloadAndSave(state, ByStatus);
        if err { return true, Error; }
        var _ := Write();
        return true, StatusShown;
      }
      if state.status == Failed || state.status == Cancelled {
        Do(Succeeds);
        var _ := Write();
        return true, StatusShown;
      }
      if !wait {
        Do(Succeeds);
        return true, StatusShown;
      }
      Do(PollAgain);
      return false, StatusShown;
    }

    /** runEmbedStatus, polling again at most the given number of times. It makes no batch, and the
        state file goes on naming the same batch unless it is cleared, which an error never does, and
        which takes a batch that is stored whole, failed or cancelled. An error has a cause: an
        operation that failed, or a completed batch without output. If nothing failed, the batch is
        cleared exactly if the server has it as completed, failed or cancelled. */
    method EmbedStatus(polls: nat) returns (end: Ending)
      requires Valid() && world.pc == Idle
      modifies this
      ensures Valid() && world.pc == Idle && old(trace) <= trace && (end == Error || end == StatusShown)
      ensures world.kept.server.Keys == old(world.kept.server).Keys
      ensures old(world.kept.disk) == None ==> world == old(world)
      ensures SameBatch(old(world.kept.disk), world.kept.disk)
              || (world.kept.disk == None && end == StatusShown
                  && MayForget(world.kept, old(world.kept.disk).value.batchId))
      ensures end == Error ==>
                && old(world.kept.disk).Some?
                && (faults > old(faults) || EmptyHanded(world.kept, old(world.kept.disk).value.batchId))
      ensures end == StatusShown && faults == old(faults) && old(world.kept.disk).Some? ==>
                var id := old(world.kept.disk).value.batchId;
                && id in world.kept.server
                && (world.kept.disk == None <==> Ended(world.kept.server[id].status))
                && (world.kept.disk.Some? ==> world.kept.disk.value.status == world.kept.server[id].status)
    {
      hide Valid, Holds;
      if world.kept.disk.None? {
        return StatusShown;
      }
      var state := world.kept.disk.value;
      Do(RunStatus);
      var left := polls;
      while true
        invariant Valid() && old(trace) <= trace && world.pc == Polling(state)
        invariant world.kept.server.Keys == old(world.kept.server).Keys
        invariant SameBatch(old(world.kept.disk), world.kept.disk) && SameBatch(old(world.kept.disk), Some(state))
        invariant faults >= old(faults)
        decreases left
      {
        var reached;
        reached, state := Poll(state);
        if !reached { return Error; }
        var done;
        done, end := ActOn(state, left > 0);
        if done { return; }
        left := left - 1;
      }
    }

    /** One round: ask the server, note its answer in the state file if that can be written. */
    method Poll(before: BatchState) returns (reached: bool, state: BatchState)
      requires Valid() && world.pc == Polling(before)
      modifies this
      ensures Valid() && old(trace) <= trace && world.pc == (if reached then Acting(state) else Idle)
      ensures world.kept.server.Keys == old(world.kept.server).Keys
      ensures SameBatch(Some(before), Some(state))
      ensures reached ==> state.batchId in world.kept.server && state.status == world.kept.server[state.batchId].status
      ensures world.kept.disk == old(world.kept.disk) || (reached && world.kept.disk == Some(state))
      ensures reached ==> state.outputFile == world.kept.server[state.batchId].outputFile
      ensures faults >= old(faults) && (!reached ==> faults > old(faults))
      ensures reached && faults == old(faults) ==> world.kept.disk == Some(state)
    {
      hide Valid;
      state := before;
      Meanwhile(state.batchId);
      var at: int := *;
      var answer := GetBatchStatus(state.batchId, at);
      if answer == Unreachable { return false, before; }
      state := state.(status := answer.status, outputFile := answer.outputFile, updatedAt := at);
      var _ := Write();
      return true, state;
    }
  }

  lemma {:induction false} NoRowHolds(store: Vectors)
    ensures Holds(store, [])
  {
  }

  lemma {:induction false} RunOne(cs: seq<Choice>, c: Choice)
    requires AllBenign(cs) && Benign(c)
    ensures Run(cs + [c]) == Step(Run(cs), c) && AllBenign(cs + [c])
    ensures Faults(cs + [c]) == Faults(cs) + if Fault(c) then 1 else 0
  {
    hide Step;
    assert (cs + [c])[..|cs|] == cs;
  }

  /** A crash may come anywhere in a command: at each of its steps every batch that is not
      settled is named in the state file. */
  lemma {:induction false} NamedAtEveryStep(trace: seq<Choice>, k: nat)
    requires AllBenign(trace) && k <= |trace|
    ensures Unsettled(Run(trace[..k]).kept) <= OnDisk(Run(trace[..k]).kept)
  {
    EveryBatchNamed(trace[..k]);
  }
}
