/** The batch-embedding protocol of cmd/index.go (startBatchEmbeddings, recoverCompletedBatch)
    and cmd/embed.go (runEmbedStatus) around the durable file batch_state.json and a server
    that bills for every batch. Each durable or remote effect is one step of the machine, and
    a crash may come between any two. */
module BatchProtocol {
  import opened BatchResults

  // ---------- the state file ----------

  /** Creating is the local breadcrumb; Other is any status the program has no name for. */
  datatype Status = Creating | Validating | InProgress | Completed | Failed | Cancelled | Expired | Other(name: string)

  /** A batch ID; NoBatch is the empty string of a breadcrumb. */
  datatype BatchId = NoBatch | BatchId(hex: string)

  datatype BatchState = BatchState(batchId: BatchId, inputFile: string, outputFile: string,
                                   status: Status, updatedAt: int, fingerprint: string)

  datatype Option<T> = None | Some(value: T)

  /** MatchesFingerprint: an empty fingerprint, on either side, matches nothing. */
  predicate Matches(st: BatchState, fp: string) {
    st.fingerprint != "" && fp != "" && st.fingerprint == fp
  }

  const STALE_THRESHOLD: int := 12 * 3600 * 1_000_000_000

  predicate Dead(s: Status) { s == Failed || s == Cancelled || s == Expired }

  /** A status the server reports and the program knows. */
  predicate Known(s: Status) { s == Validating || s == InProgress || s == Completed || Dead(s) }

  // ---------- the world ----------

  /** A batch the server has, and bills for. rows is what the parser yields of its output. */
  datatype Batch = Batch(inputFile: string, status: Status, outputFile: string, rows: seq<Row>)

  /** How a batch came to need no further attention. */
  datatype Outcome = ResultsStored | ReportedDead | DiscardedLogged

  ghost predicate Holds(store: Vectors, rows: seq<Row>) {
    forall id <- RowMap(rows) :: id in store && store[id] == RowMap(rows)[id]
  }

  /** One index run: its fingerprint and clock, the state it loaded, what the API told it. */
  datatype Index = Index(fp: string, now: int, loaded: Option<BatchState>, api: Option<Status>)

  datatype Owner = ByIndex(run: Index) | ByStatus

  /** Where a run stands, named for the effect that comes next. */
  datatype Pc =
    | Idle
    | Clearing(run: Index, st: BatchState)                   // ClearState on a logged branch
    | Asking(run: Index, st: BatchState)                     // GetBatchStatus on a stale batch
    | Saving(owner: Owner, st: BatchState, i: nat, bad: nat) // i rows handled, bad of them not saved
    | Stored(st: BatchState)                                 // ClearState after a full save
    | Fresh(run: Index)                                      // past every guard: WriteJSONL, UploadFile
    | Uploaded(run: Index, file: string)                     // SaveState of the breadcrumb
    | Breadcrumb(run: Index, file: string)                   // CreateBatch
    | Created(run: Index, st: BatchState)                    // SaveState of the new batch
    | NotCreated                                             // ClearState of the breadcrumb
    | Polling(st: BatchState)                                // GetBatchStatus
    | Polled(st: BatchState)                                 // SaveState of what the API said
    | Acting(st: BatchState)                                 // on that status
    | DeadPolled(st: BatchState)                             // ClearState of a failed or cancelled batch

  /** What a crash leaves: the state file, the server, the stored vectors, and which batches
      are settled. */
  datatype Kept = Kept(disk: Option<BatchState>, server: map<BatchId, Batch>, store: Vectors,
                       settled: map<BatchId, Outcome>)

  datatype World = World(kept: Kept, pc: Pc)

  const START := World(Kept(None, map[], map[], map[]), Idle)

  // ---------- what the environment decides ----------

  /** What the API answers to GetBatchStatus. */
  datatype Answer = Unreachable | Report(status: Status, outputFile: string)

  datatype Choice =
    | RunIndex(fp: string, now: int)
    | RunStatus
    | Crash
    | ServerMoves(moved: BatchId, to: Status, output: string, outRows: seq<Row>)
    | Succeeds                            // the pending file operation or row save succeeds
    | Fails                               // it fails
    | Answers(answer: Answer, at: int)
    | Uploads(file: string)
    | Creates(made: BatchId, first: Status)
    | CreateFails(left: Option<BatchId>)  // and what it left on the server all the same
    | PollAgain                           // embed-status --wait

  /** The API answers for the batch it was asked about, with the status it then has. */
  predicate Truthful(server: map<BatchId, Batch>, id: BatchId, a: Answer) {
    a.Report? ==> id in server && a.status == server[id].status && a.outputFile == server[id].outputFile
  }

  /** The batches a state file names. */
  function Named(server: map<BatchId, Batch>, st: BatchState): set<BatchId> {
    set id | id in server && (if st.status == Creating then server[id].inputFile == st.inputFile else id == st.batchId)
  }

  function Settle(k: Kept, ids: set<BatchId>, o: Outcome): Kept {
    k.(settled := map id | id in k.settled.Keys + ids :: if id in k.settled then k.settled[id] else o)
  }

  /** No batch comes to count as stored. */
  predicate NothingStored(w: World, r: World) {
    forall id <- r.kept.settled :: id !in w.kept.settled ==> r.kept.settled[id] != ResultsStored
  }

  // ---------- startBatchEmbeddings ----------

  /** The guards on the state it loaded. */
  function Decide(run: Index): Pc {
    match run.loaded
    case None => Fresh(run)
    case Some(st) =>
      if st.status == Creating then Clearing(run, st)
      else if st.status == Completed then Recover(run, st)
      else if st.status == Validating || st.status == InProgress then
        if run.now - st.updatedAt > STALE_THRESHOLD then Asking(run, st)
        else if !Matches(st, run.fp) then Clearing(run, st)
        else Idle
      else Fresh(run)
  }

  /** recoverCompletedBatch. */
  function Recover(run: Index, st: BatchState): Pc {
    if !Matches(st, run.fp) then Clearing(run, st) else Download(ByIndex(run), st)
  }

  /** downloadAndSaveEmbeddings. An error leaves the state file alone and ends the run. */
  function Download(owner: Owner, st: BatchState): Pc {
    if st.outputFile == "" then Idle else Saving(owner, st, 0, 0)
  }

  function ClearingStep(w: World, run: Index, st: BatchState, c: Choice): (r: World)
    ensures r.kept.server == w.kept.server && NothingStored(w, r)
  {
    if c == Succeeds then World(Settle(w.kept, Named(w.kept.server, st), DiscardedLogged).(disk := None), Fresh(run))
    else if c == Fails then w.(pc := Idle)
    else w
  }

  function AskingStep(w: World, run: Index, st: BatchState, c: Choice): (r: World)
    ensures r.kept.server == w.kept.server && NothingStored(w, r)
  {
    if !c.Answers? || !Truthful(w.kept.server, st.batchId, c.answer) then w
    else match c.answer
      case Unreachable => w.(pc := Clearing(run, st))
      case Report(status, outputFile) =>
        var asked := run.(api := Some(status));
        if Dead(status) then World(Settle(w.kept, {st.batchId}, ReportedDead), Clearing(asked, st))
        else if status == Completed then
          w.(pc := Recover(asked, st.(status := Completed, outputFile := outputFile, updatedAt := c.at)))
        else w.(pc := Idle)
  }

  /** persistEmbeddings, row by row, for an index run or for embed-status. */
  function SavingStep(w: World, owner: Owner, st: BatchState, i: nat, bad: nat, c: Choice): (r: World)
    ensures r.kept.server == w.kept.server
  {
    // the download broke off, or a line did not parse
    if c.Answers? || st.batchId !in w.kept.server then w.(pc := Idle)
    else
      var rows := w.kept.server[st.batchId].rows;
      if i < |rows| then
        if c == Succeeds then
          World(w.kept.(store := w.kept.store[rows[i].id := rows[i].vector]), Saving(owner, st, i + 1, bad))
        else if c == Fails then w.(pc := Saving(owner, st, i + 1, bad + 1))
        else w
      else if bad > 0 then w.(pc := Idle)
      else World(Settle(w.kept, {st.batchId}, ResultsStored), Stored(st))
  }

  predicate NewFile(k: Kept, file: string) { forall id <- k.server :: k.server[id].inputFile != file }

  function FreshStep(w: World, run: Index, c: Choice): (r: World)
    ensures r.kept.server == w.kept.server && NothingStored(w, r)
  {
    if c == Fails then w.(pc := Idle)  // nothing to embed, or no JSONL, or no upload
    else if c.Uploads? && NewFile(w.kept, c.file) then w.(pc := Uploaded(run, c.file))
    else w
  }

  function BreadcrumbState(run: Index, file: string): BatchState {
    BatchState(NoBatch, file, "", Creating, run.now, run.fp)
  }

  function UploadedStep(w: World, run: Index, file: string, c: Choice): (r: World)
    ensures r.kept.server == w.kept.server && NothingStored(w, r)
  {
    if c == Succeeds then World(w.kept.(disk := Some(BreadcrumbState(run, file))), Breadcrumb(run, file))
    else if c == Fails then w.(pc := Idle)
    else w
  }

  function AddBatch(k: Kept, id: BatchId, file: string, status: Status): Kept {
    var k1 := k.(server := k.server[id := Batch(file, status, "", [])]);
    if Dead(status) then Settle(k1, {id}, ReportedDead) else k1
  }

  function CreateStep(w: World, run: Index, file: string, c: Choice): (r: World)
    ensures r.kept.server.Keys != w.kept.server.Keys ==> c.Creates? || c.CreateFails?
    ensures NothingStored(w, r)
  {
    if c.Creates? && c.made !in w.kept.server && c.made != NoBatch then
      World(AddBatch(w.kept, c.made, file, c.first),
            Created(run, BatchState(c.made, file, "", c.first, run.now, run.fp)))
    else if c.CreateFails? then
      if c.left.Some? && c.left.value !in w.kept.server && c.left.value != NoBatch
      then World(AddBatch(w.kept, c.left.value, file, Validating), NotCreated)
      else w.(pc := NotCreated)
    else w
  }

  function CreatedStep(w: World, st: BatchState, c: Choice): (r: World)
    ensures r.kept.server == w.kept.server && NothingStored(w, r)
  {
    if c == Succeeds then World(w.kept.(disk := Some(st)), Idle)
    else if c == Fails then w.(pc := Idle)
    else w
  }

  /** A last ClearState; when it fails the run ends with a warning. */
  function ClearAndStop(w: World, c: Choice): (r: World)
    ensures r.kept.server == w.kept.server && NothingStored(w, r)
  {
    if c == Succeeds then World(w.kept.(disk := None), Idle)
    else if c == Fails then w.(pc := Idle)
    else w
  }

  // ---------- runEmbedStatus ----------

  function PollingStep(w: World, st: BatchState, c: Choice): (r: World)
    ensures r.kept.server == w.kept.server && NothingStored(w, r)
  {
    if !c.Answers? || !Truthful(w.kept.server, st.batchId, c.answer) then w
    else match c.answer
      case Unreachable => w.(pc := Idle)
      case Report(status, outputFile) =>
        World(if Dead(status) then Settle(w.kept, {st.batchId}, ReportedDead) else w.kept,
              Polled(st.(status := status, outputFile := outputFile, updatedAt := c.at)))
  }

  function PolledStep(w: World, st: BatchState, c: Choice): (r: World)
    ensures r.kept.server == w.kept.server && NothingStored(w, r)
  {
    if c == Succeeds then World(w.kept.(disk := Some(st)), Acting(st))
    else if c == Fails then w.(pc := Acting(st))  // only a warning
    else w
  }

  function ActingStep(w: World, st: BatchState, c: Choice): (r: World)
    ensures r.kept == w.kept
  {
    if c == Fails then w.(pc := Idle)  // the store does not open
    else if st.status == Completed then w.(pc := Download(ByStatus, st))
    else if st.status == Failed || st.status == Cancelled then w.(pc := DeadPolled(st))
    else if c == PollAgain then w.(pc := Polling(st))
    else w.(pc := Idle)
  }

  // ---------- the machine ----------

  function IdleStep(w: World, c: Choice): (r: World)
    ensures r.kept == w.kept
  {
    if c.RunIndex? then w.(pc := Decide(Index(c.fp, c.now, w.kept.disk, None)))
    else if c.RunStatus? && w.kept.disk.Some? then w.(pc := Polling(w.kept.disk.value))
    else w
  }

  function RunStep(w: World, c: Choice): World {
    match w.pc
    case Idle => IdleStep(w, c)
    case Clearing(run, st) => ClearingStep(w, run, st, c)
    case Asking(run, st) => AskingStep(w, run, st, c)
    case Saving(owner, st, i, bad) => SavingStep(w, owner, st, i, bad, c)
    case Stored(st) => ClearAndStop(w, c)
    case Fresh(run) => FreshStep(w, run, c)
    case Uploaded(run, file) => UploadedStep(w, run, file, c)
    case Breadcrumb(run, file) => CreateStep(w, run, file, c)
    case Created(run, st) => CreatedStep(w, st, c)
    case NotCreated => ClearAndStop(w, c)
    case Polling(st) => PollingStep(w, st, c)
    case Polled(st) => PolledStep(w, st, c)
    case Acting(st) => ActingStep(w, st, c)
    case DeadPolled(st) => ClearAndStop(w, c)
  }

  predicate Final(s: Status) { s == Completed || Dead(s) }

  function ServerStep(k: Kept, id: BatchId, status: Status, output: string, rows: seq<Row>): Kept {
    if id in k.server && !Final(k.server[id].status)
    then k.(server := k.server[id := Batch(k.server[id].inputFile, status, output, rows)]) else k
  }

  /** One step; a choice that does not apply changes nothing. */
  function Step(w: World, c: Choice): World {
    match c
    case Crash => w.(pc := Idle)
    case ServerMoves(id, status, output, rows) => w.(kept := ServerStep(w.kept, id, status, output, rows))
    case _ => RunStep(w, c)
  }

  function From(w: World, cs: seq<Choice>): World {
    if |cs| == 0 then w else Step(From(w, cs[..|cs| - 1]), cs[|cs| - 1])
  }

  function Run(cs: seq<Choice>): World { From(START, cs) }

  // ---------- what every run keeps ----------

  /** What the code relies on: the server reports statuses the program knows, and a CreateBatch
      that fails leaves nothing behind. */
  predicate Benign(c: Choice) {
    && (c.ServerMoves? ==> Known(c.to))
    && (c.Creates? ==> Known(c.first))
    && (c.CreateFails? ==> c.left == None)
  }

  function Unsettled(k: Kept): set<BatchId> { k.server.Keys - k.settled.Keys }

  function OnDisk(k: Kept): set<BatchId> {
    if k.disk.None? then {} else Named(k.server, k.disk.value)
  }

  /** What a state, on disk or in memory, says of its batch is true and stays true. */
  predicate Sound(k: Kept, st: BatchState) {
    if st.status == Creating then st.batchId == NoBatch
    else
      && st.batchId in k.server && k.server[st.batchId].inputFile == st.inputFile && Known(st.status)
      && (Dead(st.status) ==> st.batchId in k.settled)
      && (st.status == Completed ==> k.server[st.batchId].status == Completed)
  }

  /** The run works on the batch that the state file names. */
  predicate Working(k: Kept, st: BatchState) {
    && Sound(k, st) && k.disk.Some? && k.disk.value.batchId == st.batchId && k.disk.value.inputFile == st.inputFile
  }

  /** An index run may start a batch: the state it loaded is not a fresh batch of the same
      index, not a stale one that the API still reports running, and not a completed one of
      the same index, however its recovery went. */
  predicate MayCreate(run: Index) {
    run.loaded.None? ||
    var st := run.loaded.value;
    if st.status == Validating || st.status == InProgress then
      if run.now - st.updatedAt > STALE_THRESHOLD
      then run.api.None? || Dead(run.api.value) || (run.api.value == Completed && !Matches(st, run.fp))
      else !Matches(st, run.fp)
    else st.status == Completed ==> !Matches(st, run.fp)
  }

  ghost predicate PcInv(k: Kept, pc: Pc) {
    match pc
    case Idle => true
    case Clearing(run, st) =>
      && Working(k, st) && MayCreate(run) && run.loaded.Some?
      && run.loaded.value.batchId == st.batchId && run.loaded.value.inputFile == st.inputFile
    case Asking(run, st) => Working(k, st) && run.loaded == Some(st) && run.api == None && Stale(run, st)
    case Saving(owner, st, i, bad) =>
      && Working(k, st) && st.status == Completed && i <= |k.server[st.batchId].rows|
      && (bad == 0 ==> Holds(k.store, k.server[st.batchId].rows[..i]))
    case Stored(st) => Working(k, st) && st.status != Creating && st.batchId in k.settled
    case Fresh(run) => Unsettled(k) == {} && MayCreate(run)
    case Uploaded(run, file) => Unsettled(k) == {} && MayCreate(run) && NewFile(k, file)
    case Breadcrumb(run, file) =>
      Unsettled(k) == {} && MayCreate(run) && NewFile(k, file) && k.disk == Some(BreadcrumbState(run, file))
    case Created(run, st) =>
      && Sound(k, st) && st.status != Creating && MayCreate(run)
      && Unsettled(k) <= {st.batchId} && k.disk == Some(BreadcrumbState(run, st.inputFile))
    case NotCreated => Unsettled(k) == {}
    case Polling(st) => Working(k, st)
    case Polled(st) => Working(k, st) && st.status != Creating
    case Acting(st) => Working(k, st) && st.status != Creating
    case DeadPolled(st) => Working(k, st) && st.status != Creating && st.batchId in k.settled
  }

  predicate Stale(run: Index, st: BatchState) {
    (st.status == Validating || st.status == InProgress) && run.now - st.updatedAt > STALE_THRESHOLD
  }

  /** What survives a crash: every batch that is not settled is named in the state file. */
  ghost predicate Durable(k: Kept) {
    && Unsettled(k) <= OnDisk(k)
    && NoBatch !in k.server && (forall id <- k.server :: Known(k.server[id].status))
    && (forall a, b :: a in k.server && b in k.server && k.server[a].inputFile == k.server[b].inputFile ==> a == b)
    && (k.disk.Some? ==> Sound(k, k.disk.value))
  }

  ghost predicate Inv(w: World) { Durable(w.kept) && PcInv(w.kept, w.pc) }

  // ---------- one step keeps it ----------

  /** Clearing the state file is safe once its batches are settled. */
  lemma {:induction false} ClearedDisk(k: Kept, st: BatchState)
    requires Durable(k) && Working(k, st) && st.status != Creating && st.batchId in k.settled
    ensures Durable(k.(disk := None)) && Unsettled(k) == {}
  {
  }

  lemma {:induction false} SettleDurable(k: Kept, ids: set<BatchId>, o: Outcome)
    requires Durable(k)
    ensures Durable(Settle(k, ids, o)) && Unsettled(Settle(k, ids, o)) == Unsettled(k) - ids
    ensures forall st :: Working(k, st) ==> Working(Settle(k, ids, o), st)
  {
  }

  lemma {:induction false} DiscardedDisk(k: Kept, st: BatchState)
    requires Durable(k) && Working(k, st)
    ensures var k1 := Settle(k, Named(k.server, st), DiscardedLogged).(disk := None);
            Durable(k1) && Unsettled(k1) == {}
  {
    assert OnDisk(k) == Named(k.server, st);
  }

  lemma {:induction false} SavedDisk(k: Kept, st: BatchState)
    requires Durable(k) && Working(k, st) && st.status != Creating
    ensures Durable(k.(disk := Some(st))) && Working(k.(disk := Some(st)), st)
  {
    var k1 := k.(disk := Some(st));
    assert OnDisk(k) == OnDisk(k1);
  }

  lemma {:induction false} DecideKeeps(k: Kept, run: Index)
    requires Durable(k) && run.loaded == k.disk && run.api == None
    ensures PcInv(k, Decide(run))
  {
    if run.loaded.Some? && !(run.loaded.value.status == Creating) && Dead(run.loaded.value.status) {
      assert Unsettled(k) == {};
    }
  }

  lemma {:induction false} AskingKeeps(w: World, run: Index, st: BatchState, c: Choice)
    requires Inv(w) && w.pc == Asking(run, st)
    ensures Inv(AskingStep(w, run, st, c))
  {
    hide Durable;
    if c.Answers? && Truthful(w.kept.server, st.batchId, c.answer) && c.answer.Report? && Dead(c.answer.status) {
      SettleDurable(w.kept, {st.batchId}, ReportedDead);
    }
  }

  lemma {:induction false} RowSaved(store: Vectors, rows: seq<Row>, i: nat)
    requires i < |rows| && Holds(store, rows[..i])
    ensures Holds(store[rows[i].id := rows[i].vector], rows[..i + 1])
  {
    assert rows[..i + 1][..i] == rows[..i];
  }

  lemma {:induction false} StoreDurable(k: Kept, store: Vectors)
    requires Durable(k)
    ensures Durable(k.(store := store))
  {
    assert OnDisk(k.(store := store)) == OnDisk(k);
  }

  lemma {:induction false} SavingKeeps(w: World, owner: Owner, st: BatchState, i: nat, bad: nat, c: Choice)
    requires Inv(w) && w.pc == Saving(owner, st, i, bad)
    ensures Inv(SavingStep(w, owner, st, i, bad, c))
  {
    var rows := w.kept.server[st.batchId].rows;
    hide Durable, Holds;
    if i < |rows| {
      StoreDurable(w.kept, w.kept.store[rows[i].id := rows[i].vector]);
      if bad == 0 { RowSaved(w.kept.store, rows, i); }
    } else {
      SettleDurable(w.kept, {st.batchId}, ResultsStored);
    }
  }

  /** A new batch of the file that the breadcrumb names. */
  lemma {:induction false} BatchAdded(k: Kept, run: Index, id: BatchId, file: string, status: Status)
    requires Durable(k) && PcInv(k, Breadcrumb(run, file)) && id !in k.server && id != NoBatch && Known(status)
    ensures var k1 := AddBatch(k, id, file, status);
            Durable(k1) && PcInv(k1, Created(run, BatchState(id, file, "", status, run.now, run.fp)))
  {
    var k1 := k.(server := k.server[id := Batch(file, status, "", [])]);
    BatchNamed(k, k1, id, file);
    hide Durable;
    if Dead(status) { SettleDurable(k1, {id}, ReportedDead); }
  }

  lemma {:induction false} BatchNamed(k: Kept, k1: Kept, id: BatchId, file: string)
    requires Durable(k) && Unsettled(k) == {} && NewFile(k, file) && id !in k.server && id != NoBatch
    requires k.disk.Some? && k.disk.value.status == Creating && k.disk.value.inputFile == file
    requires k1.server.Keys == k.server.Keys + {id} && k1 == k.(server := k1.server)
    requires forall b <- k.server :: k1.server[b] == k.server[b]
    requires k1.server[id].inputFile == file && Known(k1.server[id].status)
    ensures Durable(k1) && Unsettled(k1) <= {id}
  {
    assert OnDisk(k1) == {id};
  }

  lemma {:induction false} CreatedSaved(k: Kept, run: Index, st: BatchState)
    requires Durable(k) && PcInv(k, Created(run, st))
    ensures Durable(k.(disk := Some(st)))
  {
  }

  lemma {:induction false} BreadcrumbSaved(k: Kept, run: Index, file: string)
    requires Durable(k) && PcInv(k, Uploaded(run, file))
    ensures Durable(k.(disk := Some(BreadcrumbState(run, file))))
    ensures PcInv(k.(disk := Some(BreadcrumbState(run, file))), Breadcrumb(run, file))
  {
  }

  lemma {:induction false} NoneLeft(k: Kept)
    requires Durable(k) && Unsettled(k) == {}
    ensures Durable(k.(disk := None))
  {
  }

  lemma {:induction false} PollingKeeps(w: World, st: BatchState, c: Choice)
    requires Inv(w) && w.pc == Polling(st)
    ensures Inv(PollingStep(w, st, c))
  {
    if c.Answers? && Truthful(w.kept.server, st.batchId, c.answer) && c.answer.Report? {
      assert Known(c.answer.status) && st.batchId != NoBatch;
      hide Durable;
      SettleDurable(w.kept, {st.batchId}, ReportedDead);
    }
  }

  lemma {:induction false} ActingKeeps(w: World, st: BatchState, c: Choice)
    requires Inv(w) && w.pc == Acting(st)
    ensures Inv(ActingStep(w, st, c))
  {
    hide Durable;
  }

  /** The server moving on, or the machine crashing, leaves every run's own facts true. */
  lemma {:induction false} ServerKeeps(w: World, id: BatchId, status: Status, output: string, rows: seq<Row>)
    requires Inv(w) && Known(status)
    ensures Inv(w.(kept := ServerStep(w.kept, id, status, output, rows)))
  {
    var k, k1 := w.kept, ServerStep(w.kept, id, status, output, rows);
    ServerStepOnly(k, id, status, output, rows);
    hide Inv, ServerStep, PcInv, Durable;
    assert Durable(k) && PcInv(k, w.pc) by { InvParts(w); }
    ServerKeepsDurable(k, k1);
    ServerKeepsPc(k, k1, w.pc);
    InvOf(w.(kept := k1));
  }

  lemma {:induction false} InvParts(w: World)
    requires Inv(w)
    ensures Durable(w.kept) && PcInv(w.kept, w.pc)
  {
  }

  lemma {:induction false} InvOf(w: World)
    requires Durable(w.kept) && PcInv(w.kept, w.pc)
    ensures Inv(w)
  {
  }

  /** What the server does to a batch: never to a final one, and never to its input file. */
  lemma {:induction false} ServerStepOnly(k: Kept, id: BatchId, status: Status, output: string, rows: seq<Row>)
    requires Known(status) && forall b <- k.server :: Known(k.server[b].status)
    ensures var k1 := ServerStep(k, id, status, output, rows);
            && k1.server.Keys == k.server.Keys && k1 == k.(server := k1.server)
            && (forall b <- k.server :: k1.server[b].inputFile == k.server[b].inputFile)
            && (forall b <- k.server :: Final(k.server[b].status) ==> k1.server[b] == k.server[b])
            && (forall b <- k.server :: Known(k1.server[b].status))
  {
  }

  lemma {:induction false} ServerKeepsPc(k: Kept, k1: Kept, pc: Pc)
    requires PcInv(k, pc) && k1.server.Keys == k.server.Keys && k1 == k.(server := k1.server)
    requires forall b <- k.server :: k1.server[b].inputFile == k.server[b].inputFile
    requires forall b <- k.server :: Final(k.server[b].status) ==> k1.server[b] == k.server[b]
    ensures PcInv(k1, pc)
  {
    assert Unsettled(k1) == Unsettled(k);
    assert forall file :: NewFile(k, file) ==> NewFile(k1, file);
    hide Unsettled, NewFile, MayCreate;
  }

  lemma {:induction false} ServerKeepsDurable(k: Kept, k1: Kept)
    requires Durable(k) && k1.server.Keys == k.server.Keys && k1 == k.(server := k1.server)
    requires forall b <- k.server :: k1.server[b].inputFile == k.server[b].inputFile
    requires forall b <- k.server :: Final(k.server[b].status) ==> k1.server[b] == k.server[b]
    requires forall b <- k.server :: Known(k1.server[b].status)
    ensures Durable(k1)
  {
    assert OnDisk(k1) == OnDisk(k);
  }

  lemma {:induction false} IdleKeeps(w: World, c: Choice)
    requires Inv(w) && w.pc == Idle
    ensures Inv(IdleStep(w, c))
  {
    if c.RunIndex? {
      DecideKeeps(w.kept, Index(c.fp, c.now, w.kept.disk, None));
    }
  }

  lemma {:induction false} ClearingKeeps(w: World, run: Index, st: BatchState, c: Choice)
    requires Inv(w) && w.pc == Clearing(run, st)
    ensures Inv(ClearingStep(w, run, st, c))
  {
    DiscardedDisk(w.kept, st);
  }

  lemma {:induction false} ClearAndStopKeeps(w: World, c: Choice)
    requires Inv(w) && (w.pc.Stored? || w.pc.NotCreated? || w.pc.DeadPolled?)
    ensures Inv(ClearAndStop(w, c))
  {
    if w.pc.NotCreated? { NoneLeft(w.kept); } else { ClearedDisk(w.kept, w.pc.st); }
  }

  lemma {:induction false} StartingKeeps(w: World, c: Choice)
    requires Inv(w) && Benign(c) && (w.pc.Fresh? || w.pc.Uploaded? || w.pc.Breadcrumb? || w.pc.Created?)
    ensures Inv(RunStep(w, c))
  {
    hide Durable, Sound, AddBatch, Unsettled, MayCreate;
    match w.pc
    case Fresh(run) =>
    case Uploaded(run, file) => BreadcrumbSaved(w.kept, run, file);
    case Breadcrumb(run, file) =>
      if c.Creates? && c.made !in w.kept.server && c.made != NoBatch {
        BatchAdded(w.kept, run, c.made, file, c.first);
      }
    case Created(run, st) => CreatedSaved(w.kept, run, st);
  }

  lemma {:induction false} PolledKeeps(w: World, st: BatchState, c: Choice)
    requires Inv(w) && w.pc == Polled(st)
    ensures Inv(PolledStep(w, st, c))
  {
    SavedDisk(w.kept, st);
  }

  lemma {:induction false} StepKeeps(w: World, c: Choice)
    requires Inv(w) && Benign(c)
    ensures Inv(Step(w, c))
  {
    if c.ServerMoves? {
      ServerKeeps(w, c.moved, c.to, c.output, c.outRows);
    } else if c != Crash {
      RunStepKeeps(w, c);
    }
  }

  lemma {:induction false} RunStepKeeps(w: World, c: Choice)
    requires Inv(w) && Benign(c)
    ensures Inv(RunStep(w, c))
  {
    if w.pc.Fresh? || w.pc.Uploaded? || w.pc.Breadcrumb? || w.pc.Created? {
      StartingKeeps(w, c);
    } else {
      hide Inv, IdleStep, ClearingStep, AskingStep, SavingStep, ClearAndStop, PollingStep, PolledStep, ActingStep;
      match w.pc
      case Idle => IdleKeeps(w, c);
      case Clearing(run, st) => ClearingKeeps(w, run, st, c);
      case Asking(run, st) => AskingKeeps(w, run, st, c);
      case Saving(owner, st, i, bad) => SavingKeeps(w, owner, st, i, bad, c);
      case Stored(st) => ClearAndStopKeeps(w, c);
      case NotCreated => ClearAndStopKeeps(w, c);
      case Polling(st) => PollingKeeps(w, st, c);
      case Polled(st) => PolledKeeps(w, st, c);
      case Acting(st) => ActingKeeps(w, st, c);
      case DeadPolled(st) => ClearAndStopKeeps(w, c);
    }
  }

  ghost predicate AllBenign(cs: seq<Choice>) { forall k :: 0 <= k < |cs| ==> Benign(cs[k]) }

  lemma {:induction false} RunKeeps(cs: seq<Choice>)
    requires AllBenign(cs)
    ensures Inv(Run(cs))
  {
    if |cs| > 0 {
      RunKeeps(cs[..|cs| - 1]);
      StepKeeps(Run(cs[..|cs| - 1]), cs[|cs| - 1]);
    }
  }

  // ---------- the results ----------

  /** Whatever index and embed-status runs there were, and wherever they crashed: every batch
      the server has is settled or named in the state file, and at most one is unsettled. */
  lemma {:induction false} EveryBatchNamed(cs: seq<Choice>)
    requires AllBenign(cs)
    ensures var k := Run(cs).kept; Unsettled(k) <= OnDisk(k)
    ensures var k := Run(cs).kept; forall a, b :: a in Unsettled(k) && b in Unsettled(k) ==> a == b
  {
    RunKeeps(cs);
  }

  lemma {:induction false} OnlyCreateAdds(w: World, c: Choice)
    requires !(w.pc.Breadcrumb? && (c.Creates? || c.CreateFails?))
    ensures Step(w, c).kept.server.Keys == w.kept.server.Keys
  {
    hide ClearingStep, AskingStep, SavingStep, FreshStep, UploadedStep, CreateStep, CreatedStep,
      ClearAndStop, NothingStored, PollingStep, PolledStep, ActingStep, IdleStep;
  }

  /** A batch is only ever created with its own breadcrumb on disk and no other batch
      unsettled, by a run that the state it loaded did not forbid. */
  lemma {:induction false} CreatedWithBreadcrumb(cs: seq<Choice>, c: Choice)
    requires AllBenign(cs) && Benign(c)
    requires Step(Run(cs), c).kept.server.Keys != Run(cs).kept.server.Keys
    ensures var w := Run(cs);
            && w.pc.Breadcrumb? && c.Creates? && Unsettled(w.kept) == {} && MayCreate(w.pc.run)
            && w.kept.disk == Some(BreadcrumbState(w.pc.run, w.pc.file))
  {
    RunKeeps(cs);
    hide Run;
    var w := Run(cs);
    if !(w.pc.Breadcrumb? && (c.Creates? || c.CreateFails?)) {
      OnlyCreateAdds(w, c);
    }
  }

  /** A batch counts as stored only once the store holds every row the parser yielded. */
  lemma {:induction false} StoredOnlyWhole(cs: seq<Choice>, c: Choice, id: BatchId)
    requires AllBenign(cs) && Benign(c) && id !in Run(cs).kept.settled
    requires var w1 := Step(Run(cs), c); id in w1.kept.settled && w1.kept.settled[id] == ResultsStored
    ensures var w1 := Step(Run(cs), c);
            id in w1.kept.server && w1.kept.server[id].status == Completed
                && Holds(w1.kept.store, w1.kept.server[id].rows)
  {
    RunKeeps(cs);
    hide *;
    OnlySavingStores(Run(cs), c, id);
    SavingDone(Run(cs));
  }

  lemma {:induction false} SavingDone(w: World)
    requires Inv(w) && w.pc.Saving? && w.pc.bad == 0
    requires w.pc.st.batchId in w.kept.server && w.pc.i >= |w.kept.server[w.pc.st.batchId].rows|
    ensures w.kept.server[w.pc.st.batchId].status == Completed
    ensures Holds(w.kept.store, w.kept.server[w.pc.st.batchId].rows)
  {
    hide Durable, Holds;
    var rows := w.kept.server[w.pc.st.batchId].rows;
    assert rows[..|rows|] == rows;
  }

  lemma {:induction false} OnlySavingStores(w: World, c: Choice, id: BatchId)
    requires id !in w.kept.settled && id in Step(w, c).kept.settled && Step(w, c).kept.settled[id] == ResultsStored
    ensures w.pc.Saving? && id == w.pc.st.batchId && id in w.kept.server
    ensures w.pc.i >= |w.kept.server[id].rows| && w.pc.bad == 0
    ensures Step(w, c).kept.server == w.kept.server && Step(w, c).kept.store == w.kept.store
  {
    hide ClearingStep, AskingStep, FreshStep, UploadedStep, CreateStep, CreatedStep, ClearAndStop,
      PollingStep, PolledStep, ActingStep, IdleStep;
    assert Step(w, c) == RunStep(w, c);
  }

  // ---------- where the assumptions matter ----------

  /** A loaded state passes every guard, and is overwritten, exactly when its status is a dead
      one or one the program does not know. */
  lemma {:induction false} PassesGuards(run: Index, st: BatchState)
    requires run.loaded == Some(st)
    ensures Decide(run) == Fresh(run) <==> Dead(st.status) || st.status.Other?
  {
  }

  lemma {:induction false} FromThree(w: World, a: Choice, b: Choice, c: Choice)
    ensures From(w, [a, b, c]) == Step(Step(Step(w, a), b), c)
  {
    hide Step;
    assert [a][..0] == [] && [a, b][..1] == [a] && [a, b, c][..2] == [a, b];
    assert From(w, [a]) == Step(w, a);
    assert From(w, [a, b]) == Step(From(w, [a]), b);
  }

  lemma {:induction false} FromAppend(w: World, cs: seq<Choice>, ds: seq<Choice>)
    ensures From(w, cs + ds) == From(From(w, cs), ds)
  {
    hide Step;
    if |ds| == 0 {
      assert cs + ds == cs;
    } else {
      FromAppend(w, cs, ds[..|ds| - 1]);
      assert (cs + ds)[..|cs + ds| - 1] == cs + ds[..|ds| - 1];
    }
  }

  /** The server comes to report a status the program does not know, and embed-status asks. */
  function UnknownStatus(id: BatchId, name: string, at: int): seq<Choice> {
    [ServerMoves(id, Other(name), "", []), RunStatus, Answers(Report(Other(name), ""), at)]
  }

  /** embed-status writes what it was told to the state file and ends. */
  function Noted(fp: string, now: int): seq<Choice> { [Succeeds, Succeeds, RunIndex(fp, now)] }

  /** The next index run uploads its own file and writes its breadcrumb. */
  function NextBatch(file: string): seq<Choice> { [Uploads(file), Succeeds, Crash] }

  /** Then the batch is forgotten: whatever batch was under way, it is still unsettled, and the
      state file names it no longer. */
  lemma {:induction false} UnknownStatusOrphans(w: World, name: string, at: int, fp: string, now: int, file: string)
    requires w.pc == Idle && w.kept.disk.Some? && NewFile(w.kept, file)
    requires var st := w.kept.disk.value;
             && st.status != Creating && st.batchId in Unsettled(w.kept) && !Final(w.kept.server[st.batchId].status)
    ensures var id := w.kept.disk.value.batchId;
            var k := From(w, UnknownStatus(id, name, at) + Noted(fp, now) + NextBatch(file)).kept;
            id in Unsettled(k) && id !in OnDisk(k)
  {
    var id := w.kept.disk.value.batchId;
    var a, b, c := UnknownStatus(id, name, at), Noted(fp, now), NextBatch(file);
    FromAppend(w, a + b, c);
    FromAppend(w, a, b);
    FromThree(w, a[0], a[1], a[2]);
    FromThree(From(w, a), b[0], b[1], b[2]);
    FromThree(From(w, a + b), c[0], c[1], c[2]);
    hide From;
    var st := w.kept.disk.value.(status := Other(name), outputFile := "", updatedAt := at);
    StatusPolled(w, id, name, at);
    StatusNoted(From(w, a), st, fp, now);
    BatchReplaced(From(w, a + b), id, file);
  }

  lemma {:induction false} StatusPolled(w: World, id: BatchId, name: string, at: int)
    requires w.pc == Idle && w.kept.disk.Some? && w.kept.disk.value.batchId == id
        && w.kept.disk.value.status != Creating
    requires id in Unsettled(w.kept) && !Final(w.kept.server[id].status)
    ensures var c := UnknownStatus(id, name, at);
            var w1 := Step(Step(Step(w, c[0]), c[1]), c[2]);
            && w1.pc == Polled(w.kept.disk.value.(status := Other(name), outputFile := "", updatedAt := at))
            && w1.kept.server.Keys == w.kept.server.Keys && w1.kept.settled == w.kept.settled
            && forall b <- w.kept.server :: w1.kept.server[b].inputFile == w.kept.server[b].inputFile
  {
    var c := UnknownStatus(id, name, at);
    var w0 := Step(w, c[0]);
    assert w0.kept.server[id] == Batch(w.kept.server[id].inputFile, Other(name), "", []);
    var w1 := Step(w0, c[1]);
    assert w1 == w0.(pc := Polling(w.kept.disk.value));
  }

  lemma {:induction false} StatusNoted(w: World, st: BatchState, fp: string, now: int)
    requires w.pc == Polled(st) && st.status.Other?
    ensures var c := Noted(fp, now);
            var w1 := Step(Step(Step(w, c[0]), c[1]), c[2]);
            w1.pc.Fresh? && w1.kept == w.kept.(disk := Some(st))
  {
    var c := Noted(fp, now);
    var w0 := Step(w, c[0]);
    assert w0 == World(w.kept.(disk := Some(st)), Acting(st));
    assert Step(w0, c[1]) == w0.(pc := Idle);
  }

  lemma {:induction false} BatchReplaced(w: World, id: BatchId, file: string)
    requires w.pc.Fresh? && NewFile(w.kept, file) && id in Unsettled(w.kept)
    ensures var c := NextBatch(file);
            var k := Step(Step(Step(w, c[0]), c[1]), c[2]).kept;
            id in Unsettled(k) && id !in OnDisk(k)
  {
    var c := NextBatch(file);
    assert Step(w, c[0]) == w.(pc := Uploaded(w.pc.run, file));
  }

  /** So is a batch that a failed CreateBatch left on the server after all. */
  lemma {:induction false} FailedCreateOrphans(w: World, id: BatchId)
    requires w.pc.Breadcrumb? && id !in w.kept.server && id !in w.kept.settled && id != NoBatch
    ensures var k := Step(Step(w, CreateFails(Some(id))), Succeeds).kept;
            id in Unsettled(k) && id !in OnDisk(k)
  {
  }

  // ---------- runs that get there ----------

  /** An index run up to its breadcrumb, and the batch it then makes, noted in the state file. */
  const FIRST_BREADCRUMB := [RunIndex("fp", 0), Uploads("f1"), Succeeds]
  const FIRST_BATCH := [Creates(BatchId("b1"), Validating), Succeeds]

  lemma {:induction false} BreadcrumbReached()
    ensures AllBenign(FIRST_BREADCRUMB)
    ensures Run(FIRST_BREADCRUMB)
         == World(Kept(Some(BatchState(NoBatch, "f1", "", Creating, 0, "fp")), map[], map[], map[]),
                  Breadcrumb(Index("fp", 0, None, None), "f1"))
  {
    var c := FIRST_BREADCRUMB;
    FromThree(START, c[0], c[1], c[2]);
    hide From;
    assert c == [c[0], c[1], c[2]];
    assert Step(START, c[0]) == START.(pc := Fresh(Index("fp", 0, None, None)));
  }

  lemma {:induction false} FromTwo(w: World, a: Choice, b: Choice)
    ensures From(w, [a, b]) == Step(Step(w, a), b)
  {
    hide Step;
    assert [a][..0] == [] && [a, b][..1] == [a];
    assert From(w, [a]) == Step(w, a);
  }

  /** A first batch is under way, and named in the state file. */
  lemma {:induction false} BatchReached()
    ensures AllBenign(FIRST_BREADCRUMB + FIRST_BATCH)
    ensures Run(FIRST_BREADCRUMB + FIRST_BATCH)
         == World(Kept(Some(BatchState(BatchId("b1"), "f1", "", Validating, 0, "fp")),
                       map[BatchId("b1") := Batch("f1", Validating, "", [])], map[], map[]), Idle)
  {
    BreadcrumbReached();
    FromAppend(START, FIRST_BREADCRUMB, FIRST_BATCH);
    var w := Run(FIRST_BREADCRUMB);
    FromTwo(w, FIRST_BATCH[0], FIRST_BATCH[1]);
    assert FIRST_BATCH == [FIRST_BATCH[0], FIRST_BATCH[1]];
    hide From, Run;
  }

  /** So runs of the two commands from nothing do forget a batch: one that came to have a status
      without a name, and one that a failed CreateBatch left behind. */
  lemma {:induction false} OrphansReached(name: string)
    ensures var cs := FIRST_BREADCRUMB + FIRST_BATCH
                      + (UnknownStatus(BatchId("b1"), name, 1) + Noted("fp", 2) + NextBatch("f2"));
            var k := Run(cs).kept; BatchId("b1") in Unsettled(k) && BatchId("b1") !in OnDisk(k)
    ensures var cs := FIRST_BREADCRUMB + [CreateFails(Some(BatchId("b1"))), Succeeds];
            var k := Run(cs).kept; BatchId("b1") in Unsettled(k) && BatchId("b1") !in OnDisk(k)
  {
    BreadcrumbReached();
    BatchReached();
    var w, v := Run(FIRST_BREADCRUMB + FIRST_BATCH), Run(FIRST_BREADCRUMB);
    var cs := UnknownStatus(BatchId("b1"), name, 1) + Noted("fp", 2) + NextBatch("f2");
    FromAppend(START, FIRST_BREADCRUMB + FIRST_BATCH, cs);
    UnknownStatusOrphans(w, name, 1, "fp", 2, "f2");
    FromAppend(START, FIRST_BREADCRUMB, [CreateFails(Some(BatchId("b1"))), Succeeds]);
    FromTwo(v, CreateFails(Some(BatchId("b1"))), Succeeds);
    FailedCreateOrphans(v, BatchId("b1"));
    hide From, Step, OnDisk;
  }

  // ---------- what the other outcomes mean ----------

  /** Settled as dead: the server has reported the batch failed, cancelled or expired. */
  ghost predicate DeadIsDead(k: Kept) {
    forall id <- k.settled :: k.settled[id] == ReportedDead ==> id in k.server && Dead(k.server[id].status)
  }

  lemma {:induction false} DeadSettle(k: Kept, ids: set<BatchId>, o: Outcome)
    requires DeadIsDead(k) && (o == ReportedDead ==> forall id <- ids :: id in k.server && Dead(k.server[id].status))
    ensures DeadIsDead(Settle(k, ids, o))
  {
  }

  /** The steps that may settle a batch as dead: those that ask, and the one that creates. */
  lemma {:induction false} DeadReported(w: World, c: Choice)
    requires Inv(w) && DeadIsDead(w.kept) && (w.pc.Asking? || w.pc.Polling? || w.pc.Breadcrumb?)
    ensures DeadIsDead(RunStep(w, c).kept)
  {
    hide Durable, Holds, Unsettled, MayCreate, NothingStored, NewFile, OnDisk, Settle, DeadIsDead;
    match w.pc
    case Asking(run, st) => DeadAsked(w, st, c, ReportedDead);
    case Polling(st) => DeadAsked(w, st, c, ReportedDead);
    case Breadcrumb(run, file) =>
      if c.Creates? { DeadAdded(w.kept, c.made, file, c.first); }
      if c.CreateFails? && c.left.Some? { DeadAdded(w.kept, c.left.value, file, Validating); }
  }

  lemma {:induction false} DeadAsked(w: World, st: BatchState, c: Choice, o: Outcome)
    requires DeadIsDead(w.kept)
    ensures c.Answers? && Truthful(w.kept.server, st.batchId, c.answer) && c.answer.Report? && Dead(c.answer.status)
        ==> DeadIsDead(Settle(w.kept, {st.batchId}, o))
  {
    if c.Answers? && Truthful(w.kept.server, st.batchId, c.answer) && c.answer.Report? && Dead(c.answer.status) {
      DeadSettle(w.kept, {st.batchId}, o);
    }
  }

  lemma {:induction false} DeadAdded(k: Kept, id: BatchId, file: string, status: Status)
    requires DeadIsDead(k)
    ensures id !in k.server ==> DeadIsDead(AddBatch(k, id, file, status))
  {
    var k1 := k.(server := k.server[id := Batch(file, status, "", [])]);
    if id !in k.server && Dead(status) { DeadSettle(k1, {id}, ReportedDead); }
  }

  lemma {:induction false} DeadRunStep(w: World, c: Choice)
    requires Inv(w) && DeadIsDead(w.kept)
    ensures DeadIsDead(RunStep(w, c).kept)
  {
    if w.pc.Asking? || w.pc.Polling? || w.pc.Breadcrumb? {
      DeadReported(w, c);
    } else if w.pc.Saving? {
      DeadSettle(w.kept, {w.pc.st.batchId}, ResultsStored);
      hide Inv, Settle;
    } else if w.pc.Clearing? {
      DeadSettle(w.kept, Named(w.kept.server, w.pc.st), DiscardedLogged);
      hide Inv, Settle, Named;
    } else {
      SettlesNone(w, c);
      hide Inv, RunStep;
    }
  }

  lemma {:induction false} SettlesNone(w: World, c: Choice)
    requires !w.pc.Asking? && !w.pc.Polling? && !w.pc.Breadcrumb? && !w.pc.Saving? && !w.pc.Clearing?
    ensures RunStep(w, c).kept.settled == w.kept.settled && RunStep(w, c).kept.server == w.kept.server
  {
    hide AskingStep, SavingStep, ClearingStep, PollingStep, CreateStep, NothingStored, NewFile;
  }

  lemma {:induction false} DeadStep(w: World, c: Choice)
    requires Inv(w) && DeadIsDead(w.kept)
    ensures DeadIsDead(Step(w, c).kept)
  {
    hide Inv, RunStep;
    if !c.ServerMoves? && c != Crash { DeadRunStep(w, c); }
  }

  lemma {:induction false} ReportedDeadIsDead(cs: seq<Choice>)
    requires AllBenign(cs)
    ensures DeadIsDead(Run(cs).kept)
  {
    if |cs| > 0 {
      ReportedDeadIsDead(cs[..|cs| - 1]);
      RunKeeps(cs[..|cs| - 1]);
      DeadStep(Run(cs[..|cs| - 1]), cs[|cs| - 1]);
      hide Step, Inv, DeadIsDead;
    }
  }

  /** A batch is discarded only on a logged branch: by an index run that clears the state file it
      loaded, which names the batch, and that this state allows to start another. */
  lemma {:induction false} DiscardedOnlyLogged(cs: seq<Choice>, c: Choice, id: BatchId)
    requires AllBenign(cs) && Benign(c) && id !in Run(cs).kept.settled
    requires var w1 := Step(Run(cs), c); id in w1.kept.settled && w1.kept.settled[id] == DiscardedLogged
    ensures var w := Run(cs);
            && w.pc.Clearing? && c == Succeeds && MayCreate(w.pc.run) && id in Named(w.kept.server, w.pc.st)
            && w.pc.run.loaded.Some? && w.pc.run.loaded.value.batchId == w.pc.st.batchId
            && w.pc.run.loaded.value.inputFile == w.pc.st.inputFile
  {
    RunKeeps(cs);
    hide *;
    OnlyClearingDiscards(Run(cs), c, id);
    ClearingFacts(Run(cs));
  }

  lemma {:induction false} ClearingFacts(w: World)
    requires Inv(w) && w.pc.Clearing?
    ensures MayCreate(w.pc.run) && w.pc.run.loaded.Some?
    ensures w.pc.run.loaded.value.batchId == w.pc.st.batchId && w.pc.run.loaded.value.inputFile == w.pc.st.inputFile
  {
  }

  lemma {:induction false} OnlyClearingDiscards(w: World, c: Choice, id: BatchId)
    requires id !in w.kept.settled && id in Step(w, c).kept.settled && Step(w, c).kept.settled[id] == DiscardedLogged
    ensures w.pc.Clearing? && c == Succeeds && id in Named(w.kept.server, w.pc.st)
  {
    assert Step(w, c) == RunStep(w, c);
    hide Step, NothingStored, Named, NewFile, Truthful;
    if w.pc.Asking? || w.pc.Polling? || w.pc.Breadcrumb? || w.pc.Saving? {
      SettlesOtherwise(w, c, id);
    } else if !w.pc.Clearing? {
      SettlesNone(w, c);
      hide RunStep;
    }
  }

  lemma {:induction false} SettlesOtherwise(w: World, c: Choice, id: BatchId)
    requires w.pc.Asking? || w.pc.Polling? || w.pc.Breadcrumb? || w.pc.Saving?
    requires id !in w.kept.settled && id in RunStep(w, c).kept.settled
    ensures RunStep(w, c).kept.settled[id] != DiscardedLogged
  {
    hide NothingStored, NewFile, Truthful, ClearingStep, FreshStep, UploadedStep, CreatedStep, ClearAndStop,
      PolledStep, ActingStep, IdleStep;
  }
}
