/** The watch loop of cmd/watch.go: one select loop over file events, a debounce timer and
    the result of one background reindex, and the drain when it is cancelled. */
module WatchLoop {
  import opened Ordering
  import opened Text

  datatype Timer = Stopped | Armed | Fired

  /** What a reindex sends back: its files, and whether it succeeded. */
  datatype Result = Result(files: seq<string>, ok: bool)

  /** What happened so far: accepted changes, reindexes started, results taken. A failure taken
      when the context is already cancelled is silent: it may be due to the cancellation, which
      kills the subprocess, and it is not reported. */
  datatype Event = Changed(file: string) | Started(files: seq<string>) | Taken(res: Result, silent: bool)

  /** pending, indexing and the timer are the loop's own; running holds the reindexes in
      flight and done the results sent and not yet received (the channel has room for one). */
  datatype State = State(pending: seq<string>, indexing: bool, timer: Timer,
                         running: seq<seq<string>>, done: seq<Result>, cancelled: bool, history: seq<Event>)

  const INITIAL := State([], false, Stopped, [], [], false, [])

  // ---------- one step ----------

  function Base(name: string): string {
    if |name| == 0 || name[|name| - 1] == '/' then "" else Base(name[..|name| - 1]) + [name[|name| - 1]]
  }

  /** The files the loop takes notice of. */
  predicate Watched(name: string) {
    |name| >= 3 && name[|name| - 3..] == ".go" && '~' !in name && Base(name)[..1] != "."
  }

  /** The cases of the select, and what happens around the loop between them. */
  datatype Action =
    | FileEvent(name: string, rel: string)  // fsnotify reports name; rel is its relative path, or ""
    | TimerTick                             // the loop receives from the timer
    | ResultReady                           // the loop receives from reindexDone
    | TimerExpires
    | ReindexEnds(ok: bool)                 // the oldest reindex in flight sends its result
    | Cancel

  predicate Enabled(s: State, a: Action) {
    match a
    case TimerTick => s.timer == Fired
    case ResultReady => |s.done| > 0
    case TimerExpires => s.timer == Armed
    case ReindexEnds(_) => |s.running| > 0 && |s.done| < 1
    case _ => true
  }

  function Changed1(s: State, file: string): State {
    s.(pending := if file in s.pending then s.pending else s.pending + [file],
       timer := Armed, history := s.history + [Changed(file)])
  }

  function Start(s: State): State {
    s.(pending := [], indexing := true, running := s.running + [s.pending], history := s.history + [Started(s.pending)])
  }

  function TakeResult(s: State): State
    requires |s.done| > 0
  {
    s.(indexing := false, done := s.done[1..], timer := if |s.pending| > 0 then Armed else s.timer,
       history := s.history + [Taken(s.done[0], !s.done[0].ok && s.cancelled)])
  }

  /** One action; one that is not enabled changes nothing. */
  function Step(s: State, a: Action): State {
    if !Enabled(s, a) then s
    else match a
      case FileEvent(name, rel) => if Watched(name) then Changed1(s, if rel == "" then name else rel) else s
      case TimerTick =>
        var t := s.(timer := Stopped);
        if |s.pending| == 0 || s.indexing then t else Start(t)
      case ResultReady => TakeResult(s)
      case TimerExpires => s.(timer := Fired)
      case ReindexEnds(ok) =>
        s.(running := s.running[1..], done := s.done + [Result(s.running[0], ok)])
      case Cancel => s.(cancelled := true)
  }

  function Run(s: State, actions: seq<Action>): State {
    if |actions| == 0 then s else Step(Run(s, actions[..|actions| - 1]), actions[|actions| - 1])
  }

  // ---------- what an event does ----------

  /** Base cuts the name after its last slash. */
  lemma {:induction false} BaseCut(name: string) returns (front: string)
    ensures name == front + Base(name) && '/' !in Base(name) && (front == "" || front[|front| - 1] == '/')
  {
    if |name| == 0 || name[|name| - 1] == '/' {
      front := name;
    } else {
      front := BaseCut(name[..|name| - 1]);
    }
  }

  lemma {:induction false} BaseIsLastPart(name: string)
    ensures var parts := Split(name, '/'); Base(name) == parts[|parts| - 1]
  {
    var front := BaseCut(name);
    var base := Base(name);
    SplitParts(base, '/');
    hide Base, Split;
    if front == "" {
      assert name == base;
    } else {
      var f := front[..|front| - 1];
      assert name == f + ['/'] + base;
      SplitConcat(f, '/', base);
    }
  }

  /** A file event counts as a change exactly if the name ends in .go, has no tilde anywhere, and its
      last part does not start with a dot. The file is then pending, once, under its relative path if
      there is one, and the timer is started over. Other events change nothing. */
  lemma {:induction false} EventExactly(s: State, name: string, rel: string)
    ensures var parts := Split(name, '/'); var last := parts[|parts| - 1];
            var file := if rel == "" then name else rel;
            var t := Step(s, FileEvent(name, rel));
            if HasSuffix(name, ".go") && '~' !in name && (last == "" || last[0] != '.')
            then
              && t == s.(pending := t.pending, timer := Armed, history := s.history + [Changed(file)])
              && s.pending <= t.pending && file in t.pending
              && (forall f :: f in t.pending <==> f in s.pending || f == file)
              && (file in s.pending ==> t.pending == s.pending)
            else t == s
  {
    BaseIsLastPart(name);
    var base := Base(name);
    assert HasSuffix(name, ".go") ==> name[|name| - 1] == 'o' && base != "";
    hide Split, Base;
    assert base != "" ==> (base[..1] != "." <==> base[0] != '.');
  }

  /** A file that is pending does get reindexed: with the timer running out, and the outstanding
      reindex, if any, ending one way or the other, a reindex of all that is pending starts. */
  lemma {:induction false} PendingStarts(s: State, ok: bool) returns (cs: seq<Action>)
    requires Safe(s) && |s.pending| > 0
    ensures |cs| <= if s.indexing then 3 + |s.running| else 2
    ensures forall c <- cs :: c == TimerExpires || c == TimerTick || c == ReindexEnds(ok) || c == ResultReady
    ensures var t := Run(s, cs);
            && |t.history| > 0 && t.history[|t.history| - 1] == Started(s.pending)
            && t.pending == [] && t.indexing && t.running == [s.pending] && t.done == []
    decreases s.indexing, |s.running|
  {
    hide Run;
    if !s.indexing {
      RunNone(s);
      RunOne(s, [], TimerTick);
      RunOne(s, [], TimerExpires);
      RunOne(s, [TimerExpires], TimerTick);
      assert [] + [TimerTick] == [TimerTick] && [] + [TimerExpires] == [TimerExpires];
      cs := if s.timer == Armed then [TimerExpires] + [TimerTick] else [TimerTick];
    } else {
      var a := if |s.done| > 0 then ResultReady else ReindexEnds(ok);
      SafeStep(s, a);
      var rest := PendingStarts(Step(s, a), ok);
      RunFirst(s, a, rest);
      cs := [a] + rest;
    }
  }

  lemma {:induction false} RunFirst(s: State, a: Action, cs: seq<Action>)
    ensures Run(s, [a] + cs) == Run(Step(s, a), cs)
  {
    if |cs| == 0 {
      assert [a] + cs == [] + [a];
      RunOne(s, [], a);
    } else {
      var n := |cs| - 1;
      RunFirst(s, a, cs[..n]);
      assert [a] + cs == ([a] + cs[..n]) + [cs[n]];
      RunOne(s, [a] + cs[..n], cs[n]);
    }
  }

  // ---------- what every run keeps ----------

  /** The files of the outstanding reindex: running, or its result not yet received. */
  function InFlight(s: State): seq<string>
    requires |s.running| + |s.done| == 1
  {
    if |s.running| > 0 then s.running[0] else s.done[0].files
  }

  ghost predicate StartedWith(h: seq<Event>, i: nat, j: nat, file: string) {
    i < j < |h| && h[j].Started? && file in h[j].files
  }

  /** The change at i was listed in a reindex started after it, whose result then came: a
      success, or a failure that the loop reports. */
  ghost predicate Settled(h: seq<Event>, i: nat) {
    i < |h| && h[i].Changed?
    && exists j: nat, k: nat :: StartedWith(h, i, j, h[i].file) && Answers(h, j, k)
  }

  ghost predicate Answers(h: seq<Event>, j: nat, k: nat) {
    j < k < |h| && h[j].Started? && h[k].Taken? && h[k].res.files == h[j].files && !h[k].silent
  }

  /** The change at i is in a reindex started after it that is still outstanding. */
  ghost predicate Underway(s: State, i: nat) {
    i < |s.history| && s.history[i].Changed? && |s.running| + |s.done| == 1
    && exists j: nat :: StartedWith(s.history, i, j, s.history[i].file) && s.history[j].files == InFlight(s)
  }

  /** A reindex with the change at i failed, and the loop itself took its result silently. */
  ghost predicate TookSilently(h: seq<Event>, i: nat) {
    i < |h| && h[i].Changed?
    && exists j: nat, k: nat :: StartedWith(h, i, j, h[i].file) && Silences(h, j, k)
  }

  ghost predicate Silences(h: seq<Event>, j: nat, k: nat) {
    j < k < |h| && h[j].Started? && h[k].Taken? && h[k].res.files == h[j].files && h[k].silent
  }

  /** The outstanding reindex was started at j, and every change after it is pending. */
  ghost predicate InFlightSince(s: State, j: nat)
    requires |s.running| + |s.done| == 1
  {
    && j < |s.history| && s.history[j].Started? && s.history[j].files == InFlight(s)
    && forall i :: j < i < |s.history| && s.history[i].Changed? ==> s.history[i].file in s.pending
  }

  /** At most one reindex is outstanding, and indexing says whether one is; it has files; pending
      files are listed once; and while files are pending something will come round to them. */
  ghost predicate Safe(s: State) {
    && |s.running| + |s.done| == (if s.indexing then 1 else 0)
    && (|s.running| + |s.done| == 1 ==> |InFlight(s)| > 0)
    && Distinct(s.pending)
    && (|s.pending| > 0 ==> s.timer != Stopped || s.indexing)
  }

  ghost predicate KeptTrackOf(s: State, i: nat) {
    i < |s.history| && s.history[i].Changed? ==>
      s.history[i].file in s.pending || Underway(s, i) || Settled(s.history, i) || TookSilently(s.history, i)
  }

  ghost predicate StartedLater(s: State, i: nat) {
    i < |s.history| && s.history[i].Changed? ==>
      s.history[i].file in s.pending || exists j: nat :: StartedWith(s.history, i, j, s.history[i].file)
  }

  /** Only failures are taken silently, and only once the loop is cancelled. */
  ghost predicate SilentIfCancelled(s: State) {
    forall k :: 0 <= k < |s.history| && s.history[k].Taken? && s.history[k].silent ==>
      !s.history[k].res.ok && s.cancelled
  }

  ghost predicate Inv(s: State) {
    && Safe(s)
    && (forall i: nat :: StartedLater(s, i))
    && (forall i: nat :: KeptTrackOf(s, i))
    && (|s.running| + |s.done| == 1 ==> exists j: nat :: InFlightSince(s, j))
    && SilentIfCancelled(s)
  }

  lemma {:induction false} SafeStep(s: State, a: Action)
    requires Safe(s)
    ensures Safe(Step(s, a))
  {
  }

  lemma {:induction false} StartedLaterStep(s: State, a: Action, i: nat)
    requires StartedLater(s, i)
    ensures StartedLater(Step(s, a), i)
  {
    var t := Step(s, a);
    var h, h' := s.history, t.history;
    assert h <= h';
    if i < |h| && h[i].Changed? {
      if j: nat :| StartedWith(h, i, j, h[i].file) {
        assert StartedWith(h', i, j, h[i].file);
      } else if h[i].file !in t.pending {
        assert StartedWith(h', i, |h|, h[i].file);
      }
    }
  }

  lemma {:induction false} SettledGrows(h: seq<Event>, h': seq<Event>, i: nat)
    requires h <= h' && Settled(h, i)
    ensures Settled(h', i)
  {
    var j: nat, k: nat :| StartedWith(h, i, j, h[i].file) && Answers(h, j, k);
    assert StartedWith(h', i, j, h[i].file) && Answers(h', j, k);
  }

  lemma {:induction false} TookSilentlyGrows(h: seq<Event>, h': seq<Event>, i: nat)
    requires h <= h' && TookSilently(h, i)
    ensures TookSilently(h', i)
  {
    var j: nat, k: nat :| StartedWith(h, i, j, h[i].file) && Silences(h, j, k);
    assert StartedWith(h', i, j, h[i].file) && Silences(h', j, k);
  }

  /** A change under way stays so until its result is taken. */
  lemma {:induction false} UnderwayStep(s: State, a: Action, i: nat)
    requires Safe(s) && Underway(s, i)
    ensures var t := Step(s, a); Underway(t, i) || Settled(t.history, i) || TookSilently(t.history, i)
  {
    var t := Step(s, a);
    var h, h' := s.history, t.history;
    assert h <= h';
    var j: nat :| StartedWith(h, i, j, h[i].file) && h[j].files == InFlight(s);
    assert StartedWith(h', i, j, h[i].file);
    if a == ResultReady && Enabled(s, a) {
      assert h'[|h|] == Taken(s.done[0], !s.done[0].ok && s.cancelled);
      assert Silences(h', j, |h|) || Answers(h', j, |h|);
    }
  }

  lemma {:induction false} KeptTrackStep(s: State, a: Action, i: nat)
    requires Safe(s) && KeptTrackOf(s, i)
    ensures KeptTrackOf(Step(s, a), i)
  {
    var t := Step(s, a);
    var h, h' := s.history, t.history;
    assert h <= h';
    if i < |h| && h[i].Changed? {
      if Settled(h, i) {
        SettledGrows(h, h', i);
      } else if TookSilently(h, i) {
        TookSilentlyGrows(h, h', i);
      } else if Underway(s, i) {
        UnderwayStep(s, a, i);
      } else if h[i].file !in t.pending {
        assert StartedWith(h', i, |h|, h[i].file) && h'[|h|].files == InFlight(t);
      }
      hide Settled, TookSilently;
    }
  }

  lemma {:induction false} InFlightStep(s: State, a: Action)
    requires Safe(s) && (|s.running| + |s.done| == 1 ==> exists j: nat :: InFlightSince(s, j))
    ensures var t := Step(s, a); |t.running| + |t.done| == 1 ==> exists j: nat :: InFlightSince(t, j)
  {
    var t := Step(s, a);
    if |t.running| + |t.done| == 1 {
      if |s.running| + |s.done| == 1 {
        var j: nat :| InFlightSince(s, j);
        assert InFlightSince(t, j);
      } else {
        assert InFlightSince(t, |s.history|);
      }
    }
  }

  lemma {:induction false} SilentStep(s: State, a: Action)
    requires SilentIfCancelled(s)
    ensures SilentIfCancelled(Step(s, a))
  {
  }

  /** Over every run of the loop: at most one reindex outstanding, no pending file twice, no
      pending file forgotten, every accepted change still pending or in a reindex started
      after it, which is outstanding, or was answered, or failed and was taken silently. */
  lemma {:induction false} RunKeepsInv(actions: seq<Action>)
    ensures Inv(Run(INITIAL, actions))
  {
    if |actions| > 0 {
      var before := actions[..|actions| - 1];
      var s, a := Run(INITIAL, before), actions[|actions| - 1];
      RunKeepsInv(before);
      SafeStep(s, a);
      InFlightStep(s, a);
      SilentStep(s, a);
      hide InFlightSince, SilentIfCancelled, StartedLater, KeptTrackOf;
      forall i: nat ensures StartedLater(Step(s, a), i) && KeptTrackOf(Step(s, a), i) {
        StartedLaterStep(s, a, i);
        KeptTrackStep(s, a, i);
      }
    }
  }

  // ---------- cancellation ----------

  /** What drainOnCancelWith waits for when a reindex is outstanding. */
  datatype Wait = Arrives(ok: bool) | TimesOut

  /** The result the drain receives: the one already sent, or that of the reindex that ends now. */
  function Awaited(s: State, ok: bool): Result
    requires |s.running| + |s.done| == 1
  {
    if |s.done| > 0 then s.done[0] else Result(s.running[0], ok)
  }

  /** The drain waits for the outstanding reindex in vain. Its context has then expired, and the
      final reindex, which is to run under it, does not start. */
  predicate GivesUp(s: State, wait: Wait) { s.indexing && wait.TimesOut? }

  /** What the drain leaves behind: the history goes on with the result it received and the
      final reindex it started, if anything was left to index. */
  function Drained(s: State, wait: Wait): seq<Event> {
    if GivesUp(s, wait) then s.history
    else if s.indexing && |s.running| + |s.done| == 1 then
      var res := Awaited(s, wait.ok);
      var files := if res.ok then s.pending else s.pending + res.files;
      s.history + [Taken(res, !res.ok)] + if |files| == 0 then [] else [Started(files)]
    else
      s.history + if |s.pending| == 0 then [] else [Started(s.pending)]
  }

  /** The final reindex of the drain has file in it. */
  ghost predicate InFinal(s: State, h: seq<Event>, file: string) {
    s.history < h && h[|h| - 1].Started? && file in h[|h| - 1].files
  }

  /** Which accepted changes a cancelled loop does not lose, over every run and every outcome of
      the wait: exactly those that were answered for, and, unless the drain gives up waiting,
      those that are pending or in the outstanding reindex. They are answered for in the end, or
      are in the final reindex, which starts only after that result has come. */
  lemma {:induction false} DrainCoversExactly(actions: seq<Action>, wait: Wait, i: nat)
    requires var s := Run(INITIAL, actions); i < |s.history| && s.history[i].Changed?
    ensures var s := Run(INITIAL, actions); var h := Drained(s, wait);
            Settled(h, i) || InFinal(s, h, s.history[i].file)
            <==> Settled(s.history, i)
                 || (!GivesUp(s, wait) && (s.history[i].file in s.pending || Underway(s, i)))
  {
    RunKeepsInv(actions);
    var s := Run(INITIAL, actions);
    hide Run;
    if Settled(s.history, i) || (!GivesUp(s, wait) && (s.history[i].file in s.pending || Underway(s, i))) {
      DrainCovers(s, wait, i);
    }
    if Settled(Drained(s, wait), i) { SettledByDrain(s, wait, i); }
    if InFinal(s, Drained(s, wait), s.history[i].file) { FinalFromDrain(s, wait, i); }
  }

  lemma {:induction false} DrainCovers(s: State, wait: Wait, i: nat)
    requires Inv(s) && i < |s.history| && s.history[i].Changed?
    requires Settled(s.history, i) || (!GivesUp(s, wait) && (s.history[i].file in s.pending || Underway(s, i)))
    ensures var h := Drained(s, wait); Settled(h, i) || InFinal(s, h, s.history[i].file)
  {
    var h := Drained(s, wait);
    var file := s.history[i].file;
    if Settled(s.history, i) {
      SettledGrows(s.history, h, i);
    } else if file in s.pending {
      assert file in h[|h| - 1].files;
    } else {
      var j: nat :| StartedWith(s.history, i, j, file) && s.history[j].files == InFlight(s);
      var res := Awaited(s, wait.ok);
      assert h[|s.history|] == Taken(res, !res.ok);
      if res.ok {
        assert StartedWith(h, i, j, file) && Answers(h, j, |s.history|);
      } else {
        assert h[|h| - 1] == Started(s.pending + res.files);
      }
    }
  }

  /** What the drain adds to the history answers only the outstanding reindex. */
  lemma {:induction false} SettledByDrain(s: State, wait: Wait, i: nat)
    requires Safe(s) && i < |s.history| && s.history[i].Changed? && Settled(Drained(s, wait), i)
    ensures Settled(s.history, i) || (Underway(s, i) && !GivesUp(s, wait))
  {
    var h := Drained(s, wait);
    var j: nat, k: nat :| StartedWith(h, i, j, h[i].file) && Answers(h, j, k);
    assert s.history <= h && h[i] == s.history[i];
    assert k <= |s.history| && StartedWith(s.history, i, j, s.history[i].file);
    if k < |s.history| {
      assert Answers(s.history, j, k);
    }
  }

  /** The final reindex has what is pending and the files of the outstanding one, no more. */
  lemma {:induction false} FinalFromDrain(s: State, wait: Wait, i: nat)
    requires Inv(s) && i < |s.history| && s.history[i].Changed? && InFinal(s, Drained(s, wait), s.history[i].file)
    ensures !GivesUp(s, wait) && (s.history[i].file in s.pending || Underway(s, i))
  {
    if s.history[i].file !in s.pending {
      var j: nat :| InFlightSince(s, j);
      assert i != j;
      assert StartedWith(s.history, i, j, s.history[i].file);
    }
  }

  /** So the loop loses a change only when the drain gives up, or when its reindex failed and the
      loop itself took the result silently. */
  lemma {:induction false} DrainCoversAll(actions: seq<Action>, wait: Wait, i: nat)
    requires var s := Run(INITIAL, actions); i < |s.history| && s.history[i].Changed?
    ensures var s := Run(INITIAL, actions); var h := Drained(s, wait);
            Settled(h, i) || InFinal(s, h, s.history[i].file) || GivesUp(s, wait) || TookSilently(s.history, i)
  {
    RunKeepsInv(actions);
    DrainCoversExactly(actions, wait, i);
    assert KeptTrackOf(Run(INITIAL, actions), i);
    hide Settled, InFinal, Underway, TookSilently;
  }

  /** The change at i came before a reindex that was answered for, whatever files that one was
      started for. */
  ghost predicate Reached(h: seq<Event>, i: nat) {
    i < |h| && h[i].Changed? && exists j: nat, k: nat :: i < j && Answers(h, j, k)
  }

  /** A reindex goes over the whole directory, not only the files that it was started for. By name
      or not, a change has a reindex after it that is answered for, or is the final one, exactly if
      it had one that was answered for before, or the drain does not give up waiting and finds a
      reindex outstanding or a file pending. */
  lemma {:induction false} DrainReachesExactly(actions: seq<Action>, wait: Wait, i: nat)
    requires var s := Run(INITIAL, actions); i < |s.history| && s.history[i].Changed?
    ensures var s := Run(INITIAL, actions); var h := Drained(s, wait);
            Reached(h, i) || (s.history < h && h[|h| - 1].Started?)
            <==> Reached(s.history, i) || (!GivesUp(s, wait) && (s.indexing || |s.pending| > 0))
  {
    RunKeepsInv(actions);
    var s := Run(INITIAL, actions);
    hide Run;
    if Reached(s.history, i) { ReachedGrows(s.history, Drained(s, wait), i); }
    if !GivesUp(s, wait) && s.indexing { OutstandingReaches(s, wait, i); }
    if !s.indexing && |s.pending| == 0 { assert Drained(s, wait) == s.history; }
    hide Reached, Inv;
  }

  lemma {:induction false} ReachedGrows(h: seq<Event>, h': seq<Event>, i: nat)
    requires h <= h' && Reached(h, i)
    ensures Reached(h', i)
  {
    var j: nat, k: nat :| i < j && Answers(h, j, k);
    assert Answers(h', j, k);
  }

  /** A change after the start of the outstanding reindex is pending; one before it is answered
      for by its result, or that is a failure, whose files are then reindexed. */
  lemma {:induction false} OutstandingReaches(s: State, wait: Wait, i: nat)
    requires Inv(s) && i < |s.history| && s.history[i].Changed? && s.indexing && wait.Arrives?
    ensures var h := Drained(s, wait); Reached(h, i) || (s.history < h && h[|h| - 1].Started?)
  {
    var h := Drained(s, wait);
    var j: nat :| InFlightSince(s, j);
    assert i != j;
    if i < j && |h| == |s.history| + 1 && h[|s.history|].Taken? {
      assert Answers(h, j, |s.history|);
    }
  }

  /** What becomes of a change that no reindex has answered for. A drain that gives up loses it,
      pending or not. Otherwise, if it is not in the outstanding reindex (the loop took its failed
      one silently, however long before), it is in the final one exactly if its file is pending. */
  lemma {:induction false} DrainDrops(actions: seq<Action>, wait: Wait, i: nat)
    requires var s := Run(INITIAL, actions); i < |s.history| && s.history[i].Changed? && !Settled(s.history, i)
    ensures var s := Run(INITIAL, actions); var h := Drained(s, wait);
            && (GivesUp(s, wait) ==> !Settled(h, i) && !InFinal(s, h, s.history[i].file))
            && (!GivesUp(s, wait) && !Underway(s, i) ==>
                  !Settled(h, i) && (InFinal(s, h, s.history[i].file) <==> s.history[i].file in s.pending))
  {
    DrainCoversExactly(actions, wait, i);
    RunKeepsInv(actions);
    var s := Run(INITIAL, actions);
    hide Run;
    if Settled(Drained(s, wait), i) { SettledByDrain(s, wait, i); }
    hide Underway;
  }

  // ---------- three ways to lose a change for good ----------

  /** a.go changes, and its reindex is under way. */
  const REINDEXING := [FileEvent("a.go", ""), TimerExpires, TimerTick]

  lemma {:induction false} ReindexStarted()
    ensures Run(INITIAL, REINDEXING)
         == State([], true, Stopped, [["a.go"]], [], false, [Changed("a.go"), Started(["a.go"])])
  {
    hide Run, Watched;
    var a := FileEvent("a.go", "");
    GoFileWatched('a');
    assert ['a'] + ".go" == "a.go";
    assert Run(INITIAL, []) == INITIAL by { RunNone(INITIAL); }
    RunOne(INITIAL, [], a);
    var p := [] + [a];
    assert Run(INITIAL, p) == State(["a.go"], false, Armed, [], [], false, [Changed("a.go")]);
    RunOne(INITIAL, p, TimerExpires);
    RunOne(INITIAL, p + [TimerExpires], TimerTick);
    assert p + [TimerExpires] + [TimerTick] == REINDEXING;
  }

  lemma {:induction false} RunThree(s: State, before: seq<Action>, a: Action, b: Action, c: Action)
    ensures Run(s, before + [a, b, c]) == Step(Step(Step(Run(s, before), a), b), c)
  {
    hide Run, Step;
    RunOne(s, before, a);
    RunOne(s, before + [a], b);
    RunOne(s, before + [a] + [b], c);
    assert before + [a] + [b] + [c] == before + [a, b, c];
  }

  lemma {:induction false} NothingLeft(wait: Wait)
    ensures var failed := Taken(Result(["a.go"], false), true);
            var s := State([], false, Stopped, [], [], true, [Changed("a.go"), Started(["a.go"]), failed]);
            && !Settled(Drained(s, wait), 0) && !InFinal(s, Drained(s, wait), "a.go")
            && Drained(s, wait) == s.history && !Reached(s.history, 0)
  {
  }

  /** The reindex is killed by the cancellation, the select takes its result before it takes the
      cancellation, and the drain finds nothing to do. */
  lemma {:induction false} LastChangeLost(wait: Wait)
    ensures var s := Run(INITIAL, REINDEXING + [Cancel, ReindexEnds(false), ResultReady]);
            && |s.history| > 0 && s.history[0] == Changed("a.go")
            && !Settled(Drained(s, wait), 0) && !InFinal(s, Drained(s, wait), "a.go")
            && Drained(s, wait) == s.history && !Reached(s.history, 0)
  {
    hide Run, Drained, Settled, InFinal, Reached;
    ReindexStarted();
    RunThree(INITIAL, REINDEXING, Cancel, ReindexEnds(false), ResultReady);
    var s2 := Step(Step(Run(INITIAL, REINDEXING), Cancel), ReindexEnds(false));
    assert s2 == State([], true, Stopped, [], [Result(["a.go"], false)], true, [Changed("a.go"), Started(["a.go"])]);
    var s3 := Step(s2, ResultReady);
    assert s3 == State([], false, Stopped, [], [], true,
                       [Changed("a.go"), Started(["a.go"]), Taken(Result(["a.go"], false), true)]);
    NothingLeft(wait);
  }

  /** The reindex fails by itself, but its result is taken only after the cancellation: the
      failure is not reported, and not tried again either. */
  lemma {:induction false} FailureLost(wait: Wait)
    ensures var s := Run(INITIAL, REINDEXING + [ReindexEnds(false), Cancel, ResultReady]);
            && |s.history| > 0 && s.history[0] == Changed("a.go")
            && !Settled(Drained(s, wait), 0) && !InFinal(s, Drained(s, wait), "a.go")
            && Drained(s, wait) == s.history && !Reached(s.history, 0)
  {
    hide Run, Drained, Settled, InFinal, Reached;
    ReindexStarted();
    RunThree(INITIAL, REINDEXING, ReindexEnds(false), Cancel, ResultReady);
    var s2 := Step(Step(Run(INITIAL, REINDEXING), ReindexEnds(false)), Cancel);
    assert s2 == State([], true, Stopped, [], [Result(["a.go"], false)], true, [Changed("a.go"), Started(["a.go"])]);
    var s3 := Step(s2, ResultReady);
    assert s3 == State([], false, Stopped, [], [], true,
                       [Changed("a.go"), Started(["a.go"]), Taken(Result(["a.go"], false), true)]);
    NothingLeft(wait);
  }

  /** b.go changes while a.go is reindexed, and the drain gives up waiting for that: b.go is pending
      and yet not indexed. */
  lemma {:induction false} PendingLost()
    ensures var s := Run(INITIAL, REINDEXING + [FileEvent("b.go", ""), TimerExpires, Cancel]);
            && |s.history| > 2 && s.history[2] == Changed("b.go") && s.pending == ["b.go"]
            && !Settled(Drained(s, TimesOut), 2) && !InFinal(s, Drained(s, TimesOut), "b.go")
            && Drained(s, TimesOut) == s.history && !Reached(s.history, 2)
  {
    hide Run, Watched, Settled, InFinal, Reached, Drained;
    ReindexStarted();
    GoFileWatched('b');
    assert ['b'] + ".go" == "b.go";
    RunThree(INITIAL, REINDEXING, FileEvent("b.go", ""), TimerExpires, Cancel);
    var s1 := Step(Run(INITIAL, REINDEXING), FileEvent("b.go", ""));
    assert s1 == State(["b.go"], true, Armed, [["a.go"]], [], false,
                       [Changed("a.go"), Started(["a.go"]), Changed("b.go")]);
    assert Step(Step(s1, TimerExpires), Cancel) == s1.(timer := Fired, cancelled := true);
    StillPending();
  }

  lemma {:induction false} StillPending()
    ensures var s := State(["b.go"], true, Fired, [["a.go"]], [], true,
                           [Changed("a.go"), Started(["a.go"]), Changed("b.go")]);
            && !Settled(Drained(s, TimesOut), 2) && !InFinal(s, Drained(s, TimesOut), "b.go")
            && Drained(s, TimesOut) == s.history && !Reached(s.history, 2)
  {
  }

  lemma {:induction false} GoFileWatched(c: char)
    requires c != '/' && c != '~' && c != '.'
    ensures Watched([c] + ".go")
  {
    var name := [c] + ".go";
    BaseOfPlainName(name);
    assert name[|name| - 3..] == ".go";
    assert name[..1][0] == c;
  }

  lemma {:induction false} Disabled(s: State, a: Action)
    requires !Enabled(s, a)
    ensures Step(s, a) == s
  {
  }

  lemma {:induction false} RunNone(s: State)
    ensures Run(s, []) == s
  {
  }

  lemma {:induction false} BaseOfPlainName(name: string)
    requires '/' !in name
    ensures Base(name) == name
  {
    if |name| > 0 { BaseOfPlainName(name[..|name| - 1]); }
  }

  lemma {:induction false} RunOne(s: State, before: seq<Action>, a: Action)
    ensures Run(s, before + [a]) == Step(Run(s, before), a)
  {
    assert (before + [a])[..|before|] == before;
  }

  // ---------- the loop ----------

  /** The variables of runWatch, and the goroutines and channel it starts them for. */
  class Loop {
    var pendingFiles: seq<string>
    var indexing: bool
    var timer: Timer
    var running: seq<seq<string>>
    var reindexDone: seq<Result>
    var cancelled: bool
    ghost var history: seq<Event>

    ghost function Abs(): State
      reads this
    {
      State(pendingFiles, indexing, timer, running, reindexDone, cancelled, history)
    }

    constructor ()
      ensures Abs() == INITIAL
    {
      pendingFiles, indexing, timer, running, reindexDone, cancelled := [], false, Stopped, [], [], false;
      history := [];
    }

    /** case event := <-watcher.Events */
    method OnEvent(name: string, rel: string)
      modifies this
      ensures Abs() == Step(old(Abs()), FileEvent(name, rel))
    {
      if !(|name| >= 3 && name[|name| - 3..] == ".go") {
        return;
      }
      if '~' in name || Base(name)[..1] == "." {
        return;
      }
      var relPath := rel;
      if relPath == "" {
        relPath := name;
      }
      var found := false;
      for i := 0 to |pendingFiles|
        invariant !found && relPath !in pendingFiles[..i]
        invariant unchanged(this)
      {
        if pendingFiles[i] == relPath {
          found := true;
          break;
        }
      }
      if !found {
        pendingFiles := pendingFiles + [relPath];
      }
      timer := Armed;
      history := history + [Changed(relPath)];
    }

    method StartReindex(files: seq<string>)
      modifies this
      ensures Abs() == old(Abs()).(indexing := true, running := old(running) + [files],
          history := old(history) + [Started(files)])
    {
      indexing := true;
      running := running + [files];
      history := history + [Started(files)];
    }

    /** case <-debounceTimer.C */
    method OnTimer()
      requires timer == Fired
      modifies this
      ensures Abs() == Step(old(Abs()), TimerTick)
    {
      timer := Stopped;
      if |pendingFiles| == 0 || indexing {
        return;
      }
      var files := pendingFiles;
      pendingFiles := [];
      StartReindex(files);
    }

    /** case res := <-reindexDone */
    method OnResult() returns (res: Result)
      requires |reindexDone| > 0
      modifies this
      ensures res == old(reindexDone)[0] && Abs() == Step(old(Abs()), ResultReady)
    {
      res := reindexDone[0];
      reindexDone := reindexDone[1..];
      indexing := false;
      history := history + [Taken(res, !res.ok && cancelled)];
      if |pendingFiles| > 0 {
        timer := Armed;
      }
    }

    /** What goes on around the loop: the timer expires, a reindex ends and sends its result,
        the context is cancelled. */
    method Outside(a: Action)
      requires a.TimerExpires? || a.ReindexEnds? || a.Cancel?
      modifies this
      ensures Abs() == Step(old(Abs()), a)
    {
      if a == TimerExpires && timer == Armed {
        timer := Fired;
      } else if a.ReindexEnds? && |running| > 0 && |reindexDone| < 1 {
        reindexDone := reindexDone + [Result(running[0], a.ok)];
        running := running[1..];
      } else if a == Cancel {
        cancelled := true;
      }
    }

    /** drainOnCancelWith: wait for the outstanding result, then reindex once more, unless the wait
        has used up the context that is to run under. */
    method Drain(wait: Wait)
      requires Safe(Abs())
      modifies this
      ensures history == Drained(old(Abs()), wait)
    {
      var pending := pendingFiles;
      var expired := false;
      if indexing {
        if wait.Arrives? {
          var res := if |reindexDone| > 0 then reindexDone[0] else Result(running[0], wait.ok);
          history := history + [Taken(res, !res.ok)];
          if !res.ok {
            pending := pending + res.files;
          }
        } else {
          expired := true;
        }
      }
      if |pending| == 0 {
        return;
      }
      if !expired {
        history := history + [Started(pending)];
      }
    }

    /** The for/select loop of runWatch over any sequence of ready cases. */
    method Watch(actions: seq<Action>)
      requires Abs() == INITIAL
      modifies this
      ensures Abs() == Run(INITIAL, actions) && Inv(Abs())
    {
      hide Inv, Step, Run, Watched;
      RunNone(INITIAL);
      for i := 0 to |actions|
        invariant Abs() == Run(INITIAL, actions[..i])
      {
        RunOne(INITIAL, actions[..i], actions[i]);
        assert actions[..i + 1] == actions[..i] + [actions[i]];
        if !Enabled(Abs(), actions[i]) { Disabled(Abs(), actions[i]); }
        match actions[i]
        case FileEvent(name, rel) => OnEvent(name, rel);
        case TimerTick => if timer == Fired { OnTimer(); }
        case ResultReady => if |reindexDone| > 0 { var _ := OnResult(); }
        case TimerExpires => Outside(TimerExpires);
        case ReindexEnds(ok) => Outside(ReindexEnds(ok));
        case Cancel => Outside(Cancel);
      }
      assert actions[..|actions|] == actions;
      RunKeepsInv(actions);
    }
  }
}
