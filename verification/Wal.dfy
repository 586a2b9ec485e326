/** Group commit in internal/store/wal.go, one step per hold of the mutex. Appends park on a
    condition variable, a background flusher fsyncs outside the mutex, Truncate starts a new file
    generation, and Close does a last flush and fsync. A line is represented by its sequence number. */
module WalModel {

  /** An Append call after it wrote its line: its sequence number and the epoch it wrote in. */
  datatype Caller =
    | Parked(seqNo: nat, epoch: nat)
    | Woken(seqNo: nat, epoch: nat)
    | Succeeded(seqNo: nat, epoch: nat)
    | Errored

  /** The flusher between its critical sections: what it saw, and how many lines its fsync covers. */
  datatype Flusher = Idle | Syncing(pending: nat, epoch: nat, upto: nat) | Synced(pending: nat, epoch: nat)

  /** One file generation: the lines handed to the kernel and how many of them are fsynced. */
  datatype File = File(lines: seq<nat>, synced: nat)

  /** seqNo, durable, epoch, closed and buf are the WAL's fields; open and broken describe its file
      handle and the sticky error of its buffered writer; past keeps the truncated generations. */
  datatype Wal = Wal(seqNo: nat, durable: nat, epoch: nat, closed: bool, buf: seq<nat>, file: File,
                     open: bool, broken: bool, flusher: Flusher, callers: map<nat, Caller>, past: map<nat, File>)

  datatype Step =
    | AppendBatched(id: nat)                // Append up to its first wait
    | AppendInline(id: nat, synced: bool)   // Append without batching; its fsync may fail
    | AppendFailed(id: nat, broke: bool)    // Append whose line cannot be marshalled or written
    | Spill(n: nat)                         // the writer or Since pushes buffered lines to the kernel
    | FlushBegin(flushed: bool)             // flushOnce, first critical section
    | SyncEnd(ok: bool)                     // its fsync, outside the mutex
    | Publish                               // flushOnce, second critical section
    | Wake(id: nat)                         // a woken Append rechecks its condition
    | TruncateOk
    | TruncateFailed(broke: bool, handleClosed: bool)
    | CloseBegin(synced: bool)              // Close, first critical section; errors are ignored
    | CloseEnd

  function Opened(last: nat, lines: seq<nat>): (w: Wal) {
    Wal(last, last, 0, false, [], File(lines, |lines|), true, false, Idle, map[], map[])
  }

  function All(w: Wal): (s: seq<nat>) { w.file.lines + w.buf }

  /** The loop condition of Append. */
  predicate MustWait(w: Wal, seqNo: nat, epoch: nat) { w.durable < seqNo && !w.closed && w.epoch == epoch }

  /** Flush: succeeds on a healthy writer, and trivially when nothing is buffered. */
  predicate CanFlush(w: Wal) { !w.broken && (w.open || w.buf == []) }

  function Flushed(w: Wal): (v: Wal) { w.(file := w.file.(lines := All(w)), buf := []) }

  /** Broadcast: every parked caller is woken. */
  function Broadcast(callers: map<nat, Caller>): (c: map<nat, Caller>) {
    map i | i in callers :: if callers[i].Parked? then Woken(callers[i].seqNo, callers[i].epoch) else callers[i]
  }

  /** What Append returns once its loop is over. */
  function Outcome(w: Wal, c: Caller): (r: Caller)
    requires c.Parked? || c.Woken?
  {
    if w.epoch != c.epoch then Errored
    else if w.closed && w.durable < c.seqNo then Errored
    else Succeeded(c.seqNo, c.epoch)
  }

  /** The check Append makes before waiting, the first time and after every wake-up. */
  function Recheck(w: Wal, c: Caller): (r: Caller)
    requires c.Parked? || c.Woken?
  {
    if MustWait(w, c.seqNo, c.epoch) then Parked(c.seqNo, c.epoch) else Outcome(w, c)
  }

  predicate Enabled(w: Wal, s: Step) {
    match s
    case AppendBatched(id) => id !in w.callers && !w.broken
    case AppendInline(id, _) => id !in w.callers && !w.broken && w.open
    case AppendFailed(id, _) => id !in w.callers
    case Spill(n) => n <= |w.buf| && CanFlush(w)
    case FlushBegin(flushed) => w.flusher.Idle? && w.seqNo > w.durable && !w.closed && (flushed ==> CanFlush(w))
    case SyncEnd(ok) => w.flusher.Syncing?
    case Publish => w.flusher.Synced?
    case Wake(id) => id in w.callers && w.callers[id].Woken?
    case TruncateOk => !w.broken && w.open
    case TruncateFailed(_, _) => true
    case CloseBegin(synced) => !w.closed && (synced ==> !w.broken && w.open)
    case CloseEnd => w.closed
  }

  function Next(w: Wal, s: Step): (v: Wal)
    requires Enabled(w, s)
  {
    match s
    case AppendBatched(id) =>
      var v := w.(seqNo := w.seqNo + 1, buf := w.buf + [w.seqNo + 1]);
      v.(callers := v.callers[id := Recheck(v, Woken(v.seqNo, v.epoch))])
    case AppendInline(id, synced) =>
      var v := Flushed(w.(seqNo := w.seqNo + 1, buf := w.buf + [w.seqNo + 1]));
      if !synced then v.(callers := v.callers[id := Errored])
      else v.(file := v.file.(synced := |v.file.lines|), callers := v.callers[id := Succeeded(v.seqNo, v.epoch)])
    case AppendFailed(id, broke) =>
      w.(seqNo := w.seqNo + 1, broken := w.broken || broke, callers := w.callers[id := Errored])
    case Spill(n) => w.(file := w.file.(lines := w.file.lines + w.buf[..n]), buf := w.buf[n..])
    case FlushBegin(flushed) =>
      if !flushed then w.(broken := true)
      else Flushed(w).(flusher := Syncing(w.seqNo, w.epoch, |All(w)|))
    case SyncEnd(ok) =>
      var f := w.flusher;
      if !ok then w.(flusher := Idle)
      else if f.epoch == w.epoch && f.upto > w.file.synced then
        w.(flusher := Synced(f.pending, f.epoch), file := w.file.(synced := f.upto))
      else w.(flusher := Synced(f.pending, f.epoch))
    case Publish =>
      var f := w.flusher;
      if w.epoch != f.epoch || w.closed || f.pending <= w.durable then w.(flusher := Idle)
      else w.(flusher := Idle, durable := f.pending, callers := Broadcast(w.callers))
    case Wake(id) => w.(callers := w.callers[id := Recheck(w, w.callers[id])])
    case TruncateOk =>
      var v := Flushed(w);
      v.(past := v.past[v.epoch := v.file], file := File([], 0), seqNo := 0, durable := 0,
         epoch := v.epoch + 1, callers := Broadcast(v.callers))
    case TruncateFailed(broke, handleClosed) =>
      w.(broken := w.broken || broke, open := w.open && !handleClosed)
    case CloseBegin(synced) =>
      var v := if synced then var u := Flushed(w); u.(file := u.file.(synced := |u.file.lines|)) else w;
      v.(closed := true, durable := if v.seqNo > v.durable then v.seqNo else v.durable, callers := Broadcast(v.callers))
    case CloseEnd => w.(open := false)
  }

  /** The step is not a Close whose flush or fsync failed. */
  predicate Sound(s: Step) { s.CloseBegin? ==> s.synced }

  /** The steps lead from w to v. */
  ghost predicate Reaches(w: Wal, steps: seq<Step>, v: Wal)
    decreases |steps|
  {
    if steps == [] then w == v
    else Enabled(w, steps[0]) && Reaches(Next(w, steps[0]), steps[1..], v)
  }

  // ---- the invariant ----

  /** Line q of the given epoch is fsynced in that epoch's file. */
  ghost predicate Durable(w: Wal, epoch: nat, q: nat) {
    if epoch == w.epoch then w.file.synced <= |w.file.lines| && q in w.file.lines[..w.file.synced]
    else epoch in w.past && w.past[epoch].synced <= |w.past[epoch].lines|
         && q in w.past[epoch].lines[..w.past[epoch].synced]
  }

  /** Everything up to n is within the first k lines of the current generation. */
  ghost predicate Covers(w: Wal, n: nat, k: nat) {
    k <= |w.file.lines| && forall q <- All(w) :: q <= n ==> q in w.file.lines[..k]
  }

  ghost predicate Counters(w: Wal) {
    && w.durable <= w.seqNo && w.file.synced <= |w.file.lines|
    && (forall q <- All(w) :: 0 < q <= w.seqNo)
    && Covers(w, w.durable, w.file.synced)
  }

  ghost predicate FlusherFine(w: Wal) {
    match w.flusher
    case Idle => true
    case Syncing(pending, epoch, upto) => epoch == w.epoch ==> pending <= w.seqNo && Covers(w, pending, upto)
    case Synced(pending, epoch) => epoch == w.epoch ==> pending <= w.seqNo && Covers(w, pending, w.file.synced)
  }

  /** A call that wrote in the current epoch finds its line there; a parked one has to wait; a
      successful one is durable. */
  ghost predicate CallerFine(w: Wal, c: Caller) {
    match c
    case Parked(q, epoch) => q in All(w) && MustWait(w, q, epoch)
    case Woken(q, epoch) => epoch == w.epoch ==> q in All(w)
    case Succeeded(q, epoch) => Durable(w, epoch, q)
    case Errored => true
  }

  ghost predicate CallersFine(w: Wal) { forall i <- w.callers :: CallerFine(w, w.callers[i]) }

  /** Epochs only count up, so no recorded epoch lies ahead. */
  ghost predicate EpochsFine(w: Wal) {
    && (w.flusher.Idle? || w.flusher.epoch <= w.epoch)
    && (forall i <- w.callers :: w.callers[i].Errored? || w.callers[i].epoch <= w.epoch)
    && (forall e <- w.past :: e < w.epoch && w.past[e].synced <= |w.past[e].lines|)
  }

  ghost predicate Inv(w: Wal) { Counters(w) && FlusherFine(w) && CallersFine(w) && EpochsFine(w) }

  /** v continues w's file generation: lines are only added, at the end and with higher numbers. */
  ghost predicate Continues(w: Wal, v: Wal) {
    && v.epoch == w.epoch && v.seqNo >= w.seqNo && v.file.synced >= w.file.synced && v.past == w.past
    && w.file.lines <= v.file.lines && (forall q <- All(w) :: q in All(v))
    && (forall q <- All(v) :: q in All(w) || w.seqNo < q <= v.seqNo)
  }
}

/** Durability, wake-ups and progress of group commit, over every interleaving. */
module WalProofs {
  import opened WalModel

  lemma OpenedInv(last: nat, lines: seq<nat>)
    requires forall q <- lines :: 0 < q <= last
    ensures Inv(Opened(last, lines))
  {
  }

  /** A step other than Truncate keeps the lines of the generation, and an append adds its own. */
  lemma LinesAfter(w: Wal, s: Step)
    requires Enabled(w, s) && !s.TruncateOk?
    ensures All(Next(w, s)) == if s.AppendBatched? || s.AppendInline? then All(w) + [w.seqNo + 1] else All(w)
    ensures w.file.lines <= Next(w, s).file.lines
  {
    var v := Next(w, s);
    match s
    case Spill(n) => assert All(v) == All(w);
    case AppendBatched(_) => assert All(v) == All(w) + [w.seqNo + 1];
    case AppendInline(_, _) => assert All(v) == All(w) + [w.seqNo + 1];
    case FlushBegin(_) => assert All(v) == All(w);
    case CloseBegin(_) => assert All(v) == All(w);
    case _ =>
  }

  lemma ContinuesWith(w: Wal, v: Wal, added: seq<nat>)
    requires All(v) == All(w) + added && w.file.lines <= v.file.lines && v.file.synced >= w.file.synced
    requires v.epoch == w.epoch && v.past == w.past && v.seqNo >= w.seqNo
    requires forall q <- added :: w.seqNo < q <= v.seqNo
    ensures Continues(w, v)
  {
  }

  lemma StepContinues(w: Wal, s: Step)
    requires Inv(w) && Enabled(w, s) && !s.TruncateOk?
    ensures Continues(w, Next(w, s))
  {
    LinesAfter(w, s);
    ContinuesWith(w, Next(w, s), if s.AppendBatched? || s.AppendInline? then [w.seqNo + 1] else []);
  }

  lemma CoversContinue(w: Wal, v: Wal, n: nat, k: nat)
    requires Continues(w, v) && Covers(w, n, k) && n <= w.seqNo
    ensures Covers(v, n, k)
  {
  }

  lemma CoversMore(w: Wal, n: nat, k: nat, k': nat)
    requires Covers(w, n, k) && k <= k' <= |w.file.lines|
    ensures Covers(w, n, k')
  {
  }

  lemma CoversAll(w: Wal, n: nat)
    requires w.buf == []
    ensures Covers(w, n, |w.file.lines|)
  {
  }

  /** Truncate leaves an empty generation, in which everything holds trivially. */
  lemma TruncateInv(w: Wal)
    requires Inv(w) && Enabled(w, TruncateOk)
    ensures Counters(Next(w, TruncateOk)) && FlusherFine(Next(w, TruncateOk)) && EpochsFine(Next(w, TruncateOk))
  {
  }

  lemma CountersStep(w: Wal, s: Step)
    requires Inv(w) && Enabled(w, s) && Sound(s) && !s.TruncateOk?
    ensures Counters(Next(w, s))
  {
    var v := Next(w, s);
    StepContinues(w, s);
    CoversContinue(w, v, w.durable, w.file.synced);
    if s.SyncEnd? || s.AppendInline? {
      CoversMore(v, w.durable, w.file.synced, v.file.synced);
    } else if s.CloseBegin? {
      CoversAll(v, v.durable);
    }
  }

  lemma FlushBeginFine(w: Wal, flushed: bool)
    requires Inv(w) && Enabled(w, FlushBegin(flushed))
    ensures FlusherFine(Next(w, FlushBegin(flushed)))
  {
  }

  lemma SyncEndFine(w: Wal, ok: bool)
    requires Inv(w) && Enabled(w, SyncEnd(ok))
    ensures FlusherFine(Next(w, SyncEnd(ok)))
  {
    var v := Next(w, SyncEnd(ok));
    if ok && w.flusher.epoch == w.epoch {
      CountersStep(w, SyncEnd(ok));
      CoversMore(v, w.flusher.pending, w.flusher.upto, v.file.synced);
    }
  }

  lemma FlusherContinues(w: Wal, v: Wal)
    requires Continues(w, v) && v.flusher == w.flusher && FlusherFine(w) && v.file.synced <= |v.file.lines|
    ensures FlusherFine(v)
  {
  }

  lemma FlusherStep(w: Wal, s: Step)
    requires Inv(w) && Enabled(w, s) && Sound(s) && !s.TruncateOk?
    ensures FlusherFine(Next(w, s))
  {
    if s.FlushBegin? {
      FlushBeginFine(w, s.flushed);
    } else if s.SyncEnd? {
      SyncEndFine(w, s.ok);
    } else if !s.Publish? {
      StepContinues(w, s);
      CountersStep(w, s);
      FlusherContinues(w, Next(w, s));
    }
  }

  lemma EpochsStep(w: Wal, s: Step)
    requires Inv(w) && Enabled(w, s) && Sound(s) && !s.TruncateOk?
    ensures EpochsFine(Next(w, s))
  {
    StepContinues(w, s);
  }

  /** A caller that the step leaves alone stays fine. */
  lemma CallerContinues(w: Wal, v: Wal, c: Caller)
    requires Continues(w, v) && v.file.synced <= |v.file.lines| && CallerFine(w, c)
    requires c.Parked? ==> MustWait(v, c.seqNo, c.epoch)
    ensures CallerFine(v, c)
  {
  }

  /** What an append returns with success is durable. */
  lemma RecheckFine(w: Wal, c: Caller)
    requires Counters(w) && (c.Parked? || c.Woken?) && (c.epoch == w.epoch ==> c.seqNo in All(w))
    ensures CallerFine(w, Recheck(w, c))
  {
  }

  lemma BroadcastFine(w: Wal, v: Wal, i: nat)
    requires Continues(w, v) && v.file.synced <= |v.file.lines| && CallersFine(w) && i in w.callers
    ensures CallerFine(v, Broadcast(w.callers)[i])
  {
  }

  lemma BroadcastAfterTruncate(w: Wal, i: nat)
    requires Inv(w) && Enabled(w, TruncateOk) && i in w.callers
    ensures CallerFine(Next(w, TruncateOk), Broadcast(w.callers)[i])
  {
    var v, c := Next(w, TruncateOk), w.callers[i];
    assert CallerFine(w, c);
    if c.Succeeded? && c.epoch == w.epoch {
      assert v.past[w.epoch].lines[..w.file.synced] == w.file.lines[..w.file.synced];
    }
  }

  lemma CallersStep(w: Wal, s: Step)
    requires Inv(w) && Enabled(w, s) && Sound(s)
    ensures CallersFine(Next(w, s))
  {
    var v := Next(w, s);
    forall i | i in v.callers ensures CallerFine(v, v.callers[i]) {
      if s.TruncateOk? {
        BroadcastAfterTruncate(w, i);
      } else {
        StepContinues(w, s);
        CountersStep(w, s);
        CallerStep(w, s, i);
      }
    }
  }

  /** One caller across one step that continues the generation. */
  lemma CallerStep(w: Wal, s: Step, i: nat)
    requires Inv(w) && Enabled(w, s) && Sound(s) && !s.TruncateOk? && i in Next(w, s).callers
    requires Continues(w, Next(w, s)) && Counters(Next(w, s))
    ensures CallerFine(Next(w, s), Next(w, s).callers[i])
  {
    if s.Publish? || s.CloseBegin? {
      SignalledCaller(w, s, i);
    } else if s.Wake? && i == s.id {
      RecheckFine(w, w.callers[i]);
    } else if i in w.callers {
      CallerContinues(w, Next(w, s), w.callers[i]);
    } else {
      NewCaller(w, s, i);
    }
  }

  /** The steps that may end a wait broadcast, so nobody stays parked past its condition. */
  lemma SignalledCaller(w: Wal, s: Step, i: nat)
    requires Inv(w) && Enabled(w, s) && (s.Publish? || s.CloseBegin?) && i in w.callers
    requires Continues(w, Next(w, s)) && Counters(Next(w, s))
    ensures CallerFine(Next(w, s), Next(w, s).callers[i])
  {
    var v := Next(w, s);
    if s.CloseBegin? || v.durable != w.durable {
      BroadcastFine(w, v, i);
    } else {
      CallerContinues(w, v, w.callers[i]);
    }
  }

  lemma NewCaller(w: Wal, s: Step, i: nat)
    requires Enabled(w, s) && Counters(Next(w, s)) && i in Next(w, s).callers && i !in w.callers
    requires s.AppendBatched? || s.AppendInline? || s.AppendFailed?
    ensures CallerFine(Next(w, s), Next(w, s).callers[i])
  {
    var v := Next(w, s);
    if s.AppendBatched? {
      assert v.seqNo in v.buf;
      RecheckFine(v, Woken(v.seqNo, v.epoch));
    } else if s.AppendInline? {
      assert v.file.lines[..|v.file.lines|] == v.file.lines;
    }
  }

  lemma StepKeepsInv(w: Wal, s: Step)
    requires Inv(w) && Enabled(w, s) && Sound(s)
    ensures Inv(Next(w, s))
  {
    CallersStep(w, s);
    if s.TruncateOk? {
      TruncateInv(w);
    } else {
      CountersStep(w, s);
      FlusherStep(w, s);
      EpochsStep(w, s);
    }
  }

  lemma {:induction false} RunKeepsInv(w: Wal, steps: seq<Step>, v: Wal)
    requires Inv(w) && Reaches(w, steps, v) && forall s <- steps :: Sound(s)
    ensures Inv(v)
    decreases |steps|
  {
    if steps != [] {
      StepKeepsInv(w, steps[0]);
      RunKeepsInv(Next(w, steps[0]), steps[1..], v);
    }
  }

  /** Over every interleaving: an Append that returned success has its line fsynced in the file
      generation it was written to, and a parked Append still has to wait. */
  lemma GroupCommit(last: nat, lines: seq<nat>, steps: seq<Step>, w: Wal, id: nat)
    requires forall q <- lines :: 0 < q <= last
    requires Reaches(Opened(last, lines), steps, w) && (forall s <- steps :: Sound(s)) && id in w.callers
    ensures w.callers[id].Succeeded? ==> Durable(w, w.callers[id].epoch, w.callers[id].seqNo)
    ensures w.callers[id].Parked? ==> MustWait(w, w.callers[id].seqNo, w.callers[id].epoch)
  {
    OpenedInv(last, lines);
    RunKeepsInv(Opened(last, lines), steps, w);
    assert CallerFine(w, w.callers[id]);
  }

  /** One undisturbed flusher cycle releases every parked Append with success. */
  lemma FlushCycleReleases(w: Wal, id: nat) returns (v: Wal)
    requires Inv(w) && w.flusher == Idle && CanFlush(w) && id in w.callers && w.callers[id].Parked?
    ensures Reaches(w, [FlushBegin(true), SyncEnd(true), Publish, Wake(id)], v)
    ensures id in v.callers && v.callers[id] == Succeeded(w.callers[id].seqNo, w.epoch)
  {
    var c := w.callers[id];
    assert CallerFine(w, c);
    var w1 := Next(w, FlushBegin(true));
    var w2 := Next(w1, SyncEnd(true));
    var w3 := Next(w2, Publish);
    assert c.seqNo <= w.seqNo;
    v := Next(w3, Wake(id));
    assert Reaches(w3, [Wake(id)], v);
    assert Reaches(w2, [Publish, Wake(id)], v);
    assert Reaches(w1, [SyncEnd(true), Publish, Wake(id)], v);
  }

  /** Close ignores the errors of its flush and fsync, and then success does not mean durable; the exact
      condition is in WalClose. */
  lemma FailedCloseLosesLine() returns (steps: seq<Step>, w: Wal)
    ensures Reaches(Opened(0, []), steps, w)
    ensures 0 in w.callers && w.callers[0] == Succeeded(1, 0) && !Durable(w, 0, 1)
  {
    var w0 := Opened(0, []);
    var w1 := Next(w0, AppendBatched(0));
    var w2 := Next(w1, CloseBegin(false));
    w := Next(w2, Wake(0));
    assert Reaches(w2, [Wake(0)], w);
    assert Reaches(w1, [CloseBegin(false), Wake(0)], w);
    steps := [AppendBatched(0), CloseBegin(false), Wake(0)];
  }
}

/** What waiting appends are told by a Close. */
module WalCloseModel {
  import opened WalModel

  /** A step of a WAL in batch mode before it is closed. */
  predicate Quiet(s: Step) { !s.AppendInline? && !s.CloseBegin? }

  /** The line is fsynced. */
  ghost predicate OnDisk(w: Wal, q: nat) { w.file.synced <= |w.file.lines| && q in w.file.lines[..w.file.synced] }

  /** In the WAL's own fields: the line counts as durable, or its fsync has ended and awaits publication. */
  predicate Published(w: Wal, q: nat) {
    q <= w.durable || (w.flusher.Synced? && w.flusher.epoch == w.epoch && q <= w.flusher.pending)
  }

  /** The fsync that is running covers the line. */
  predicate InFlight(w: Wal, q: nat) { w.flusher.Syncing? && w.flusher.epoch == w.epoch && q <= w.flusher.pending }

  /** The lines the running fsync covers. */
  ghost predicate Covered(w: Wal, q: nat) {
    && w.flusher.Syncing? && w.flusher.epoch == w.epoch
    && w.flusher.upto <= |w.file.lines| && q in w.file.lines[..w.flusher.upto]
  }

  /** Nothing is fsynced beyond what the flusher has published or is about to publish. */
  ghost predicate Sharp(w: Wal) {
    && !w.closed && (forall q :: OnDisk(w, q) ==> Published(w, q)) && (forall q :: Covered(w, q) ==> InFlight(w, q))
  }

  predicate Waiting(w: Wal, id: nat) { id in w.callers && (w.callers[id].Parked? || w.callers[id].Woken?) }

  /** The fsync that was running when the steps began ends, and ends well. */
  predicate FsyncEnds(steps: seq<Step>) {
    steps != [] && if steps[0].SyncEnd? then steps[0].ok else FsyncEnds(steps[1..])
  }

  /** The steps take place between a Close, whose flush and fsync succeed or not, and the moment append id
      wakes up. */
  ghost predicate Between(w: Wal, id: nat, synced: bool, steps: seq<Step>, v: Wal) {
    && Enabled(w, CloseBegin(synced)) && Waiting(w, id)
    && Reaches(Next(w, CloseBegin(synced)), steps, v)
    && forall s <- steps :: s != Wake(id) && !s.AppendInline?
  }

  /** Append id, waking up now, reports success only for a durable line. */
  ghost predicate ToldTruth(v: Wal, id: nat) {
    Enabled(v, Wake(id)) ==>
      var u := Next(v, Wake(id)); var c := u.callers[id]; c.Succeeded? ==> Durable(u, c.epoch, c.seqNo)
  }
}

module WalClose {
  import opened WalModel
  import opened WalProofs
  import opened WalCloseModel

  lemma SharpStep(w: Wal, s: Step)
    requires Inv(w) && Sharp(w) && Enabled(w, s) && Quiet(s)
    ensures Sharp(Next(w, s))
  {
    var v := Next(w, s);
    if !s.TruncateOk? { StepContinues(w, s); }
    forall q | OnDisk(v, q) ensures Published(v, q) { SharpOnDisk(w, s, q); }
    forall q | Covered(v, q) ensures InFlight(v, q) { SharpCovered(w, s, q); }
  }

  lemma SharpOnDisk(w: Wal, s: Step, q: nat)
    requires Inv(w) && Sharp(w) && Enabled(w, s) && Quiet(s) && OnDisk(Next(w, s), q)
    requires s.TruncateOk? || Continues(w, Next(w, s))
    ensures Published(Next(w, s), q)
  {
    var v := Next(w, s);
    if !s.TruncateOk? {
      assert v.file.lines[..w.file.synced] == w.file.lines[..w.file.synced];
      if s.SyncEnd? && v.file.synced != w.file.synced {
        assert Covered(w, q);
      } else {
        assert OnDisk(w, q);
      }
    }
  }

  lemma SharpCovered(w: Wal, s: Step, q: nat)
    requires Inv(w) && Sharp(w) && Enabled(w, s) && Quiet(s) && Covered(Next(w, s), q)
    requires s.TruncateOk? || Continues(w, Next(w, s))
    ensures InFlight(Next(w, s), q)
  {
    var v := Next(w, s);
    if s.FlushBegin? {
      assert q in All(w);
    } else if !s.TruncateOk? {
      assert v.file.lines[..w.flusher.upto] == w.file.lines[..w.flusher.upto];
      assert Covered(w, q);
    }
  }

  lemma OpenedSharp(last: nat, lines: seq<nat>)
    requires forall q <- lines :: 0 < q <= last
    ensures Sharp(Opened(last, lines))
  {
    assert lines[..|lines|] == lines;
  }

  /** Every run in batch mode keeps the flusher's account exact. */
  lemma {:induction false} SharpRun(w: Wal, steps: seq<Step>, v: Wal)
    requires Inv(w) && Sharp(w) && Reaches(w, steps, v) && forall s <- steps :: Quiet(s)
    ensures Inv(v) && Sharp(v)
    decreases |steps|
  {
    if steps != [] {
      assert Quiet(steps[0]);
      StepKeepsInv(w, steps[0]);
      SharpStep(w, steps[0]);
      SharpRun(Next(w, steps[0]), steps[1..], v);
    }
  }

  /** So the results below apply to every state of a WAL in batch mode that is not closed yet. */
  lemma BatchRuns(last: nat, lines: seq<nat>, steps: seq<Step>, w: Wal)
    requires forall q <- lines :: 0 < q <= last
    requires Reaches(Opened(last, lines), steps, w) && forall s <- steps :: Quiet(s)
    ensures Inv(w) && Sharp(w)
  {
    OpenedInv(last, lines);
    OpenedSharp(last, lines);
    SharpRun(Opened(last, lines), steps, w);
  }

  /** The fields tell whether a line of a waiting append is fsynced, or will be by the running fsync. */
  lemma FieldsDecide(w: Wal, id: nat)
    requires Inv(w) && Sharp(w) && Waiting(w, id) && w.callers[id].epoch == w.epoch
    ensures OnDisk(w, w.callers[id].seqNo) <==> Published(w, w.callers[id].seqNo)
    ensures Covered(w, w.callers[id].seqNo) <==> InFlight(w, w.callers[id].seqNo)
    ensures w.callers[id].seqNo <= w.seqNo
  {
    assert CallerFine(w, w.callers[id]);
  }

  /** A woken append after the Close, before it has looked: its generation is gone, or its line is
      marked durable whether it is or not. */
  ghost predicate Closing(v: Wal, id: nat, q: nat, epoch: nat) {
    && v.closed && id in v.callers && v.callers[id] == Woken(q, epoch) && epoch <= v.epoch
    && v.file.synced <= |v.file.lines| && (epoch == v.epoch ==> q <= v.durable)
    && (v.flusher.Syncing? && v.flusher.epoch == v.epoch ==> v.flusher.upto <= |v.file.lines|)
    && (v.flusher.Idle? || v.flusher.epoch <= v.epoch)
  }

  lemma ClosingStep(v: Wal, s: Step, id: nat, q: nat, epoch: nat)
    requires Closing(v, id, q, epoch) && Enabled(v, s) && s != Wake(id) && !s.AppendInline?
    ensures Closing(Next(v, s), id, q, epoch)
    ensures Next(v, s).epoch == if s.TruncateOk? then v.epoch + 1 else v.epoch
    ensures !s.TruncateOk? ==> (OnDisk(Next(v, s), q) <==> OnDisk(v, q) || (s == SyncEnd(true) && Covered(v, q)))
    ensures !s.TruncateOk? ==> (Covered(Next(v, s), q) <==> Covered(v, q) && !s.SyncEnd?)
  {
    var u := Next(v, s);
    if !s.TruncateOk? {
      assert u.file.lines[..v.file.synced] == v.file.lines[..v.file.synced];
      if v.flusher.Syncing? && v.flusher.epoch == v.epoch {
        assert u.file.lines[..v.flusher.upto] == v.file.lines[..v.flusher.upto];
        if s == SyncEnd(true) && v.flusher.upto <= v.file.synced {
          assert v.file.lines[..v.flusher.upto] == v.file.lines[..v.file.synced][..v.flusher.upto];
        } else if s == SyncEnd(true) {
          assert v.file.lines[..v.file.synced] == v.file.lines[..v.flusher.upto][..v.file.synced];
        }
      }
    }
  }

  lemma {:induction false} ClosingRun(v: Wal, steps: seq<Step>, u: Wal, id: nat, q: nat, epoch: nat)
    requires Closing(v, id, q, epoch) && Reaches(v, steps, u)
    requires forall s <- steps :: s != Wake(id) && !s.AppendInline?
    ensures Closing(u, id, q, epoch) && v.epoch <= u.epoch && (u.epoch == v.epoch <==> TruncateOk !in steps)
    ensures u.epoch == v.epoch ==> (OnDisk(u, q) <==> OnDisk(v, q) || (Covered(v, q) && FsyncEnds(steps)))
    decreases |steps|
  {
    if steps != [] {
      var s := steps[0];
      assert s in steps;
      ClosingStep(v, s, id, q, epoch);
      forall x | x in steps[1..] ensures x in steps {}
      ClosingRun(Next(v, s), steps[1..], u, id, q, epoch);
      assert steps == [s] + steps[1..];
    }
  }

  /** A failed Close, any interleaving, and then append id wakes up: it is told the truth exactly when
      its generation is gone, or its line had been published or awaited publication, or the fsync that
      was running covers it and ended well in between. */
  lemma FailedCloseExactly(w: Wal, id: nat, steps: seq<Step>, v: Wal)
    requires Inv(w) && Sharp(w) && Between(w, id, false, steps, v)
    ensures var c := w.callers[id]; ToldTruth(v, id) <==>
      || c.epoch != w.epoch || TruncateOk in steps
      || Published(w, c.seqNo) || (InFlight(w, c.seqNo) && FsyncEnds(steps))
  {
    var c, w1 := w.callers[id], Next(w, CloseBegin(false));
    assert CallerFine(w, c);
    if c.epoch == w.epoch { FieldsDecide(w, id); }
    assert Closing(w1, id, c.seqNo, c.epoch);
    ClosingRun(w1, steps, v, id, c.seqNo, c.epoch);
  }

  /** A truncation, any interleaving, and then append id wakes up: it returns an error, since its line is
      no longer in the current generation; new lines are numbered from 1. */
  lemma TruncateErrs(w: Wal, id: nat, steps: seq<Step>, v: Wal)
    requires Inv(w) && Waiting(w, id) && Enabled(w, TruncateOk) && Reaches(Next(w, TruncateOk), steps, v)
    requires Wake(id) !in steps
    ensures Enabled(v, Wake(id)) && Next(v, Wake(id)).callers[id] == Errored
    ensures var u := Next(w, TruncateOk); u.seqNo == u.durable == 0 && All(u) == [] && u.epoch == w.epoch + 1
    ensures w.epoch in Next(w, TruncateOk).past && Next(w, TruncateOk).past[w.epoch].lines == All(w)
  {
    assert CallerFine(w, w.callers[id]);
    OutdatedRun(Next(w, TruncateOk), steps, v, id, w.callers[id].seqNo, w.callers[id].epoch);
  }

  /** A flush error is sticky: from then on no append succeeds that had not begun before. */
  lemma {:induction false} StaysBroken(w: Wal, steps: seq<Step>, v: Wal, id: nat)
    requires w.broken && Reaches(w, steps, v) && (id in w.callers ==> w.callers[id] == Errored)
    ensures v.broken && (id in v.callers ==> v.callers[id] == Errored)
    decreases |steps|
  {
    if steps != [] { StaysBroken(Next(w, steps[0]), steps[1..], v, id); }
  }

  lemma FailedFlushBreaks(w: Wal, steps: seq<Step>, v: Wal, id: nat)
    requires Enabled(w, FlushBegin(false)) && id !in w.callers && Reaches(Next(w, FlushBegin(false)), steps, v)
    ensures id in v.callers ==> v.callers[id] == Errored
  {
    StaysBroken(Next(w, FlushBegin(false)), steps, v, id);
  }

  /** A woken append of an earlier generation stays one until it looks. */
  lemma {:induction false} OutdatedRun(w: Wal, steps: seq<Step>, v: Wal, id: nat, q: nat, epoch: nat)
    requires Reaches(w, steps, v) && Wake(id) !in steps
    requires id in w.callers && w.callers[id] == Woken(q, epoch) && epoch < w.epoch
    ensures id in v.callers && v.callers[id] == Woken(q, epoch) && epoch < v.epoch
    decreases |steps|
  {
    if steps != [] {
      assert steps[0] in steps;
      forall x | x in steps[1..] ensures x in steps {}
      OutdatedStep(w, steps[0], id, q, epoch);
      OutdatedRun(Next(w, steps[0]), steps[1..], v, id, q, epoch);
    }
  }

  lemma OutdatedStep(w: Wal, s: Step, id: nat, q: nat, epoch: nat)
    requires Enabled(w, s) && s != Wake(id)
    requires id in w.callers && w.callers[id] == Woken(q, epoch) && epoch < w.epoch
    ensures var v := Next(w, s); id in v.callers && v.callers[id] == Woken(q, epoch) && epoch < v.epoch
  {
  }

  /** A Close whose flush and fsync succeed, any interleaving, and then append id wakes up: it returns
      success, and its line is durable, exactly when its generation is not truncated; otherwise an error. */
  lemma GoodCloseReleases(w: Wal, id: nat, steps: seq<Step>, v: Wal)
    requires Inv(w) && Between(w, id, true, steps, v)
    ensures Enabled(v, Wake(id))
    ensures var c, u := w.callers[id], Next(v, Wake(id));
      if c.epoch == w.epoch && TruncateOk !in steps
      then u.callers[id] == Succeeded(c.seqNo, c.epoch) && Durable(u, c.epoch, c.seqNo)
      else u.callers[id] == Errored
  {
    var c, w1 := w.callers[id], Next(w, CloseBegin(true));
    assert CallerFine(w, c);
    assert Closing(w1, id, c.seqNo, c.epoch);
    if c.epoch == w.epoch { assert OnDisk(w1, c.seqNo); }
    ClosingRun(w1, steps, v, id, c.seqNo, c.epoch);
  }

  /** The whole Close: every waiting append is told the truth, whatever happens in between, exactly when
      no waiting line of the current generation is unpublished. */
  lemma FailedCloseWhole(w: Wal)
    requires Inv(w) && Sharp(w) && Enabled(w, CloseBegin(false))
    ensures (forall id, steps, v :: Between(w, id, false, steps, v) ==> ToldTruth(v, id)) <==>
            (forall id :: Waiting(w, id) && w.callers[id].epoch == w.epoch ==> Published(w, w.callers[id].seqNo))
  {
    if forall id :: Waiting(w, id) && w.callers[id].epoch == w.epoch ==> Published(w, w.callers[id].seqNo) {
      forall id, steps, v | Between(w, id, false, steps, v) ensures ToldTruth(v, id) {
        FailedCloseExactly(w, id, steps, v);
      }
    }
    if id :| Waiting(w, id) && w.callers[id].epoch == w.epoch && !Published(w, w.callers[id].seqNo) {
      var v := Next(w, CloseBegin(false));
      assert Between(w, id, false, [], v);
      FailedCloseExactly(w, id, [], v);
    }
  }
}

/** The WAL object: every method is one hold of its mutex and performs one step of the model. */
module WalObject {
  import opened WalModel

  class WAL {
    var seqNo: nat
    var durable: nat
    var epoch: nat
    var closed: bool
    var buf: seq<nat>
    var file: File
    var open: bool
    var broken: bool
    var flusher: Flusher
    var callers: map<nat, Caller>
    var past: map<nat, File>

    ghost function State(): (w: Wal)
      reads this
    {
      Wal(seqNo, durable, epoch, closed, buf, file, open, broken, flusher, callers, past)
    }

    constructor (last: nat, lines: seq<nat>)
      ensures State() == Opened(last, lines)
    {
      seqNo, durable, epoch, closed := last, last, 0, false;
      buf, file, open, broken := [], File(lines, |lines|), true, false;
      flusher, callers, past := Idle, map[], map[];
    }

    /** The wait loop of Append: park again or return. */
    method Recheck(id: nat, q: nat, myEpoch: nat)
      modifies this`callers
      ensures callers == old(callers)[id := WalModel.Recheck(old(State()), Woken(q, myEpoch))]
    {
      if durable < q && !closed && epoch == myEpoch {
        callers := callers[id := Parked(q, myEpoch)];
      } else if epoch != myEpoch {
        callers := callers[id := Errored];
      } else if closed && durable < q {
        callers := callers[id := Errored];
      } else {
        callers := callers[id := Succeeded(q, myEpoch)];
      }
    }

    /** Append in batch mode, up to its first wait. */
    method Append(id: nat)
      requires id !in callers && !broken
      modifies this
      ensures State() == Next(old(State()), AppendBatched(id))
    {
      seqNo := seqNo + 1;
      buf := buf + [seqNo];
      Recheck(id, seqNo, epoch);
    }

    method Wake(id: nat)
      requires id in callers && callers[id].Woken?
      modifies this
      ensures State() == Next(old(State()), WalModel.Wake(id))
    {
      Recheck(id, callers[id].seqNo, callers[id].epoch);
    }

    /** flushOnce up to its fsync. */
    method FlushBegin(flushed: bool)
      requires flusher.Idle? && (flushed ==> CanFlush(State()))
      modifies this
      ensures old(seqNo) <= old(durable) || old(closed) ==> State() == old(State())
      ensures old(seqNo) > old(durable) && !old(closed) ==> State() == Next(old(State()), WalModel.FlushBegin(flushed))
    {
      var pending := seqNo;
      if pending <= durable || closed { return; }
      if !flushed {
        broken := true;
        return;
      }
      file, buf := File(file.lines + buf, file.synced), [];
      flusher := Syncing(pending, epoch, |file.lines|);
    }

    /** flushOnce after its fsync succeeded. */
    method Publish()
      requires flusher.Synced?
      modifies this
      ensures State() == Next(old(State()), WalModel.Publish)
    {
      var f := flusher;
      flusher := Idle;
      if epoch != f.epoch || closed { return; }
      if f.pending > durable {
        durable := f.pending;
        callers := Broadcast(callers);
      }
    }

    method Truncate()
      requires !broken && open
      modifies this
      ensures State() == Next(old(State()), TruncateOk)
    {
      file, buf := File(file.lines + buf, file.synced), [];
      past := past[epoch := file];
      file := File([], 0);
      seqNo, durable, epoch := 0, 0, epoch + 1;
      callers := Broadcast(callers);
    }

    /** Close up to the wait for the flusher. */
    method CloseBegin(synced: bool)
      requires synced ==> !broken && open
      modifies this
      ensures old(closed) ==> State() == old(State())
      ensures !old(closed) ==> State() == Next(old(State()), WalModel.CloseBegin(synced))
    {
      if closed { return; }
      closed := true;
      if synced {
        file, buf := File(file.lines + buf, |file.lines + buf|), [];
      }
      if seqNo > durable { durable := seqNo; }
      callers := Broadcast(callers);
    }
  }
}
