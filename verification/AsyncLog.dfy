/** Asynchronous logging (muduo/base/AsyncLogging.cc): front-end threads append lines to the current buffer under a
    mutex, a back-end thread collects the full buffers and writes them to the file. Two spare buffers on each side keep
    allocation out of the way; when too many buffers pile up, all but two are dropped.

    Here are the critical sections and back-end actions as functions on values, and what holds in every run; the class
    that performs them is in AsyncLogging.dfy. A buffer is the sequence of lines in it. */
module AsyncLogs {

  import opened Common

  type Line = seq<char>
  type Buf = seq<Line>

  const SIZE: nat := 4000 * 1000

  /** What the file receives: lines, and notices that buffers were dropped. */
  datatype Item = Text(line: Line) | Notice(dropped: nat)

  /** Where the back-end thread is. */
  datatype Pc =
    | Head                     // about to test running_
    | Waiting                  // past the test, not yet past the critical section
    | Collected
    | Writing(k: nat)
    | Exited

  datatype Log = Log(
    current: Buf,
    next: Option<Buf>,
    buffers: seq<Buf>,
    spare1: Option<Buf>,       // newBuffer1
    spare2: Option<Buf>,       // newBuffer2
    toWrite: seq<Buf>,
    pc: Pc,
    running: bool,
    file: seq<Item>,
    appended: seq<Line>,       // every line given to append, in the order of the lock
    batches: seq<seq<Buf>>,    // every batch collected
    failed: bool)              // an assertion of the source has failed

  const INIT := Log([], Some([]), [], Some([]), Some([]), [], Head, true, [], [], [], false)

  // ----- Operations -----

  function Length(b: Buf): nat {
    if b == [] then 0 else Length(b[..|b| - 1]) + |b[|b| - 1]|
  }

  /** FixedBuffer::append: kept only if strictly less than the room left. */
  function BufAppend(b: Buf, line: Line): Buf {
    if SIZE - Length(b) > |line| then b + [line] else b
  }

  function Append(s: Log, line: Line): Log {
    var s' := s.(appended := s.appended + [line]);
    if SIZE - Length(s.current) > |line| then s'.(current := s.current + [line])
    else
      var blank := match s.next case Some(b) => b case None => [];
      s'.(buffers := s.buffers + [s.current], next := None, current := BufAppend(blank, line))
  }

  /** The back-end's critical section: the current buffer joins the others, all are taken, the spares fill the gaps. */
  function Collect(s: Log): Log
    requires s.spare1.Some?
  {
    var batch := s.buffers + [s.current];
    var s' := s.(pc := Collected, toWrite := batch, buffers := [], current := s.spare1.value, spare1 := None,
      batches := s.batches + [batch]);
    if s.next.None? then s'.(next := s.spare2, spare2 := None) else s'
  }

  const MAX_BATCH := 25

  function Drop(s: Log): Log {
    var s' := s.(pc := Writing(0));
    if |s.toWrite| > MAX_BATCH then s'.(file := s.file + [Notice(|s.toWrite| - 2)], toWrite := s.toWrite[..2]) else s'
  }

  function Texts(b: Buf): (t: seq<Item>)
    ensures |t| == |b|
  {
    seq(|b|, i requires 0 <= i < |b| => Text(b[i]))
  }

  function WriteNext(s: Log): Log
    requires s.pc.Writing? && s.pc.k < |s.toWrite|
  {
    s.(pc := Writing(s.pc.k + 1), file := s.file + Texts(s.toWrite[s.pc.k]))
  }

  /** Two written buffers are emptied and become the spares again. */
  function Recycle(s: Log): Log
    requires |s.toWrite| >= (if s.spare1.None? then 1 else 0) + (if s.spare2.None? then 1 else 0)
  {
    s.(pc := Head, toWrite := [], spare1 := Some(if s.spare1.None? then [] else s.spare1.value),
       spare2 := Some(if s.spare2.None? then [] else s.spare2.value))
  }

  // ----- Steps -----

  datatype Step =
    | AppendLine(line: Line)   // in a front-end thread
    | TestRunning              // running_ is set: another round
    | CollectBatch             // after the wait, signalled or not
    | DropExcess
    | WriteBuffer
    | RecycleSpares
    | Stop
    | Exit

  predicate Enabled(s: Log, step: Step) {
    match step
    case AppendLine(_) => true
    case TestRunning => s.pc == Head && s.running
    case CollectBatch => s.pc == Waiting
    case DropExcess => s.pc == Collected
    case WriteBuffer => s.pc.Writing? && s.pc.k < |s.toWrite|
    case RecycleSpares => s.pc.Writing? && s.pc.k >= |s.toWrite|
    case Stop => true
    case Exit => s.pc == Head && !s.running
  }

  /** What the source asserts where the back-end thread acts: at the head of its loop both spares are there and empty
      and nothing is left to write; the batch is never empty; a buffer is there for each missing spare. */
  predicate Asserted(s: Log, step: Step) {
    match step
    case TestRunning => s.spare1 == Some([]) && s.spare2 == Some([]) && s.toWrite == []
    case CollectBatch => s.spare1.Some?
    case DropExcess => s.toWrite != []
    case RecycleSpares => |s.toWrite| >= (if s.spare1.None? then 1 else 0) + (if s.spare2.None? then 1 else 0)
    case _ => true
  }

  function Apply(s: Log, step: Step): Log {
    if s.failed || !Enabled(s, step) then s
    else if !Asserted(s, step) then s.(failed := true)
    else match step
      case AppendLine(line) => Append(s, line)
      case TestRunning => s.(pc := Waiting)
      case CollectBatch => Collect(s)
      case DropExcess => Drop(s)
      case WriteBuffer => WriteNext(s)
      case RecycleSpares => Recycle(s)
      case Stop => s.(running := false)
      case Exit => s.(pc := Exited)
  }

  function Exec(s: Log, steps: seq<Step>): Log
    decreases |steps|
  {
    if steps == [] then s else Exec(Apply(s, steps[0]), steps[1..])
  }

  // ----- The reference: what the file should hold -----

  function Flatten(bs: seq<Buf>): seq<Line> {
    if bs == [] then [] else Flatten(bs[..|bs| - 1]) + bs[|bs| - 1]
  }

  /** The lines short enough to be kept. */
  function Retained(lines: seq<Line>): seq<Line> {
    if lines == [] then []
    else Retained(lines[..|lines| - 1]) + (if |lines[|lines| - 1]| < SIZE then [lines[|lines| - 1]] else [])
  }

  function Lines(batches: seq<seq<Buf>>): seq<Line> {
    if batches == [] then [] else Lines(batches[..|batches| - 1]) + Flatten(batches[|batches| - 1])
  }

  /** A batch in the file: all its lines, or a notice and the lines of its first two buffers. */
  function Render(batch: seq<Buf>): seq<Item> {
    if |batch| > 25 then [Notice(|batch| - 2)] + Texts(Flatten(batch[..2])) else Texts(Flatten(batch))
  }

  function RenderAll(batches: seq<seq<Buf>>): seq<Item> {
    if batches == [] then [] else RenderAll(batches[..|batches| - 1]) + Render(batches[|batches| - 1])
  }

  // ----- The invariant -----

  /** Batches, full buffers and the current buffer are the stream of retained lines. */
  predicate Stream(batches: seq<seq<Buf>>, buffers: seq<Buf>, current: Buf, appended: seq<Line>) {
    Lines(batches) + Flatten(buffers) + current == Retained(appended)
  }

  /** The file holds the batches as they should be rendered, up to where the back-end thread is. */
  predicate Filed(pc: Pc, toWrite: seq<Buf>, file: seq<Item>, batches: seq<seq<Buf>>) {
    match pc
    case Collected => batches != [] && toWrite == batches[|batches| - 1] && file == RenderAll(batches[..|batches| - 1])
    case Writing(k) => k <= |toWrite| && file + Texts(Flatten(toWrite[k..])) == RenderAll(batches)
    case _ => toWrite == [] && file == RenderAll(batches)
  }

  /** A missing next buffer means that a full buffer is waiting, so there is always enough to refill the spares. */
  predicate Spares(s: Log) {
    && (s.next.Some? ==> s.next.value == [])
    && (s.next.None? ==> s.buffers != [])
    && (s.spare1.Some? ==> s.spare1.value == [])
    && (s.spare2.Some? ==> s.spare2.value == [])
    && (s.pc == Head || s.pc == Waiting || s.pc == Exited ==> s.spare1.Some? && s.spare2.Some?)
    && (s.pc == Collected || s.pc.Writing? ==> s.spare1.None? && |s.toWrite| >= if s.spare2.None? then 2 else 1)
  }

  predicate Inv(s: Log) {
    && Stream(s.batches, s.buffers, s.current, s.appended)
    && Filed(s.pc, s.toWrite, s.file, s.batches)
    && Spares(s)
    && !s.failed
  }

  lemma FlattenSnoc(bs: seq<Buf>, b: Buf)
    ensures Flatten(bs + [b]) == Flatten(bs) + b
  {
    assert (bs + [b])[..|bs|] == bs;
  }

  lemma {:induction false} FlattenCons(bs: seq<Buf>)
    requires bs != []
    ensures Flatten(bs) == bs[0] + Flatten(bs[1..])
  {
    var n := |bs| - 1;
    assert Flatten(bs) == Flatten(bs[..n]) + bs[n];
    if n == 0 {
      assert bs[1..] == [] && bs[..0] == [] && bs[0] + [] == bs[0];
    } else {
      FlattenCons(bs[..n]);
      assert bs[1..][..n - 1] == bs[..n][1..] && bs[1..][n - 1] == bs[n];
      assert Flatten(bs[1..]) == Flatten(bs[..n][1..]) + bs[n];
      hide Flatten;
      AssociateLines(bs[0], Flatten(bs[..n][1..]), bs[n]);
    }
  }

  lemma AssociateLines(a: Buf, b: Buf, c: Buf)
    ensures a + b + c == a + (b + c)
  {
  }

  lemma RetainedSnoc(lines: seq<Line>, line: Line)
    ensures Retained(lines + [line]) == Retained(lines) + (if |line| < SIZE then [line] else [])
  {
    assert (lines + [line])[..|lines|] == lines;
  }

  lemma BatchSnoc(batches: seq<seq<Buf>>, batch: seq<Buf>)
    ensures Lines(batches + [batch]) == Lines(batches) + Flatten(batch)
    ensures RenderAll(batches + [batch]) == RenderAll(batches) + Render(batch)
  {
    assert (batches + [batch])[..|batches|] == batches;
  }

  lemma TextsConcat(a: Buf, b: Buf)
    ensures Texts(a + b) == Texts(a) + Texts(b)
  {
  }

  lemma AppendStream(batches: seq<seq<Buf>>, buffers: seq<Buf>, current: Buf, appended: seq<Line>, line: Line)
    requires Stream(batches, buffers, current, appended)
    ensures var kept := if |line| < SIZE then [line] else [];
            Stream(batches, buffers, current + kept, appended + [line]) &&
            Stream(batches, buffers + [current], kept, appended + [line])
  {
    RetainedSnoc(appended, line);
    FlattenSnoc(buffers, current);
    hide Retained, Flatten, Lines;
    var kept := if |line| < SIZE then [line] else [];
    assert Lines(batches) + Flatten(buffers) + (current + kept) == Lines(batches) + Flatten(buffers) + current + kept;
    assert Lines(batches) + (Flatten(buffers) + current) + kept == Lines(batches) + Flatten(buffers) + current + kept;
  }

  lemma AppendInv(s: Log, line: Line)
    requires Inv(s)
    ensures Inv(Append(s, line))
  {
    hide Filed, Stream;
    AppendStream(s.batches, s.buffers, s.current, s.appended, line);
    assert [] + [line] == [line] && Length([]) == 0;
  }

  lemma CollectStream(batches: seq<seq<Buf>>, buffers: seq<Buf>, current: Buf, appended: seq<Line>)
    requires Stream(batches, buffers, current, appended)
    ensures Stream(batches + [buffers + [current]], [], [], appended)
  {
    hide RenderAll, Retained;
    BatchSnoc(batches, buffers + [current]);
    FlattenSnoc(buffers, current);
    assert Flatten([]) == [];
    hide Lines, Flatten;
    assert Lines(batches) + (Flatten(buffers) + current) + [] + [] == Lines(batches) + Flatten(buffers) + current;
  }

  lemma CollectInv(s: Log)
    requires Inv(s) && s.pc == Waiting
    ensures Inv(Collect(s))
  {
    hide RenderAll, Stream;
    CollectStream(s.batches, s.buffers, s.current, s.appended);
    assert Collect(s).batches[..|s.batches|] == s.batches;
  }

  lemma DropFiled(toWrite: seq<Buf>, file: seq<Item>, batches: seq<seq<Buf>>)
    requires batches != [] && toWrite == batches[|batches| - 1] && file == RenderAll(batches[..|batches| - 1])
    ensures |toWrite| > MAX_BATCH ==>
              file + [Notice(|toWrite| - 2)] + Texts(Flatten(toWrite[..2][0..])) == RenderAll(batches)
    ensures |toWrite| <= MAX_BATCH ==> file + Texts(Flatten(toWrite[0..])) == RenderAll(batches)
  {
    hide Flatten, Texts;
    assert RenderAll(batches) == file + Render(toWrite);
    hide RenderAll;
    if |toWrite| > MAX_BATCH {
      NoticeFirst(file, toWrite);
    } else {
      assert toWrite[0..] == toWrite;
    }
  }

  lemma NoticeFirst(file: seq<Item>, toWrite: seq<Buf>)
    requires |toWrite| > MAX_BATCH
    ensures file + [Notice(|toWrite| - 2)] + Texts(Flatten(toWrite[..2][0..])) == file + Render(toWrite)
  {
    hide Flatten, Texts;
    assert toWrite[..2][0..] == toWrite[..2];
    Associate(file, [Notice(|toWrite| - 2)], Texts(Flatten(toWrite[..2])));
  }

  lemma Associate(a: seq<Item>, b: seq<Item>, c: seq<Item>)
    ensures a + b + c == a + (b + c)
  {
  }

  lemma DropInv(s: Log)
    requires Inv(s) && s.pc == Collected
    ensures Inv(Drop(s))
  {
    hide Stream, Flatten, Texts, RenderAll, Render;
    DropFiled(s.toWrite, s.file, s.batches);
  }

  lemma WriteInv(s: Log)
    requires Inv(s) && s.pc.Writing? && s.pc.k < |s.toWrite|
    ensures Inv(WriteNext(s))
  {
    hide Stream, RenderAll;
    var k := s.pc.k;
    var rest := s.toWrite[k..];
    FlattenCons(rest);
    assert rest[0] == s.toWrite[k] && rest[1..] == s.toWrite[k + 1..];
    hide Flatten;
    TextsConcat(s.toWrite[k], Flatten(s.toWrite[k + 1..]));
    hide Texts;
  }

  lemma RecycleInv(s: Log)
    requires Inv(s) && s.pc.Writing? && s.pc.k >= |s.toWrite|
    ensures Inv(Recycle(s))
  {
    hide Stream, RenderAll;
    assert s.toWrite[s.pc.k..] == [];
    assert s.file + Texts([]) == s.file;
  }

  lemma AssertionsHold(s: Log, step: Step)
    requires Inv(s) && Enabled(s, step)
    ensures Asserted(s, step)
  {
    hide Stream, RenderAll, Flatten, Texts;
  }

  lemma ApplyInv(s: Log, step: Step)
    requires Inv(s)
    ensures Inv(Apply(s, step))
  {
    hide Append, Collect, Drop, WriteNext, Recycle, Stream, RenderAll, Flatten, Texts;
    if Enabled(s, step) {
      AssertionsHold(s, step);
      match step
      case AppendLine(line) => AppendInv(s, line);
      case CollectBatch => CollectInv(s);
      case DropExcess => DropInv(s);
      case WriteBuffer => WriteInv(s);
      case RecycleSpares => RecycleInv(s);
      case _ =>
    }
  }

  lemma {:induction false} ExecInv(s: Log, steps: seq<Step>)
    requires Inv(s)
    ensures Inv(Exec(s, steps))
    decreases |steps|
  {
    hide Inv, Apply;
    if steps != [] {
      ApplyInv(s, steps[0]);
      ExecInv(Apply(s, steps[0]), steps[1..]);
    }
  }

  // ----- Every run -----

  /** What the file will still receive of the batch in hand. */
  function Owed(s: Log): seq<Item> {
    match s.pc
    case Collected => Render(s.toWrite)
    case Writing(k) => if k <= |s.toWrite| then Texts(Flatten(s.toWrite[k..])) else []
    case _ => []
  }

  /** However the threads interleave: the batches collected, the full buffers and the current buffer hold exactly the
      lines appended that are shorter than a buffer, in the order of the lock; the file and what it is owed are every
      batch, whole or, if it had more than 25 buffers, as a notice and its first two buffers; outside a round nothing is
      owed and both spares are there and empty; no assertion fails. */
  lemma EveryRun(steps: seq<Step>)
    ensures var s := Exec(INIT, steps);
            !s.failed &&
            Lines(s.batches) + Flatten(s.buffers) + s.current == Retained(s.appended) &&
            s.file + Owed(s) == RenderAll(s.batches) &&
            (s.pc == Head || s.pc == Waiting || s.pc == Exited ==>
               s.file == RenderAll(s.batches) && s.spare1 == Some([]) && s.spare2 == Some([]) && s.toWrite == []) &&
            (s.next.None? ==> s.buffers != [])
  {
    InitInv();
    ExecInv(INIT, steps);
    var s := Exec(INIT, steps);
    FiledAndOwed(s);
    hide Stream, RenderAll, Flatten, Texts, Exec, Owed;
    assert Stream(s.batches, s.buffers, s.current, s.appended);
  }

  lemma FiledAndOwed(s: Log)
    requires Filed(s.pc, s.toWrite, s.file, s.batches)
    ensures s.file + Owed(s) == RenderAll(s.batches)
  {
    if s.pc != Collected {
      hide RenderAll, Render, Texts, Flatten;
      assert s.file + [] == s.file;
    } else {
      hide Render;
    }
  }

  /** The lines of the batch in hand that are not in the file yet. */
  function InFlight(s: Log): seq<Line> {
    match s.pc
    case Collected => Flatten(s.toWrite)
    case Writing(k) => if k <= |s.toWrite| then Flatten(s.toWrite[k..]) else []
    case _ => []
  }

  /** While no batch is too large the file, what is being written, the full buffers and the current buffer together are
      the stream of retained lines, at every moment. */
  lemma NothingDropped(s: Log)
    requires Inv(s) && forall i :: 0 <= i < |s.batches| ==> |s.batches[i]| <= MAX_BATCH
    ensures s.file + Texts(InFlight(s)) + Texts(Flatten(s.buffers)) + Texts(s.current) == Texts(Retained(s.appended))
  {
    FiledAndOwed(s);
    OwedIsInFlight(s);
    SmallBatches(s.batches);
    hide Flatten, RenderAll, Lines, Retained, Filed, Spares, InFlight, Texts, Owed;
    TextsConcat(Lines(s.batches) + Flatten(s.buffers), s.current);
    TextsConcat(Lines(s.batches), Flatten(s.buffers));
  }

  lemma OwedIsInFlight(s: Log)
    requires Filed(s.pc, s.toWrite, s.file, s.batches)
    requires forall i :: 0 <= i < |s.batches| ==> |s.batches[i]| <= MAX_BATCH
    ensures Owed(s) == Texts(InFlight(s))
  {
    hide RenderAll, Flatten;
  }

  lemma {:induction false} SmallBatches(batches: seq<seq<Buf>>)
    requires forall i :: 0 <= i < |batches| ==> |batches[i]| <= MAX_BATCH
    ensures RenderAll(batches) == Texts(Lines(batches))
  {
    if batches != [] {
      var n := |batches| - 1;
      SmallBatches(batches[..n]);
      TextsConcat(Lines(batches[..n]), Flatten(batches[n]));
      hide Texts, Flatten;
    }
  }

  /** A line is kept exactly if it is shorter than a buffer, whatever the buffers hold. */
  lemma KeptIffShort(s: Log, line: Line)
    requires Inv(s)
    ensures var s' := Append(s, line);
            Flatten(s'.buffers) + s'.current == Flatten(s.buffers) + s.current + (if |line| < SIZE then [line] else [])
  {
    hide Stream, Filed;
    FlattenSnoc(s.buffers, s.current);
    hide Flatten;
  }

  /** A line goes to the current buffer if it fits strictly; otherwise that buffer is closed, and the line begins the
      next one, unless it is as long as a buffer. */
  lemma AppendExactly(s: Log, line: Line)
    requires Inv(s)
    ensures var s' := Append(s, line);
            if Length(s.current) + |line| < 4_000_000
            then s'.current == s.current + [line] && s'.buffers == s.buffers && s'.next == s.next
            else
              && s'.buffers == s.buffers + [s.current] && s'.next == None
              && s'.current == if |line| < 4_000_000 then [line] else []
  {
    hide Stream, Filed;
  }

  predicate Fits(b: Buf) {
    Length(b) < 4_000_000
  }

  predicate AllFit(s: Log) {
    Fits(s.current) && (forall b :: b in s.buffers ==> Fits(b)) && (forall b :: b in s.toWrite ==> Fits(b))
  }

  lemma LengthSnoc(b: Buf, line: Line)
    ensures Length(b + [line]) == Length(b) + |line|
  {
    assert (b + [line])[..|b|] == b;
  }

  lemma LineFits(b: Buf, line: Line)
    requires Length(b) + |line| < 4_000_000
    ensures Fits(b + [line]) && Fits([line]) && Fits([])
  {
    LengthSnoc(b, line);
    LengthSnoc([], line);
    assert [] + [line] == [line];
  }

  lemma AppendFits(s: Log, line: Line)
    requires Inv(s) && AllFit(s)
    ensures AllFit(Append(s, line))
  {
    AppendExactly(s, line);
    var s' := Append(s, line);
    assert s'.toWrite == s.toWrite;
    assert Length([]) == 0;
    hide Inv, Append, Length, Fits;
    if Length(s.current) + |line| < 4_000_000 {
      LineFits(s.current, line);
    } else {
      LineFits([], if |line| < 4_000_000 then line else "");
    }
  }

  lemma CollectFits(s: Log)
    requires Inv(s) && AllFit(s)
    ensures AllFit(Apply(s, CollectBatch))
  {
    hide Stream, Filed;
    assert s.pc == Waiting ==> s.spare1 == Some([]);
    assert Fits([]);
    hide Fits, Spares;
  }

  /** The other steps at most drop buffers from the end of the batch. */
  lemma OthersDrop(s: Log, step: Step)
    requires !step.AppendLine? && !step.CollectBatch?
    ensures var s' := Apply(s, step); s'.current == s.current && s'.buffers == s.buffers && s'.toWrite <= s.toWrite
  {
    hide Texts, Length;
  }

  lemma DropFits(s: Log, s': Log)
    requires AllFit(s) && s'.current == s.current && s'.buffers == s.buffers && s'.toWrite <= s.toWrite
    ensures AllFit(s')
  {
    hide Fits;
  }

  lemma FitStep(s: Log, step: Step)
    requires Inv(s) && AllFit(s)
    ensures AllFit(Apply(s, step))
  {
    hide Inv, AllFit, Append, Collect;
    match step
    case AppendLine(line) => AppendFits(s, line);
    case CollectBatch => CollectFits(s);
    case _ =>
      hide Apply;
      OthersDrop(s, step);
      DropFits(s, Apply(s, step));
  }

  /** No buffer ever holds as much as its size. */
  lemma {:induction false} BuffersFit(s: Log, steps: seq<Step>)
    requires Inv(s) && AllFit(s)
    ensures AllFit(Exec(s, steps))
    decreases |steps|
  {
    if steps != [] {
      FitStep(s, steps[0]);
      ApplyInv(s, steps[0]);
      hide Inv, AllFit, Apply;
      BuffersFit(Apply(s, steps[0]), steps[1..]);
    }
  }

  /** A line as long as a buffer, the first one ever appended, is in no buffer afterwards. */
  lemma LongLineIsDropped(line: Line)
    requires |line| >= SIZE
    ensures var s := Exec(INIT, [AppendLine(line)]); s.appended == [line] && Flatten(s.buffers) == [] && s.current == []
  {
    hide Inv, Append, Flatten, Retained;
    InitInv();
    KeptIffShort(INIT, line);
    LongAppend(line);
    assert |Flatten(Append(INIT, line).buffers)| + |Append(INIT, line).current| == 0;
    assert [AppendLine(line)][1..] == [];
    assert Exec(INIT, [AppendLine(line)]) == Append(INIT, line);
  }

  lemma InitInv()
    ensures Inv(INIT)
  {
  }

  lemma LongAppend(line: Line)
    ensures Apply(INIT, AppendLine(line)) == Append(INIT, line) && !Append(INIT, line).failed
    ensures Append(INIT, line).appended == [line] && Flatten(INIT.buffers) + INIT.current == []
  {
    assert [] + [line] == [line];
  }

  // ----- Stopping -----

  lemma RetainedPrefix(lines: seq<Line>, line: Line)
    ensures Retained(lines) <= Retained(lines + [line])
  {
    RetainedSnoc(lines, line);
  }

  /** Once running_ is clear, a back end that is not between its test and its collection collects nothing more. */
  lemma StoppedStep(s: Log, step: Step)
    requires Inv(s) && !s.running
    ensures var s' := Apply(s, step);
            !s'.running &&
            (s.pc != Waiting ==> s'.pc != Waiting && s'.batches == s.batches) &&
            (s.pc == Waiting ==> s'.pc == Waiting || Lines(s'.batches) == Retained(s.appended)) &&
            (s.pc == Waiting && s'.pc == Waiting ==> Retained(s.appended) <= Retained(s'.appended))
  {
    hide Lines, Retained, Inv;
    if step == CollectBatch && s.pc == Waiting {
      CollectsAll(s);
    } else if step.AppendLine? {
      RetainedPrefix(s.appended, step.line);
    }
  }

  /** A collection takes every line that is in the buffers. */
  lemma CollectsAll(s: Log)
    requires Inv(s) && s.pc == Waiting
    ensures s.spare1.Some? && !s.failed && Lines(Collect(s).batches) == Retained(s.appended)
  {
    hide Stream, RenderAll, Flatten, Lines, Retained;
    CollectStream(s.batches, s.buffers, s.current, s.appended);
    StreamDone(s.batches + [s.buffers + [s.current]], s.appended);
  }

  lemma StreamDone(batches: seq<seq<Buf>>, appended: seq<Line>)
    requires Stream(batches, [], [], appended)
    ensures Lines(batches) == Retained(appended)
  {
    hide Lines, Retained;
    assert Lines(batches) + Flatten([]) + [] == Lines(batches);
  }

  lemma {:induction false} StoppedRun(s: Log, steps: seq<Step>)
    requires Inv(s) && !s.running
    ensures var s' := Exec(s, steps);
            (s.pc != Waiting ==> s'.pc != Waiting && s'.batches == s.batches) &&
            (s.pc == Waiting ==> s'.pc == Waiting || Retained(s.appended) <= Lines(s'.batches))
    decreases |steps|
  {
    hide Inv, Apply, Lines, Retained;
    if steps != [] {
      ApplyInv(s, steps[0]);
      StoppedStep(s, steps[0]);
      StoppedRun(Apply(s, steps[0]), steps[1..]);
    }
  }

  /** Which lines stop() loses, whatever else happens until the back-end thread exits: all lines appended before the
      call have been collected, and the file holds every batch, exactly if stop() found the back end between its test of
      running_ and its collection, or found no line in the buffers. */
  lemma StopLosesExactly(s: Log, steps: seq<Step>)
    requires Inv(s) && Exec(Apply(s, Stop), steps).pc == Exited
    ensures var s' := Exec(Apply(s, Stop), steps);
            s'.file == RenderAll(s'.batches) &&
            (Retained(s.appended) <= Lines(s'.batches) <==>
              s.pc == Waiting || (Flatten(s.buffers) == [] && s.current == []))
  {
    var s0 := s.(running := false);
    assert Apply(s, Stop) == s0;
    ApplyInv(s, Stop);
    ExecInv(s0, steps);
    StoppedRun(s0, steps);
    hide Exec, Apply, Lines, Retained, Flatten, RenderAll, Texts;
    if s.pc != Waiting {
      assert Lines(s.batches) + Flatten(s.buffers) + s.current == Retained(s.appended);
      assert |Retained(s.appended)| == |Lines(s.batches)| + |Flatten(s.buffers)| + |s.current|;
      assert Lines(s.batches) + [] + [] == Lines(s.batches);
    }
  }

  /** The back end has not tested running_ again when stop() is called: the line is lost. */
  lemma LostAtStop(line: Line)
    requires |line| < SIZE
    ensures var s := Exec(INIT, [AppendLine(line), Stop, Exit]);
            s.pc == Exited && s.file == [] && Retained(s.appended) == [line]
  {
    var s1 := INIT.(current := [line], appended := [line]);
    AppendFirst(INIT, line);
    var s2 := s1.(running := false);
    assert Apply(s1, Stop) == s2;
    var s3 := s2.(pc := Exited);
    assert Apply(s2, Exit) == s3;
    RetainedSnoc([], line);
    assert [] + [line] == [line];
    hide Apply, Retained;
    var steps := [AppendLine(line), Stop, Exit];
    calc {
      Exec(INIT, steps);
      Exec(s1, steps[1..]);
      Exec(s2, steps[1..][1..]);
      Exec(s3, steps[1..][1..][1..]);
    }
  }

  lemma AppendFirst(s: Log, line: Line)
    requires !s.failed && s.current == [] && s.appended == [] && |line| < SIZE
    ensures Apply(s, AppendLine(line)) == s.(current := [line], appended := [line])
  {
    assert [] + [line] == [line] && Length([]) == 0;
  }

  /** The usual case, in which stop() finds the back end waiting: the line is written. */
  lemma WrittenAtStop(line: Line)
    requires |line| < SIZE
    ensures var s := Exec(INIT,
            [TestRunning, AppendLine(line), Stop, CollectBatch] + [DropExcess, WriteBuffer, RecycleSpares, Exit]);
            s.pc == Exited && s.file == [Text(line)]
  {
    var waiting := INIT.(pc := Waiting);
    var given := waiting.(current := [line], appended := [line]);
    var stopped := given.(running := false);
    var collected := Collect(stopped);
    assert Apply(INIT, TestRunning) == waiting;
    AppendFirst(waiting, line);
    assert Apply(given, Stop) == stopped;
    assert Apply(stopped, CollectBatch) == collected;
    assert [] + [[line]] == [[line]];
    assert collected == stopped.(pc := Collected, toWrite := [[line]], current := [], spare1 := None,
           batches := [[[line]]]);
    WriteTheLine(collected, line);
    hide Apply;
    var a, b := [TestRunning, AppendLine(line), Stop, CollectBatch], [DropExcess, WriteBuffer, RecycleSpares, Exit];
    assert (a + b)[1..][1..][1..][1..] == b;
    calc {
      Exec(INIT, a + b);
      Exec(waiting, (a + b)[1..]);
      Exec(given, (a + b)[1..][1..]);
      Exec(stopped, (a + b)[1..][1..][1..]);
      Exec(collected, (a + b)[1..][1..][1..][1..]);
    }
  }

  lemma WriteTheLine(s: Log, line: Line)
    requires s.pc == Collected && s.toWrite == [[line]] && s.file == [] && s.spare1.None? && s.spare2.Some? &&
             !s.running && !s.failed
    ensures var s' := Exec(s, [DropExcess, WriteBuffer, RecycleSpares, Exit]);
            s'.pc == Exited && s'.file == [Text(line)]
  {
    var s1 := s.(pc := Writing(0));
    assert Apply(s, DropExcess) == s1;
    assert [] + Texts([line]) == [Text(line)];
    var s2 := s1.(pc := Writing(1), file := [Text(line)]);
    assert Apply(s1, WriteBuffer) == s2;
    var s3 := Recycle(s2);
    assert Apply(s2, RecycleSpares) == s3;
    var s4 := s3.(pc := Exited);
    assert Apply(s3, Exit) == s4;
    hide Apply, Texts;
    var steps := [DropExcess, WriteBuffer, RecycleSpares, Exit];
    calc {
      Exec(s, steps);
      Exec(s1, steps[1..]);
      Exec(s2, steps[1..][1..]);
      Exec(s3, steps[1..][1..][1..]);
      Exec(s4, steps[1..][1..][1..][1..]);
    }
  }
}
