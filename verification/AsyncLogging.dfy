/** The logging object (muduo/base/AsyncLogging.cc) and its fixed-size buffers (muduo/base/LogStream.h). Its methods
    perform the steps of AsyncLogs. */
module AsyncLoggings {

  import opened Common
  import opened AsyncLogs

  function Bytes(b: Buf): (s: seq<char>)
    ensures |s| == Length(b)
  {
    if b == [] then [] else Bytes(b[..|b| - 1]) + b[|b| - 1]
  }

  lemma BytesSnoc(b: Buf, line: Line)
    ensures Bytes(b + [line]) == Bytes(b) + line
  {
    assert (b + [line])[..|b|] == b;
  }

  class FixedBuffer {
    const data: array<char>
    var cur: nat
    ghost var lines: Buf

    /** The bytes written are the lines one after the other; there is always room for one more byte. */
    ghost predicate Valid()
      reads this, data
    {
      data.Length == SIZE && cur < SIZE && data[..cur] == Bytes(lines)
    }

    constructor ()
      ensures Valid() && lines == [] && fresh(data)
    {
      data := new char[SIZE](_ => '\0');
      cur, lines := 0, [];
    }

    function Avail(): nat
      requires cur <= data.Length
      reads this
    {
      data.Length - cur
    }

    method Append(buf: Line)
      requires Valid()
      modifies this, data
      ensures Valid() && lines == BufAppend(old(lines), buf)
    {
      if Avail() > |buf| {
        forall i | 0 <= i < |buf| {
          data[cur + i] := buf[i];
        }
        BytesSnoc(lines, buf);
        cur := cur + |buf|;
        lines := lines + [buf];
        assert data[..cur] == old(data[..cur]) + buf;
      }
    }

    method Reset()
      requires Valid()
      modifies this
      ensures Valid() && lines == []
    {
      cur, lines := 0, [];
    }
  }

  /** Each buffer has one owner at a time, so an owner is represented by what its buffer holds. */
  class AsyncLogging {
    var currentBuffer: Buf
    var nextBuffer: Option<Buf>
    var buffers: seq<Buf>

    // of the back-end thread
    var newBuffer1: Option<Buf>
    var newBuffer2: Option<Buf>
    var buffersToWrite: seq<Buf>
    var running: bool
    ghost var pc: Pc
    ghost var file: seq<Item>

    ghost var appended: seq<Line>
    ghost var batches: seq<seq<Buf>>

    ghost function View(): Log
      reads this
    {
      Log(currentBuffer, nextBuffer, buffers, newBuffer1, newBuffer2, buffersToWrite, pc, running, file, appended,
        batches, false)
    }

    constructor ()
      ensures View() == INIT && Inv(View())
    {
      currentBuffer, nextBuffer, newBuffer1, newBuffer2 := [], Some([]), Some([]), Some([]);
      buffers, buffersToWrite, running := [], [], true;
      pc, file, appended, batches := Head, [], [], [];
    }

    method Append(logline: Line)
      requires Inv(View())
      modifies this
      ensures View() == Apply(old(View()), AppendLine(logline)) && Inv(View())
    {
      hide Inv;
      Going(View());
      ApplyInv(View(), AppendLine(logline));
      appended := appended + [logline];
      if SIZE - Length(currentBuffer) > |logline| {
        currentBuffer := BufAppend(currentBuffer, logline);
      } else {
        buffers := buffers + [currentBuffer];
        if nextBuffer.Some? {
          currentBuffer := nextBuffer.value;
          nextBuffer := None;
        } else {
          currentBuffer := [];
        }
        currentBuffer := BufAppend(currentBuffer, logline);
      }
    }

    /** The critical section of the back-end thread. */
    method CollectBuffers()
      requires Inv(View()) && pc == Waiting
      modifies this
      ensures View() == Apply(old(View()), CollectBatch) && Inv(View()) && buffersToWrite != []
      ensures pc == Collected && buffers == [] && currentBuffer == [] &&
              batches == old(batches) + [old(buffers) + [old(currentBuffer)]]
    {
      hide Inv, RenderAll;
      Ready(View());
      ApplyInv(View(), CollectBatch);
      ghost var batch := buffers + [currentBuffer];
      buffers := buffers + [currentBuffer];
      currentBuffer, newBuffer1 := newBuffer1.value, None;
      buffersToWrite, buffers := buffers, buffersToWrite;
      if nextBuffer.None? {
        nextBuffer, newBuffer2 := newBuffer2, None;
      }
      pc, batches := Collected, batches + [batch];
    }

    method DropExcess()
      requires Inv(View()) && pc == Collected
      modifies this`file, this`buffersToWrite, this`pc
      ensures View() == Apply(old(View()), AsyncLogs.DropExcess) && Inv(View()) && pc == Writing(0)
    {
      hide Inv;
      Going(View());
      AssertionsHold(View(), AsyncLogs.DropExcess);
      ApplyInv(View(), AsyncLogs.DropExcess);
      if |buffersToWrite| > MAX_BATCH {
        file := file + [Notice(|buffersToWrite| - 2)];
        buffersToWrite := buffersToWrite[..2];
      }
      pc := Writing(0);
    }

    method WriteBuffers()
      requires Inv(View()) && pc == Writing(0)
      modifies this`file, this`pc
      ensures Inv(View()) && pc == Writing(|buffersToWrite|)
      ensures file == old(file) + Texts(Flatten(buffersToWrite))
    {
      hide Inv, Texts;
      assert buffersToWrite[..0] == [] && Texts([]) == [];
      assert Texts(Flatten(buffersToWrite[..0])) == [];
      hide Flatten;
      for i := 0 to |buffersToWrite|
        invariant Inv(View()) && pc == Writing(i)
        invariant file == old(file) + Texts(Flatten(buffersToWrite[..i]))
      {
        WriteInv(View());
        assert buffersToWrite[..i + 1] == buffersToWrite[..i] + [buffersToWrite[i]];
        FlattenSnoc(buffersToWrite[..i], buffersToWrite[i]);
        TextsConcat(Flatten(buffersToWrite[..i]), buffersToWrite[i]);
        file := file + Texts(buffersToWrite[i]);
        pc := Writing(i + 1);
      }
      assert buffersToWrite[..|buffersToWrite|] == buffersToWrite;
    }

    method RecycleBuffers()
      requires Inv(View()) && pc == Writing(|buffersToWrite|)
      modifies this`newBuffer1, this`newBuffer2, this`buffersToWrite, this`pc
      ensures View() == Apply(old(View()), RecycleSpares) && Inv(View()) && pc == Head
    {
      hide Inv;
      Going(View());
      AssertionsHold(View(), RecycleSpares);
      ApplyInv(View(), RecycleSpares);
      if |buffersToWrite| > 2 {
        buffersToWrite := buffersToWrite[..2];
      }
      if newBuffer1.None? {
        buffersToWrite := buffersToWrite[..|buffersToWrite| - 1];
        newBuffer1 := Some([]);
      }
      if newBuffer2.None? {
        buffersToWrite := buffersToWrite[..|buffersToWrite| - 1];
        newBuffer2 := Some([]);
      }
      buffersToWrite := [];
      pc := Head;
    }

    /** The head of the loop, with its assertions. */
    method BeginRound()
      requires Inv(View()) && pc == Head && running
      modifies this`pc
      ensures View() == Apply(old(View()), TestRunning) && Inv(View()) && pc == Waiting
    {
      hide Inv, RenderAll;
      Ready(View());
      ApplyInv(View(), TestRunning);
      assert newBuffer1 == Some([]) && newBuffer2 == Some([]) && buffersToWrite == [];
      pc := Waiting;
    }

    /** What front-end threads append meanwhile. */
    method AppendAll(lines: seq<Line>)
      requires Inv(View())
      modifies this
      ensures Inv(View()) && pc == old(pc) && file == old(file) && batches == old(batches) &&
              buffersToWrite == old(buffersToWrite)
      ensures Flatten(buffers) + currentBuffer == Flatten(old(buffers)) + old(currentBuffer) + Retained(lines)
    {
      hide Inv, Flatten, Retained, AsyncLogs.Append;
      ghost var before := Flatten(buffers) + currentBuffer;
      assert Retained(lines[..0]) == [] by { NoLines(); }
      for i := 0 to |lines|
        invariant Inv(View()) && pc == old(pc) && file == old(file) && batches == old(batches) &&
                  buffersToWrite == old(buffersToWrite)
        invariant Flatten(buffers) + currentBuffer == before + Retained(lines[..i])
      {
        KeptIffShort(View(), lines[i]);
        AppendFrame(View(), lines[i]);
        RetainedSnoc(lines[..i], lines[i]);
        assert lines[..i + 1] == lines[..i] + [lines[i]];
        Append(lines[i]);
      }
      assert lines[..|lines|] == lines;
    }

    /** One round of the back-end thread, with lines appended while it waits and while it writes: exactly what was in
        the buffers and came while it waited is written, unless there was too much of it; the rest is in the buffers. */
    method Round(whileWaiting: seq<Line>, whileWriting: seq<Line>) returns (ghost batch: seq<Buf>)
      requires Inv(View()) && pc == Head && running
      modifies this
      ensures Inv(View()) && pc == Head
      ensures Flatten(batch) == Flatten(old(buffers)) + old(currentBuffer) + Retained(whileWaiting)
      ensures file == old(file) + Render(batch)
      ensures Flatten(buffers) + currentBuffer == Retained(whileWriting)
    {
      hide Inv, Apply, Render, RenderAll, Retained;
      Ready(View());
      BeginRound();
      AppendAll(whileWaiting);
      batch := buffers + [currentBuffer];
      FlattenSnoc(buffers, currentBuffer);
      CollectBuffers();
      assert Flatten([]) == [];
      hide Flatten;
      DropExcess();
      AppendAll(whileWriting);
      assert [] + [] + Retained(whileWriting) == Retained(whileWriting);
      WriteBuffers();
      RecycleBuffers();
      Ready(View());
      BatchSnoc(old(batches), batch);
    }

    method StopLogging()
      modifies this`running
      ensures View() == old(View()).(running := false)
    {
      running := false;
    }
  }

  lemma NoLines()
    ensures Retained([]) == []
  {
  }

  lemma AppendFrame(s: Log, line: Line)
    requires Inv(s)
    ensures Apply(s, AppendLine(line)) == AsyncLogs.Append(s, line)
    ensures var s' := AsyncLogs.Append(s, line);
            s'.pc == s.pc && s'.file == s.file && s'.batches == s.batches && s'.toWrite == s.toWrite
  {
    hide Stream, Filed;
  }

  lemma Ready(s: Log)
    requires Inv(s) && (s.pc == Head || s.pc == Waiting)
    ensures s.spare1 == Some([]) && s.spare2 == Some([]) && s.toWrite == [] && !s.failed &&
            s.file == RenderAll(s.batches)
  {
    hide Stream, RenderAll, Flatten, Texts;
  }

  lemma Going(s: Log)
    requires Inv(s)
    ensures !s.failed && (s.pc.Writing? ==> s.spare1.None? && (s.spare2.Some? ==> s.spare2.value == []))
  {
    hide Stream, Filed;
  }
}
