/** Whole sequences of calls on one buffer: any operations (muduo/net/Buffer.h), and the reception of a request in
    pieces (muduo/net/http/HttpContext.cc). */
module Receiving {

  import opened Common
  import opened Buffers
  import opened Http

  // ----- Any sequence of buffer operations -----

  datatype Op =
    | AppendBytes(bytes: seq<Byte>)
    | FillBytes(bytes: seq<Byte>)          // written at beginWrite(), then hasWritten
    | ReadFrom(result: ReadResult)         // readFd
    | PrependBytes(bytes: seq<Byte>)
    | RetrieveBytes(len: nat)
    | RetrieveString(len: nat)             // retrieveAsString
    | RetrieveEverything
    | UnwriteBytes(len: nat)
    | EnsureRoom(len: nat)
    | ShrinkTo(reserve: nat)
    | AppendNumber(x: int, width: nat)
    | PrependNumber(x: int, width: nat)
    | PeekNumber(width: nat)
    | ReadNumber(width: nat)

  /** What an operation returns. */
  datatype Result = Nothing | Number(x: int) | Text(bytes: seq<Byte>) | Count(n: int)

  predicate Width(n: nat) {
    n == 1 || n == 2 || n == 4 || n == 8
  }

  /** What the operation asserts of the readable bytes. */
  predicate Allowed(s: seq<Byte>, op: Op) {
    match op
    case RetrieveBytes(len) => len <= |s|
    case RetrieveString(len) => len <= |s|
    case UnwriteBytes(len) => len <= |s|
    case AppendNumber(x, width) => Width(width) && FitsSigned(x, width)
    case PrependNumber(x, width) => Width(width) && FitsSigned(x, width)
    case PeekNumber(width) => Width(width) && width <= |s|
    case ReadNumber(width) => Width(width) && width <= |s|
    case _ => true
  }

  /** What the operation does to a plain sequence of bytes. */
  function Act(s: seq<Byte>, op: Op): seq<Byte>
    requires Allowed(s, op)
  {
    match op
    case AppendBytes(bytes) => s + bytes
    case FillBytes(bytes) => s + bytes
    case ReadFrom(result) => if result.ReadBytes? then s + result.bytes else s
    case PrependBytes(bytes) => bytes + s
    case RetrieveBytes(len) => s[len..]
    case RetrieveString(len) => s[len..]
    case RetrieveEverything => []
    case UnwriteBytes(len) => s[..|s| - len]
    case EnsureRoom(_) => s
    case ShrinkTo(_) => s
    case AppendNumber(x, width) => s + ToNetwork(x, width)
    case PrependNumber(x, width) => ToNetwork(x, width) + s
    case PeekNumber(_) => s
    case ReadNumber(width) => s[width..]
  }

  /** What it returns, given these bytes. */
  function Yield(s: seq<Byte>, op: Op): Result
    requires Allowed(s, op)
  {
    match op
    case RetrieveString(len) => Text(s[..len])
    case PeekNumber(width) => Number(FromNetwork(s[..width]))
    case ReadNumber(width) => Number(FromNetwork(s[..width]))
    case ReadFrom(result) => Count(if result.ReadBytes? then |result.bytes| else -1)
    case _ => Nothing
  }

  predicate AllAllowed(s: seq<Byte>, ops: seq<Op>)
    decreases |ops|
  {
    ops != [] ==> Allowed(s, ops[0]) && AllAllowed(Act(s, ops[0]), ops[1..])
  }

  function ActAll(s: seq<Byte>, ops: seq<Op>): seq<Byte>
    requires AllAllowed(s, ops)
    decreases |ops|
  {
    if ops == [] then s else ActAll(Act(s, ops[0]), ops[1..])
  }

  function YieldAll(s: seq<Byte>, ops: seq<Op>): seq<Result>
    requires AllAllowed(s, ops)
    decreases |ops|
  {
    if ops == [] then [] else [Yield(s, ops[0])] + YieldAll(Act(s, ops[0]), ops[1..])
  }

  /** Three operations also depend on the room that there is: what is prepended must fit before the readable bytes and
      what is filled in after them; and readv delivers no more than its two segments hold. */
  predicate Fits(prependable: nat, writable: nat, op: Op) {
    match op
    case PrependBytes(bytes) => |bytes| <= prependable
    case PrependNumber(_, width) => width <= prependable
    case FillBytes(bytes) => |bytes| <= writable
    case ReadFrom(result) =>
      result.ReadBytes? ==> |result.bytes| <= writable + (if writable < EXTRA_BUF then EXTRA_BUF else 0)
    case _ => true
  }

  method Perform(b: Buffer, op: Op) returns (result: Result)
    requires b.Valid() && Allowed(b.Readable(), op) && Fits(b.PrependableBytes(), b.WritableBytes(), op)
    modifies b
    ensures b.Valid() && b.Readable() == Act(old(b.Readable()), op) && result == Yield(old(b.Readable()), op)
  {
    result := Nothing;
    match op
    case AppendBytes(bytes) => b.Append(bytes);
    case FillBytes(bytes) => b.Fill(bytes);
    case ReadFrom(r) => result := PerformRead(b, r);
    case PrependBytes(bytes) => b.Prepend(bytes);
    case RetrieveBytes(len) => b.Retrieve(len);
    case RetrieveString(len) => var s := b.RetrieveAsString(len); result := Text(s);
    case RetrieveEverything => b.RetrieveAll();
    case UnwriteBytes(len) => b.Unwrite(len);
    case EnsureRoom(len) => b.EnsureWritableBytes(len);
    case ShrinkTo(reserve) => b.Shrink(reserve);
    case AppendNumber(x, width) => b.AppendInt(x, width);
    case PrependNumber(x, width) => b.PrependInt(x, width);
    case PeekNumber(width) => var x := b.PeekInt(width); result := Number(x);
    case ReadNumber(width) => var x := b.ReadInt(width); result := Number(x);
  }

  method PerformRead(b: Buffer, r: ReadResult) returns (result: Result)
    requires b.Valid() && Fits(b.PrependableBytes(), b.WritableBytes(), ReadFrom(r))
    modifies b
    ensures b.Valid() && b.Readable() == Act(old(b.Readable()), ReadFrom(r)) &&
            result == Yield(old(b.Readable()), ReadFrom(r))
  {
    var n, _ := b.ReadFd(r);
    result := Count(n);
  }

  /** Any operations in any order act on the readable bytes, and return, as on a plain sequence. The run stops early
      only before an operation for which there is not the room it asks for. */
  method PerformAll(b: Buffer, ops: seq<Op>) returns (done: nat, results: seq<Result>)
    requires b.Valid() && AllAllowed(b.Readable(), ops)
    modifies b
    ensures b.Valid() && done <= |ops| && AllAllowed(old(b.Readable()), ops[..done])
    ensures b.Readable() == ActAll(old(b.Readable()), ops[..done]) &&
            results == YieldAll(old(b.Readable()), ops[..done])
    ensures done < |ops| ==> !Fits(b.PrependableBytes(), b.WritableBytes(), ops[done])
  {
    hide Act, Allowed, Fits, Yield;
    done, results := 0, [];
    ghost var start := b.Readable();
    while done < |ops|
      invariant b.Valid() && done <= |ops| && AllAllowed(b.Readable(), ops[done..])
      invariant AllAllowed(start, ops[..done]) && b.Readable() == ActAll(start, ops[..done])
      invariant results == YieldAll(start, ops[..done])
    {
      var op := ops[done];
      assert ops[done..][0] == op && ops[done..][1..] == ops[done + 1..];
      if !Fits(b.PrependableBytes(), b.WritableBytes(), op) {
        return;
      }
      Snoc(start, ops[..done], op);
      assert ops[..done + 1] == ops[..done] + [op];
      var result := Perform(b, op);
      results := results + [result];
      done := done + 1;
    }
  }

  lemma {:induction false} Snoc(s: seq<Byte>, ops: seq<Op>, op: Op)
    requires AllAllowed(s, ops) && Allowed(ActAll(s, ops), op)
    ensures AllAllowed(s, ops + [op]) && ActAll(s, ops + [op]) == Act(ActAll(s, ops), op)
    ensures YieldAll(s, ops + [op]) == YieldAll(s, ops) + [Yield(ActAll(s, ops), op)]
    decreases |ops|
  {
    hide Act, Allowed, Yield;
    if ops == [] {
      assert ([] + [op])[0] == op && ([] + [op])[1..] == [];
    } else {
      assert (ops + [op])[1..] == ops[1..] + [op];
      Snoc(Act(s, ops[0]), ops[1..], op);
    }
  }

  // ----- A request in pieces -----

  /** Appending piece after piece to the buffer and parsing after each, until an error or a complete request, gives
      what parsing all the bytes at once gives, and leaves the same bytes unread. */
  method Receive(context: HttpContext, buf: Buffer, chunks: seq<seq<Byte>>, receiveTime: int)
    returns (ok: bool, used: nat)
    requires buf.Valid() && buf.Readable() == [] && context.View() == START
    modifies context, context.request, buf
    ensures buf.Valid() && used <= |chunks|
    ensures Outcome(ok, context.View(), buf.Readable() + Concat(chunks[used..])) == Parse(START, Concat(chunks))
    ensures ok && context.state != GotAll ==> used == |chunks|
  {
    FeedIsParse(START, "", chunks);
    assert "" + Concat(chunks) == Concat(chunks);
    ok, used := true, 0;
    assert chunks[0..] == chunks;
    hide Parse, Feed, Concat;
    while used < |chunks|
      invariant buf.Valid() && used <= |chunks| && ok && Expecting(context.View())
      invariant context.state == ExpectRequestLine ==> context.request.verb == Invalid
      invariant Feed(context.View(), buf.Readable(), chunks[used..]) == Parse(START, Concat(chunks))
    {
      ghost var c, bytes := context.View(), buf.Readable() + chunks[used];
      assert chunks[used..][0] == chunks[used] && chunks[used..][1..] == chunks[used + 1..];
      FeedOne(c, buf.Readable(), chunks[used..]);
      buf.Append(chunks[used]);
      ok := context.ParseRequest(buf, receiveTime);
      used := used + 1;
      if !ok || context.state == GotAll {
        return;
      }
      ParseKeepsExpecting(c, bytes);
      StillAtRequestLine(c, bytes);
    }
    FeedNone(context.View(), buf.Readable());
  }

  lemma FeedOne(c: Context, unread: string, chunks: seq<string>)
    requires Expecting(c) && chunks != []
    ensures var o := Parse(c, unread + chunks[0]);
            Feed(c, unread, chunks) == if Finished(o) then o.(rest := o.rest + Concat(chunks[1..]))
                                       else (ParseKeepsExpecting(c, unread + chunks[0]);
                                         Feed(o.context, o.rest, chunks[1..]))
  {
    hide Parse;
  }

  lemma FeedNone(c: Context, unread: string)
    requires Expecting(c)
    ensures Feed(c, unread, []) == Outcome(true, c, unread + Concat([]))
  {
    assert unread + "" == unread;
  }

  lemma {:induction false} StillAtRequestLine(c: Context, bytes: string)
    requires Expecting(c)
    ensures var o := Parse(c, bytes); o.ok && o.context.state == ExpectRequestLine ==> o.context == c
    ensures c.state == ExpectHeaders ==> Parse(c, bytes).context.state != ExpectRequestLine
    decreases |bytes|
  {
    hide RequestLine, AddHeader;
    match FindCRLF(bytes, 0)
    case None =>
    case Some(crlf) =>
      var line, rest := bytes[..crlf], bytes[crlf + 2..];
      if c.state == ExpectRequestLine {
        var (ok, r) := RequestLine(c.request, line);
        StillAtRequestLine(Context(ExpectHeaders, r), rest);
      } else {
        var colon := Find(line, ':', 0);
        if colon != |line| {
          StillAtRequestLine(c.(request := AddHeader(c.request, line, colon)), rest);
        }
      }
  }
}
