/** Cutting the core's stdout into lines, whatever chunks the pipe delivers. */
module JsonlFraming {
  import opened Common

  const NEWLINE: Byte := 10

  /** Position of the first newline, or the length if there is none. */
  function IndexOfNewline(bytes: seq<Byte>): (n: nat)
    ensures n <= |bytes|
  {
    if bytes == [] || bytes[0] == NEWLINE then 0 else 1 + IndexOfNewline(bytes[1..])
  }

  lemma {:induction false} IndexIsFirstNewline(bytes: seq<Byte>)
    ensures NEWLINE !in bytes[..IndexOfNewline(bytes)]
    ensures IndexOfNewline(bytes) < |bytes| <==> NEWLINE in bytes
    ensures IndexOfNewline(bytes) < |bytes| ==> bytes[IndexOfNewline(bytes)] == NEWLINE
  {
    if bytes != [] && bytes[0] != NEWLINE {
      var n := IndexOfNewline(bytes);
      IndexIsFirstNewline(bytes[1..]);
      assert bytes[..n] == [bytes[0]] + bytes[1..][..n - 1];
      assert bytes == [bytes[0]] + bytes[1..];
    }
  }

  // ---- Reference: the newline-split stream ----

  /** The terminated lines of a byte stream, without their newlines. */
  function Terminated(bytes: seq<Byte>): seq<seq<Byte>> {
    var n := IndexOfNewline(bytes);
    if n == |bytes| then [] else [bytes[..n]] + Terminated(bytes[n + 1..])
  }

  /** What follows the last newline. */
  function Trailing(bytes: seq<Byte>): seq<Byte> {
    var n := IndexOfNewline(bytes);
    if n == |bytes| then bytes else Trailing(bytes[n + 1..])
  }

  /** Terminated lines and a partial put back together. */
  function Rejoin(lines: seq<seq<Byte>>, partial: seq<Byte>): seq<Byte> {
    if lines == [] then partial else lines[0] + [NEWLINE] + Rejoin(lines[1..], partial)
  }

  lemma SplitOffLine(bytes: seq<Byte>)
    requires IndexOfNewline(bytes) < |bytes|
    ensures var n := IndexOfNewline(bytes);
            Terminated(bytes) == [bytes[..n]] + Terminated(bytes[n + 1..]) && Trailing(bytes) == Trailing(bytes[n + 1..])
  {
    hide IndexOfNewline;
  }

  lemma BothEndTogether(bytes: seq<Byte>)
    ensures IndexOfNewline(bytes) == |bytes| ==> Terminated(bytes) == [] && Trailing(bytes) == bytes
  {
    hide IndexOfNewline;
  }

  lemma CutAt(bytes: seq<Byte>, n: nat)
    requires n < |bytes|
    ensures bytes == bytes[..n] + [bytes[n]] + bytes[n + 1..]
  {}

  /** The reference split is the right one: it loses nothing and no piece holds a newline. */
  lemma {:induction false} SplitIsFaithful(bytes: seq<Byte>)
    ensures Rejoin(Terminated(bytes), Trailing(bytes)) == bytes
    decreases |bytes|
  {
    hide IndexOfNewline, Terminated, Trailing;
    BothEndTogether(bytes);
    if IndexOfNewline(bytes) < |bytes| {
      SplitOffLine(bytes);
      var n := IndexOfNewline(bytes);
      IndexIsFirstNewline(bytes);
      CutAt(bytes, n);
      var line, rest := bytes[..n], bytes[n + 1..];
      SplitIsFaithful(rest);
      assert ([line] + Terminated(rest))[1..] == Terminated(rest);
    }
  }

  lemma {:induction false} PiecesHoldNoNewline(bytes: seq<Byte>, k: nat)
    ensures NEWLINE !in Trailing(bytes)
    ensures k < |Terminated(bytes)| ==> NEWLINE !in Terminated(bytes)[k]
    decreases |bytes|
  {
    var n := IndexOfNewline(bytes);
    IndexIsFirstNewline(bytes);
    if n < |bytes| {
      PiecesHoldNoNewline(bytes[n + 1..], if k == 0 then 0 else k - 1);
    } else {
      assert bytes[..n] == bytes;
    }
  }

  /** The lines before the first one over the limit. */
  function WithinLimit(lines: seq<seq<Byte>>, limit: nat): seq<seq<Byte>> {
    if lines == [] || |lines[0]| > limit then [] else [lines[0]] + WithinLimit(lines[1..], limit)
  }

  predicate AnyOver(lines: seq<seq<Byte>>, limit: nat) {
    lines != [] && (|lines[0]| > limit || AnyOver(lines[1..], limit))
  }

  predicate OverLimit(bytes: seq<Byte>, limit: nat) {
    AnyOver(Terminated(bytes), limit) || |Trailing(bytes)| > limit
  }

  // ---- The framing loop ----

  /** What handling a buffer yields: the lines handed on, what is retained, and a fault. */
  datatype Framed = Framed(lines: seq<seq<Byte>>, rest: seq<Byte>, fault: bool)

  /** Lines handed on before what `later` yields. */
  function Handing(lines: seq<seq<Byte>>, later: Framed): Framed {
    later.(lines := lines + later.lines)
  }

  function Frame(buffer: seq<Byte>, limit: nat): Framed
    decreases |buffer|
  {
    var n := IndexOfNewline(buffer);
    if n == |buffer| then Framed([], buffer, |buffer| > limit)
    else if n > limit then Framed([], buffer, true)
    else
      Handing([buffer[..n]], Frame(buffer[n + 1..], limit))
  }

  /** Chunks arriving one after the other until the first fault. */
  function FrameChunks(retained: seq<Byte>, chunks: seq<seq<Byte>>, limit: nat): Framed
    decreases |chunks|
  {
    if chunks == [] then Framed([], retained, false)
    else
      var first := Frame(retained + chunks[0], limit);
      if first.fault then first
      else
        Handing(first.lines, FrameChunks(first.rest, chunks[1..], limit))
  }

  lemma {:induction false} IndexInPrefix(a: seq<Byte>, b: seq<Byte>)
    ensures IndexOfNewline(a) < |a| ==> IndexOfNewline(a + b) == IndexOfNewline(a)
    ensures IndexOfNewline(a) == |a| ==> IndexOfNewline(a + b) == |a| + IndexOfNewline(b)
  {
    if a == [] {
      assert a + b == b;
    } else if a[0] != NEWLINE {
      assert (a + b)[1..] == a[1..] + b;
      IndexInPrefix(a[1..], b);
    }
  }

  lemma HandingTwice(a: seq<seq<Byte>>, b: seq<seq<Byte>>, later: Framed)
    ensures Handing(a, Handing(b, later)) == Handing(a + b, later)
    ensures Handing([], later) == later
  {
    assert a + (b + later.lines) == (a + b) + later.lines;
    assert [] + later.lines == later.lines;
  }

  ghost predicate Composes(a: seq<Byte>, b: seq<Byte>, limit: nat) {
    var whole, first := Frame(a + b, limit), Frame(a, limit);
    if first.fault then whole.fault && whole.lines == first.lines
    else whole == Handing(first.lines, Frame(first.rest + b, limit))
  }

  lemma FrameLine(bytes: seq<Byte>, line: seq<Byte>, rest: seq<Byte>, limit: nat)
    requires IndexOfNewline(bytes) == |line| < |bytes| && |line| <= limit
    requires bytes[..|line|] == line && bytes[|line| + 1..] == rest
    ensures Frame(bytes, limit) == Handing([line], Frame(rest, limit))
  {}

  lemma ComposesAfterLine(a: seq<Byte>, b: seq<Byte>, limit: nat, n: nat)
    requires n == IndexOfNewline(a) == IndexOfNewline(a + b) < |a| && n <= limit
    requires Composes(a[n + 1..], b, limit)
    ensures Composes(a, b, limit)
  {
    hide IndexOfNewline, Frame;
    var line, rest := a[..n], a[n + 1..];
    FrameLine(a, line, rest, limit);
    FrameLine(a + b, line, rest + b, limit);
    var inner := Frame(rest, limit);
    HandingTwice([line], inner.lines, Frame(inner.rest + b, limit));
  }

  /** Handling a concatenation is handling the first part and then what it retained plus the rest;
      a fault in the first part is already final. */
  lemma {:induction false} FrameAppend(a: seq<Byte>, b: seq<Byte>, limit: nat)
    ensures Composes(a, b, limit)
    decreases |a|
  {
    var n := IndexOfNewline(a);
    IndexInPrefix(a, b);
    if n == |a| {
      HandingTwice([], [], Frame(a + b, limit));
    } else if n <= limit {
      FrameAppend(a[n + 1..], b, limit);
      ComposesAfterLine(a, b, limit, n);
    }
  }

  lemma {:induction false} FrameMatchesSplit(bytes: seq<Byte>, limit: nat)
    ensures Frame(bytes, limit).lines == WithinLimit(Terminated(bytes), limit)
    ensures Frame(bytes, limit).fault <==> OverLimit(bytes, limit)
    ensures !Frame(bytes, limit).fault ==> Frame(bytes, limit).rest == Trailing(bytes)
    decreases |bytes|
  {
    var n := IndexOfNewline(bytes);
    if n < |bytes| {
      var rest := bytes[n + 1..];
      FrameMatchesSplit(rest, limit);
      var lines := Terminated(bytes);
      assert lines[0] == bytes[..n] && lines[1..] == Terminated(rest);
    }
  }

  /** Framing does not depend on chunking: however the stream is cut, the lines handed on before
      the first fault are the newline-split lines before the first over-limit line, a fault occurs
      exactly when some terminated line or the trailing partial exceeds the limit, and without
      a fault the retained buffer is the trailing partial. */
  lemma {:induction false} FramingIgnoresChunking(retained: seq<Byte>, chunks: seq<seq<Byte>>, limit: nat)
    requires NEWLINE !in retained && |retained| <= limit
    ensures var framed, stream := FrameChunks(retained, chunks, limit), retained + Flatten(chunks);
            && framed.lines == WithinLimit(Terminated(stream), limit)
            && (framed.fault <==> OverLimit(stream, limit))
            && (!framed.fault ==> framed.rest == Trailing(stream) && NEWLINE !in framed.rest && |framed.rest| <= limit)
    decreases |chunks|
  {
    var stream := retained + Flatten(chunks);
    FrameMatchesSplit(stream, limit);
    PiecesHoldNoNewline(stream, 0);
    if chunks == [] {
      assert stream == retained;
      IndexIsFirstNewline(retained);
    } else {
      var head, tail := retained + chunks[0], Flatten(chunks[1..]);
      assert stream == head + tail;
      FrameAppend(head, tail, limit);
      FrameMatchesSplit(head, limit);
      PiecesHoldNoNewline(head, 0);
      var first := Frame(head, limit);
      if !first.fault {
        FramingIgnoresChunking(first.rest, chunks[1..], limit);
        FrameMatchesSplit(first.rest + tail, limit);
      }
    }
  }

  /** The receiving end of the pipe: the buffer and the loop of handleStdout. */
  class StdoutFramer {
    var buffer: seq<Byte>
    const limit: nat

    constructor (limit: nat)
      ensures buffer == [] && this.limit == limit
    {
      buffer, this.limit := [], limit;
    }

    method HandleStdout(chunk: seq<Byte>) returns (lines: seq<seq<Byte>>, fault: bool)
      modifies this
      ensures Framed(lines, buffer, fault) == Frame(old(buffer) + chunk, limit)
    {
      buffer := buffer + chunk;
      lines := [];
      while true
        invariant Frame(old(buffer) + chunk, limit) == Handing(lines, Frame(buffer, limit))
        decreases |buffer|
      {
        var newline := IndexOfNewline(buffer);
        if newline == |buffer| {
          break;
        }
        if newline > limit {
          return lines, true;
        }
        HandingTwice(lines, [buffer[..newline]], Frame(buffer[newline + 1..], limit));
        lines := lines + [buffer[..newline]];
        buffer := buffer[newline + 1..];
      }
      fault := |buffer| > limit;
    }
  }
}
