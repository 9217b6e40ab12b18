/** The `LineBreakTransformer` both pages put between the text decoder and the
    reader: it re-chunks decoded serial text into newline-terminated lines,
    keeping the unfinished tail in `container` until more text arrives. */
module LineFraming {
  import opened Strings

  /** The line terminator the transformer splits on. */
  const NL: char := '\n'

  /** What one `transform` call makes of its buffer: the complete lines it
      emits and the unfinished rest it keeps. */
  datatype Framed = Framed(lines: seq<string>, rest: string)

  /** The buffer `old container + chunk` split on newlines, with the last
      fragment popped off as the new container. Every emitted line is
      followed by a newline in the buffer, so the lines and the rest
      rebuild the buffer exactly, and there is one line per newline. */
  function Frame(buffer: string): (f: Framed)
    ensures NL !in f.rest
    ensures forall line <- f.lines :: NL !in line
    ensures buffer == Terminated(f.lines, NL) + f.rest
  {
    var pieces := Split(buffer, NL);
    JoinSplit(buffer, NL);
    Framed(pieces[..|pieces| - 1], pieces[|pieces| - 1])
  }

  /** The text after one `transform` call rebuilt from that call's lines
      followed by whatever rebuilds the rest of the text. */
  lemma RebuildAfterFrame(container: string, chunk: string, more: string, lines: seq<string>, rest: string)
    requires Frame(container + chunk).rest + more == Terminated(lines, NL) + rest
    ensures container + chunk + more == Terminated(Frame(container + chunk).lines + lines, NL) + rest
  {
    var first := Frame(container + chunk);
    TerminatedAppend(first.lines, lines, NL);
    calc {
      container + chunk + more;
      Terminated(first.lines, NL) + (first.rest + more);
      Terminated(first.lines, NL) + Terminated(lines, NL) + rest;
    }
  }

  /** One `transform` call emits exactly as many lines as there are newlines
      in its buffer; a buffer without a newline emits none. */
  lemma LinesPerNewline(buffer: string)
    ensures |Frame(buffer).lines| == multiset(buffer)[NL]
  {
    SplitCount(buffer, NL);
  }

  /** The framing of a buffer is the only way to write it as newline-free
      lines, each followed by a newline, and a newline-free rest. */
  lemma FrameOfTerminated(lines: seq<string>, rest: string)
    requires forall line <- lines :: NL !in line
    requires NL !in rest
    ensures Frame(Terminated(lines, NL) + rest) == Framed(lines, rest)
  {
    SplitTerminated(lines, rest, NL);
    var pieces := lines + [rest];
    assert pieces[..|pieces| - 1] == lines;
  }

  /** The container after a `transform` is the text after the last newline of
      the buffer, or the whole buffer when it holds no newline, in which case
      nothing is emitted. */
  lemma RestAfterLastNewline(buffer: string)
    ensures |Frame(buffer).rest| <= |buffer|
    ensures Frame(buffer).rest == buffer[|buffer| - |Frame(buffer).rest|..]
    ensures |Frame(buffer).rest| < |buffer| ==> buffer[|buffer| - |Frame(buffer).rest| - 1] == NL
    ensures NL !in buffer ==> Frame(buffer) == Framed([], buffer)
  {
    var f := Frame(buffer);
    var head := Terminated(f.lines, NL);
    assert buffer[|head|..] == f.rest;
    if f.lines != [] {
      TerminatedEndsWithSep(f.lines, NL);
      assert buffer[|head| - 1] == head[|head| - 1];
    }
    if NL !in buffer {
      FrameOfTerminated([], buffer);
    }
  }

  /** All chunks of a stream, concatenated. */
  function Flatten(chunks: seq<string>): string
  {
    if chunks == [] then "" else chunks[0] + Flatten(chunks[1..])
  }

  /** Feeding `chunks` one `transform` call at a time, starting from
      `container`: every line emitted on the way, and the final container. */
  function FeedChunks(container: string, chunks: seq<string>): (f: Framed)
    ensures container + Flatten(chunks) == Terminated(f.lines, NL) + f.rest
    decreases |chunks|
  {
    if chunks == [] then
      assert container + Flatten(chunks) == Terminated([], NL) + container;
      Framed([], container)
    else
      var first := Frame(container + chunks[0]);
      var later := FeedChunks(first.rest, chunks[1..]);
      RebuildAfterFrame(container, chunks[0], Flatten(chunks[1..]), later.lines, later.rest);
      assert container + Flatten(chunks) == container + chunks[0] + Flatten(chunks[1..]);
      Framed(first.lines + later.lines, later.rest)
  }

  lemma {:induction false} FlattenSnoc(chunks: seq<string>, chunk: string)
    ensures Flatten(chunks + [chunk]) == Flatten(chunks) + chunk
    decreases |chunks|
  {
    if chunks == [] {
      assert [] + [chunk] == [chunk];
      assert [chunk][1..] == [];
    } else {
      assert (chunks + [chunk])[1..] == chunks[1..] + [chunk];
      FlattenSnoc(chunks[1..], chunk);
    }
  }

  /** Where the chunk boundaries fall does not matter: feeding the chunks one
      at a time emits the same lines and leaves the same container as feeding
      their concatenation in a single call. */
  lemma {:induction false} ChunkBoundaryIndependence(container: string, chunks: seq<string>)
    requires NL !in container
    ensures FeedChunks(container, chunks) == Frame(container + Flatten(chunks))
    decreases |chunks|
  {
    if chunks == [] {
      FrameOfTerminated([], container);
      assert container + Flatten(chunks) == Terminated([], NL) + container;
    } else {
      var first := Frame(container + chunks[0]);
      ChunkBoundaryIndependence(first.rest, chunks[1..]);
      FrameTwice(container, chunks[0], Flatten(chunks[1..]));
      assert container + Flatten(chunks) == container + chunks[0] + Flatten(chunks[1..]);
    }
  }

  lemma FlattenPrefix(chunks: seq<string>, i: nat)
    requires i < |chunks|
    ensures Flatten(chunks[..i + 1]) == Flatten(chunks[..i]) + chunks[i]
  {
    assert chunks[..i + 1] == chunks[..i] + [chunks[i]];
    FlattenSnoc(chunks[..i], chunks[i]);
  }

  /** Associativity of `+`, stated once so that the loop proofs can name the
      regrouping they need instead of searching for it. */
  lemma AppendAssoc<T>(a: seq<T>, b: seq<T>, c: seq<T>)
    ensures a + b + c == a + (b + c)
  {
  }

  /** Two `transform` calls in a row emit the lines of one call on the
      concatenated chunks and leave its container. */
  lemma FrameTwice(container: string, chunk: string, more: string)
    ensures Frame(container + chunk + more)
         == Framed(Frame(container + chunk).lines + Frame(Frame(container + chunk).rest + more).lines,
                   Frame(Frame(container + chunk).rest + more).rest)
  {
    var first := Frame(container + chunk);
    var later := Frame(first.rest + more);
    TerminatedAppend(first.lines, later.lines, NL);
    calc {
      container + chunk + more;
      Terminated(first.lines, NL) + (first.rest + more);
      Terminated(first.lines, NL) + Terminated(later.lines, NL) + later.rest;
      Terminated(first.lines + later.lines, NL) + later.rest;
    }
    FrameOfTerminated(first.lines + later.lines, later.rest);
  }

  /** Appending a chunk to what was framed before: the earlier lines, then
      the lines of the old rest followed by the chunk. */
  lemma FrameAppend(text: string, chunk: string)
    ensures Frame(text + chunk)
         == Framed(Frame(text).lines + Frame(Frame(text).rest + chunk).lines, Frame(Frame(text).rest + chunk).rest)
  {
    FrameTwice("", text, chunk);
    assert "" + text == text;
  }

  /** Over a whole stream, the lines emitted by `transform` followed by the
      container emitted by `flush` are exactly the stream split on newlines,
      the unterminated last fragment included. */
  lemma StreamIsSplitIntoLines(chunks: seq<string>)
    ensures FeedChunks("", chunks).lines + [FeedChunks("", chunks).rest] == Split(Flatten(chunks), NL)
  {
    var text := Flatten(chunks);
    ChunkBoundaryIndependence("", chunks);
    assert "" + text == text;
    FrameIsSplit(text);
  }

  lemma FrameIsSplit(buffer: string)
    ensures Frame(buffer).lines + [Frame(buffer).rest] == Split(buffer, NL)
  {
    var pieces := Split(buffer, NL);
    assert pieces[..|pieces| - 1] + [pieces[|pieces| - 1]] == pieces;
  }

  /** What the transformer has logged, with its newlines, then its container
      still make up the text it received after one more `transform`. */
  lemma ReceivedAfterFrame(logged: seq<string>, container: string, chunk: string)
    ensures Terminated(logged, NL) + container + chunk
         == Terminated(logged + Frame(container + chunk).lines, NL) + Frame(container + chunk).rest
  {
    var f := Frame(container + chunk);
    TerminatedAppend(logged, f.lines, NL);
    calc {
      Terminated(logged, NL) + container + chunk;
      Terminated(logged, NL) + (container + chunk);
      Terminated(logged, NL) + (Terminated(f.lines, NL) + f.rest);
      Terminated(logged + f.lines, NL) + f.rest;
    }
  }

  /** The transformer. `enqueued` is what it has passed to
      `controller.enqueue`, `logged` what it has passed to `logData`, in
      order; `received` is every chunk it was given, concatenated. */
  class LineBreakTransformer {
    var container: string
    var enqueued: seq<string>
    var logged: seq<string>
    ghost var received: string

    /** The container never holds a newline, no logged line does, and the
        logged lines, each with its newline, followed by the container, are
        exactly the text received. */
    ghost predicate Valid()
      reads this
    {
      NL !in container &&
      (forall line <- logged :: NL !in line) &&
      received == Terminated(logged, NL) + container
    }

    constructor ()
      ensures Valid()
      ensures container == "" && enqueued == [] && logged == [] && received == ""
    {
      container := "";
      enqueued := [];
      logged := [];
      received := "";
    }

    /** Appends the chunk to the container, splits on newlines, keeps the
        last fragment and passes every other fragment, in order, first to
        the controller and then to the log. */
    method Transform(chunk: string)
      requires Valid()
      modifies this
      ensures Valid()
      ensures received == old(received) + chunk
      ensures container == Frame(old(container) + chunk).rest
      ensures enqueued == old(enqueued) + Frame(old(container) + chunk).lines
      ensures logged == old(logged) + Frame(old(container) + chunk).lines
    {
      container := container + chunk;
      ghost var framed := Frame(container);
      var lines := Split(container, NL);
      container := lines[|lines| - 1];
      lines := lines[..|lines| - 1];
      assert framed == Framed(lines, container);
      var i := 0;
      while i < |lines|
        invariant 0 <= i <= |lines|
        invariant enqueued == old(enqueued) + lines[..i]
        invariant logged == old(logged) + lines[..i]
        invariant container == framed.rest && received == old(received)
      {
        enqueued := enqueued + [lines[i]];
        logged := logged + [lines[i]];
        i := i + 1;
      }
      assert lines[..i] == lines;
      received := received + chunk;
      ReceivedAfterFrame(old(logged), old(container), chunk);
    }

    /** `transform` called on each chunk in turn: the transformer emits the
        lines and keeps the container of a single `transform` on all the
        chunks together, wherever their boundaries fall. */
    method TransformAll(chunks: seq<string>)
      requires Valid()
      modifies this
      ensures Valid()
      ensures received == old(received) + Flatten(chunks)
      ensures container == Frame(old(container) + Flatten(chunks)).rest
      ensures enqueued == old(enqueued) + Frame(old(container) + Flatten(chunks)).lines
      ensures logged == old(logged) + Frame(old(container) + Flatten(chunks)).lines
    {
      var i := 0;
      ghost var text := container;
      ghost var f := Framed([], container);
      FrameOfTerminated([], container);
      assert text == Terminated([], NL) + container;
      while i < |chunks|
        invariant 0 <= i <= |chunks| && Valid()
        invariant text == old(container) + Flatten(chunks[..i])
        invariant received == old(received) + Flatten(chunks[..i])
        invariant f == Frame(text)
        invariant container == f.rest
        invariant enqueued == old(enqueued) + f.lines
        invariant logged == old(logged) + f.lines
      {
        ghost var step := Frame(container + chunks[i]);
        FrameAppend(text, chunks[i]);
        Transform(chunks[i]);
        FlattenPrefix(chunks, i);
        AppendAssoc(old(received), Flatten(chunks[..i]), chunks[i]);
        AppendAssoc(old(container), Flatten(chunks[..i]), chunks[i]);
        AppendAssoc(old(enqueued), f.lines, step.lines);
        AppendAssoc(old(logged), f.lines, step.lines);
        text := text + chunks[i];
        f := Framed(f.lines + step.lines, step.rest);
        i := i + 1;
      }
      assert chunks[..i] == chunks;
    }

    /** At the end of the stream, passes the container, even when it is
        empty, to the controller once; nothing goes to the log. */
    method Flush()
      requires Valid()
      modifies this
      ensures Valid()
      ensures enqueued == old(enqueued) + [old(container)]
      ensures container == old(container) && logged == old(logged) && received == old(received)
    {
      enqueued := enqueued + [container];
    }
  }
}
