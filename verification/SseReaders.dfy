/** The two readers of an event stream: readChatSSE (client.ts) turns a reply stream into
    deltas, eventsApi.stream (events.ts) turns a live stream into events. */
module SseReaders {
  import opened Basics
  import opened Text
  import opened SseFraming

  /** What JSON.parse finds in a data field: a non-empty string `delta` (or ""), the message an
      error event shows, and a publishable event. */
  datatype Json<!E> = Json(delta: string -> string, error: string -> string, event: string -> Option<E>)

  datatype Signal<+E> = Ready | Event(event: E)

  datatype ChatRead = ChatRead(flushed: seq<string>, deltas: seq<string>, reply: string, failure: Option<string>)

  datatype StreamRead<+E> = StreamRead(flushed: seq<string>, signals: seq<Signal<E>>, failure: Option<string>)

  function EventOf(raw: string): string {
    LastField(Split(raw, '\n'), "event:")
  }

  function DataOf(raw: string): string {
    Data(Split(raw, '\n'))
  }

  predicate IsError(raw: string) {
    EventOf(raw) == "error"
  }

  /** How many items are taken, up to and including the first one that stops. */
  function Taken(items: seq<string>, stops: string -> bool): (n: nat)
    ensures n <= |items|
  {
    if items == [] then 0
    else if stops(items[0]) then 1
    else 1 + Taken(items[1..], stops)
  }

  /** A reader throws at the first error block: later blocks are never flushed. */
  function UpToError(blocks: seq<string>): seq<string> {
    blocks[..Taken(blocks, IsError)]
  }

  function Failure<E>(json: Json<E>, flushed: seq<string>): Option<string> {
    if flushed != [] && IsError(flushed[|flushed| - 1]) then
      Some(json.error(DataOf(flushed[|flushed| - 1])))
    else None
  }

  // ----- what a block means to each reader -----

  function DeltaOf<E>(json: Json<E>, raw: string): seq<string> {
    var delta := json.delta(DataOf(raw));
    if (DataOf(raw) == "" && EventOf(raw) == "") || IsError(raw) || DataOf(raw) == "[DONE]" || delta == ""
    then [] else [delta]
  }

  function Deltas<E>(json: Json<E>, blocks: seq<string>): seq<string> {
    if blocks == [] then [] else Deltas(json, blocks[..|blocks| - 1]) + DeltaOf(json, blocks[|blocks| - 1])
  }

  function SignalOf<E>(json: Json<E>, raw: string): seq<Signal<E>> {
    if EventOf(raw) == "ready" then [Ready]
    else if IsError(raw) || (EventOf(raw) != "" && EventOf(raw) != "ops") then []
    else if DataOf(raw) == "" && EventOf(raw) == "" then []
    else match json.event(DataOf(raw)) case None => [] case Some(e) => [Event(e)]
  }

  function Signals<E>(json: Json<E>, blocks: seq<string>): seq<Signal<E>> {
    if blocks == [] then [] else Signals(json, blocks[..|blocks| - 1]) + SignalOf(json, blocks[|blocks| - 1])
  }

  // ----- whole runs -----

  /** How reading ends: the stream is over, and `tail` is what the decoder still gives out; or a
      read is rejected, by a broken connection or an abort. */
  datatype StreamEnd = Closed(tail: string) | Broken(message: string)

  /** replace(/\n+$/, "") */
  function StripLineEnds(s: string): string {
    if s != "" && s[|s| - 1] == '\n' then StripLineEnds(s[..|s| - 1]) else s
  }

  /** The blocks of a chat reply: the closed ones, then a last one if the stream is over and the
      leftover is not blank. */
  function ChatBlocks(text: string, end: StreamEnd): seq<string> {
    var f := Drain(text);
    if end.Broken? then f.blocks
    else
      var left := f.rest + Normalise(end.tail);
      f.blocks + if Trim(left) != "" then [StripLineEnds(left)] else []
  }

  /** What a reader throws: the first error block's message, else that of the broken read. */
  function Thrown(failure: Option<string>, end: StreamEnd): Option<string> {
    if failure.None? && end.Broken? then Some(end.message) else failure
  }

  function ChatResult<E>(json: Json<E>, chunks: seq<string>, end: StreamEnd): ChatRead {
    var flushed := UpToError(ChatBlocks(NormaliseChunks(chunks), end));
    var deltas := Deltas(json, flushed);
    ChatRead(flushed, deltas, Concat(deltas), Thrown(Failure(json, flushed), end))
  }

  function StreamResult<E>(json: Json<E>, chunks: seq<string>, end: StreamEnd): StreamRead<E> {
    var flushed := UpToError(Drain(NormaliseChunks(chunks)).blocks);
    StreamRead(flushed, Signals(json, flushed), Thrown(Failure(json, flushed), end))
  }

  // ----- lemmas about stopping at an error -----

  predicate RunsOn(items: seq<string>, stops: string -> bool) {
    forall i :: 0 <= i < |items| ==> !stops(items[i])
  }

  lemma {:induction false} TakenAppend(a: seq<string>, b: seq<string>, stops: string -> bool)
    ensures RunsOn(a, stops) ==> Taken(a + b, stops) == |a| + Taken(b, stops)
    ensures !RunsOn(a, stops) ==>
              0 < Taken(a + b, stops) == Taken(a, stops) && stops(a[Taken(a, stops) - 1])
  {
    var s := a + b;
    if a == [] {
      assert s == b;
    } else {
      assert s[0] == a[0] && s[1..] == a[1..] + b;
      assert a == [a[0]] + a[1..];
      TakenAppend(a[1..], b, stops);
    }
  }

  /** Reading stops at `item`, whatever comes after it. */
  lemma TakenStop(a: seq<string>, item: string, all: seq<string>, stops: string -> bool)
    requires RunsOn(a, stops) && stops(item) && a + [item] <= all
    ensures all[..Taken(all, stops)] == a + [item]
  {
    var b := all[|a|..];
    assert all == a + b;
    TakenAppend(a, b, stops);
    assert b[0] == all[|a|] == item;
  }

  lemma TakenAll(a: seq<string>, stops: string -> bool)
    requires RunsOn(a, stops)
    ensures Taken(a, stops) == |a|
  {
    TakenAppend(a, [], stops);
    assert a + [] == a;
  }

  // ----- what the reading loop keeps -----

  /** The blocks already flushed and those still in the buffer are the blocks of the text read. */
  ghost predicate Tracks(text: string, flushed: seq<string>, buf: string) {
    Drain(text) == Framing(flushed + Drain(buf).blocks, Drain(buf).rest)
  }

  lemma FeedChunk(chunks: seq<string>, c: nat, flushed: seq<string>, buf: string)
    requires c < |chunks| && Drain(NormaliseChunks(chunks[..c])) == Framing(flushed, buf)
    ensures Tracks(NormaliseChunks(chunks[..c + 1]), flushed, buf + Normalise(chunks[c]))
  {
    assert chunks[..c + 1] == chunks[..c] + [chunks[c]];
    NormaliseChunksAppend(chunks[..c], [chunks[c]]);
    NormaliseChunksCons([chunks[c]]);
    assert NormaliseChunks([chunks[c]]) == Normalise(chunks[c]);
    DrainAppend(NormaliseChunks(chunks[..c]), Normalise(chunks[c]));
  }

  lemma CutBlock(text: string, flushed: seq<string>, buf: string)
    requires Tracks(text, flushed, buf) && BlankLine(buf) >= 0
    ensures var i := BlankLine(buf);
            Tracks(text, flushed + [buf[..i]], buf[i + 2..]) && flushed + [buf[..i]] <= Drain(text).blocks
  {
    var i := BlankLine(buf);
    var raw, later := buf[..i], Drain(buf[i + 2..]);
    assert Drain(buf) == Framing([raw] + later.blocks, later.rest);
    hide Drain, BlankLine;
    Assoc(flushed, [raw], later.blocks);
  }

  lemma EndOfChunk(text: string, flushed: seq<string>, buf: string)
    requires Tracks(text, flushed, buf) && BlankLine(buf) < 0
    ensures Drain(text) == Framing(flushed, buf)
  {
    assert flushed + [] == flushed;
  }

  lemma NothingRead<E>(json: Json<E>)
    ensures Drain(NormaliseChunks([])) == Framing([], "")
    ensures Deltas(json, []) == [] && Concat([]) == "" && Signals(json, []) == []
  {
  }

  /** An error block ends the run with what was flushed so far. */
  lemma EndAtError(chunks: seq<string>, c: nat, flushed: seq<string>, raw: string, end: StreamEnd)
    requires c <= |chunks| && flushed + [raw] <= Drain(NormaliseChunks(chunks[..c])).blocks
    requires RunsOn(flushed, IsError) && IsError(raw)
    ensures UpToError(Drain(NormaliseChunks(chunks)).blocks) == flushed + [raw]
    ensures UpToError(ChatBlocks(NormaliseChunks(chunks), end)) == flushed + [raw]
  {
    assert chunks == chunks[..c] + chunks[c..];
    NormaliseChunksAppend(chunks[..c], chunks[c..]);
    DrainAppend(NormaliseChunks(chunks[..c]), NormaliseChunks(chunks[c..]));
    TakenStop(flushed, raw, Drain(NormaliseChunks(chunks)).blocks, IsError);
    TakenStop(flushed, raw, ChatBlocks(NormaliseChunks(chunks), end), IsError);
  }

  /** A run without error blocks flushes all blocks, then the leftover if it is not blank. */
  lemma EndOfStream(text: string, end: StreamEnd)
    requires RunsOn(Drain(text).blocks, IsError)
    ensures UpToError(ChatBlocks(text, end)) == ChatBlocks(text, end)
    ensures UpToError(Drain(text).blocks) == Drain(text).blocks
  {
    var closed, all := Drain(text).blocks, ChatBlocks(text, end);
    var last := all[|closed|..];
    assert all == closed + last && |last| <= 1;
    TakenAppend(closed, last, IsError);
    TakenAll(closed, IsError);
  }

  lemma FailureOfLast<E>(json: Json<E>, flushed: seq<string>, raw: string)
    ensures Failure(json, flushed + [raw]) == Failure(json, [raw])
    ensures Failure(json, [raw]).Some? <==> IsError(raw)
    ensures RunsOn(flushed, IsError) ==> Failure(json, flushed) == None
  {
  }

  lemma DeltasSnoc<E>(json: Json<E>, flushed: seq<string>, raw: string)
    ensures Deltas(json, flushed + [raw]) == Deltas(json, flushed) + DeltaOf(json, raw)
    ensures Concat(Deltas(json, flushed + [raw])) == Concat(Deltas(json, flushed)) + Concat(DeltaOf(json, raw))
  {
    ConcatAppend(Deltas(json, flushed), DeltaOf(json, raw));
    assert (flushed + [raw])[..|flushed|] == flushed;
  }

  lemma SignalsSnoc<E>(json: Json<E>, flushed: seq<string>, raw: string)
    ensures Signals(json, flushed + [raw]) == Signals(json, flushed) + SignalOf(json, raw)
  {
    assert (flushed + [raw])[..|flushed|] == flushed;
  }

  // ----- the readers -----

  /** The scan of the lines in flushBlock of readChatSSE; parseSseBlock meets the same
      specification. */
  method ScanChatBlock(raw: string) returns (ev: string, data: string)
    ensures ev == EventOf(raw) && data == DataOf(raw)
  {
    ev, data := "", "";
    var lines := Split(raw, '\n');
    for i := 0 to |lines|
      invariant ev == LastField(lines[..i], "event:") && data == Data(lines[..i])
    {
      var line := lines[i];
      assert lines[..i + 1] == lines[..i] + [line];
      assert lines[..i + 1][..i] == lines[..i];
      assert StartsWith(line, ":") ==> line[0] == ':';
      assert StartsWith(line, "event:") ==> line[0] == 'e';
      assert StartsWith(line, "data:") ==> line[0] == 'd';
      if StartsWith(line, "data:") {
        DataSnoc(lines[..i], line);
      } else {
        DataSame(lines[..i], line);
      }
      if StartsWith(line, ":") {
        continue;
      }
      if StartsWith(line, "event:") {
        ev := Trim(line[6..]);
        continue;
      }
      if StartsWith(line, "data:") {
        var part := TrimStart(line[5..]);
        data := if data != "" then data + "\n" + part else part;
      }
    }
    assert lines[..|lines|] == lines;
  }

  /** flushBlock of readChatSSE. */
  method FlushChat<E>(json: Json<E>, raw: string, reply: string, deltas: seq<string>)
    returns (reply': string, deltas': seq<string>, failure: Option<string>)
    ensures failure == Failure(json, [raw])
    ensures deltas' == deltas + DeltaOf(json, raw)
    ensures reply' == reply + Concat(DeltaOf(json, raw))
  {
    hide LastField, Data, Split;
    reply', deltas', failure := reply, deltas, None;
    var ev, data := ScanChatBlock(raw);
    if data == "" && ev == "" {
      return;
    }
    if ev == "error" {
      failure := Some(json.error(data));
      return;
    }
    if data == "[DONE]" {
      return;
    }
    var delta := json.delta(data);
    if delta != "" {
      reply' := reply + delta;
      deltas' := deltas + [delta];
      assert Concat([delta]) == delta + Concat([]);
    }
  }

  /** readChatSSE: chunks[i] is the i-th decoded chunk. */
  method ReadChatSSE<E>(json: Json<E>, chunks: seq<string>, end: StreamEnd) returns (r: ChatRead)
    ensures r == ChatResult(json, chunks, end)
    ensures r.reply == Concat(r.deltas)
  {
    hide Drain, BlankLine, NormaliseChunks, Deltas, DeltaOf, IsError, Concat, Failure;
    var buf, reply := "", "";
    var flushed, deltas: seq<string> := [], [];
    var failure: Option<string>;
    NothingRead(json);
    for c := 0 to |chunks|
      invariant Drain(NormaliseChunks(chunks[..c])) == Framing(flushed, buf)
      invariant RunsOn(flushed, IsError) && deltas == Deltas(json, flushed) && reply == Concat(deltas)
    {
      ghost var seen := NormaliseChunks(chunks[..c + 1]);
      FeedChunk(chunks, c, flushed, buf);
      buf := buf + Normalise(chunks[c]);
      var idx := BlankLine(buf);
      while idx >= 0
        invariant idx == BlankLine(buf) && Tracks(seen, flushed, buf)
        invariant RunsOn(flushed, IsError) && deltas == Deltas(json, flushed) && reply == Concat(deltas)
        decreases |buf|
      {
        var raw := buf[..idx];
        CutBlock(seen, flushed, buf);
        DeltasSnoc(json, flushed, raw);
        FailureOfLast(json, flushed, raw);
        buf := buf[idx + 2..];
        reply, deltas, failure := FlushChat(json, raw, reply, deltas);
        if failure.Some? {
          EndAtError(chunks, c + 1, flushed, raw, end);
          return ChatRead(flushed + [raw], deltas, reply, failure);
        }
        flushed := flushed + [raw];
        idx := BlankLine(buf);
      }
      EndOfChunk(seen, flushed, buf);
    }
    assert chunks[..|chunks|] == chunks;
    EndOfStream(NormaliseChunks(chunks), end);
    failure := None;
    FailureOfLast(json, flushed, "");
    if end.Broken? {
      return ChatRead(flushed, deltas, reply, Some(end.message));
    }
    buf := buf + Normalise(end.tail);
    if Trim(buf) != "" {
      var raw := StripLineEnds(buf);
      DeltasSnoc(json, flushed, raw);
      FailureOfLast(json, flushed, raw);
      flushed := flushed + [raw];
      reply, deltas, failure := FlushChat(json, raw, reply, deltas);
    }
    r := ChatRead(flushed, deltas, reply, failure);
  }

  /** flush of eventsApi.stream. */
  method FlushEvent<E>(json: Json<E>, raw: string, signals: seq<Signal<E>>)
    returns (signals': seq<Signal<E>>, failure: Option<string>)
    ensures failure == Failure(json, [raw])
    ensures signals' == signals + SignalOf(json, raw)
  {
    hide LastField, Data, Split;
    signals', failure := signals, None;
    var event, _, data := ParseSseBlock(raw);
    if data == "" && event == "" {
      return;
    }
    if event == "ready" {
      signals' := signals + [Ready];
      return;
    }
    if event == "error" {
      failure := Some(json.error(data));
      return;
    }
    if event != "" && event != "ops" {
      return;
    }
    var parsed := json.event(data);
    if parsed.Some? {
      signals' := signals + [Event(parsed.value)];
    }
  }

  /** The reading loop of eventsApi.stream. */
  method ReadEvents<E>(json: Json<E>, chunks: seq<string>, end: StreamEnd) returns (r: StreamRead<E>)
    ensures r == StreamResult(json, chunks, end)
  {
    hide Drain, BlankLine, NormaliseChunks, Signals, SignalOf, IsError, Failure;
    var buf := "";
    var flushed: seq<string> := [];
    var signals: seq<Signal<E>> := [];
    var failure: Option<string>;
    NothingRead(json);
    for c := 0 to |chunks|
      invariant Drain(NormaliseChunks(chunks[..c])) == Framing(flushed, buf)
      invariant RunsOn(flushed, IsError) && signals == Signals(json, flushed)
    {
      ghost var seen := NormaliseChunks(chunks[..c + 1]);
      FeedChunk(chunks, c, flushed, buf);
      buf := buf + Normalise(chunks[c]);
      var idx := BlankLine(buf);
      while idx >= 0
        invariant idx == BlankLine(buf) && Tracks(seen, flushed, buf)
        invariant RunsOn(flushed, IsError) && signals == Signals(json, flushed)
        decreases |buf|
      {
        var raw := buf[..idx];
        CutBlock(seen, flushed, buf);
        SignalsSnoc(json, flushed, raw);
        FailureOfLast(json, flushed, raw);
        buf := buf[idx + 2..];
        signals, failure := FlushEvent(json, raw, signals);
        if failure.Some? {
          EndAtError(chunks, c + 1, flushed, raw, end);
          return StreamRead(flushed + [raw], signals, failure);
        }
        flushed := flushed + [raw];
        idx := BlankLine(buf);
      }
      EndOfChunk(seen, flushed, buf);
    }
    assert chunks[..|chunks|] == chunks;
    EndOfStream(NormaliseChunks(chunks), end);
    FailureOfLast(json, flushed, "");
    r := StreamRead(flushed, signals, if end.Broken? then Some(end.message) else None);
  }

  // ----- chatStream -----

  /** The `reply` of a JSON answer ("" if it has none), or the message that reading it throws. */
  datatype JsonReply = Body(reply: string) | Throws(message: string)

  /** What the gateway answers to a chat request: it declines to stream and is asked once more,
      it fails, it answers as a whole, or it streams. */
  datatype ChatResponse =
    | NotAcceptable(second: JsonReply)
    | Failed(status: string, text: string)
    | Whole(first: JsonReply)
    | Streamed(chunks: seq<string>, end: StreamEnd)

  datatype ChatReply = Returned(reply: string) | Threw(message: string)

  /** chatStream: the reply, and the deltas handed to the callback. */
  method ChatStream<E>(json: Json<E>, response: ChatResponse) returns (r: ChatReply, deltas: seq<string>)
    ensures r.Returned? ==> r.reply == Concat(deltas)
    ensures match response
            case NotAcceptable(j) => r == Answer(j)
            case Failed(status, text) => r == Threw(status + " " + text) && deltas == []
            case Whole(j) => r == Answer(j)
            case Streamed(chunks, end) =>
              var read := ChatResult(json, chunks, end);
              && deltas == read.deltas
              && r == match read.failure case None => Returned(read.reply) case Some(m) => Threw(m)
    ensures response.NotAcceptable? || response.Whole? ==> deltas == WholeDeltas(r)
  {
    match response
    case NotAcceptable(second) =>
      r, deltas := ReadWhole(second);
    case Failed(status, text) =>
      r, deltas := Threw(status + " " + text), [];
    case Whole(first) =>
      r, deltas := ReadWhole(first);
    case Streamed(chunks, end) =>
      var read := ReadChatSSE(json, chunks, end);
      deltas := read.deltas;
      r := if read.failure.Some? then Threw(read.failure.value) else Returned(read.reply);
  }

  function Answer(j: JsonReply): ChatReply {
    match j case Body(reply) => Returned(reply) case Throws(message) => Threw(message)
  }

  /** A whole reply is one delta, unless it is empty. */
  function WholeDeltas(r: ChatReply): seq<string> {
    if r.Returned? && r.reply != "" then [r.reply] else []
  }

  method ReadWhole(j: JsonReply) returns (r: ChatReply, deltas: seq<string>)
    ensures r == Answer(j) && deltas == WholeDeltas(r)
    ensures r.Returned? ==> r.reply == Concat(deltas)
  {
    match j
    case Throws(message) =>
      r, deltas := Threw(message), [];
    case Body(reply) =>
      r, deltas := Returned(reply), if reply != "" then [reply] else [];
      ConcatCons(reply, []);
  }

  // ----- main results -----

  /** How the text is cut into chunks does not show, provided no CR LF pair is cut in two:
      same blocks, same deltas, same reply, same error. */
  lemma ChunkIndependence<E>(json: Json<E>, a: seq<string>, b: seq<string>, end: StreamEnd)
    requires Concat(a) == Concat(b)
    requires SplitPairs("", a) == 0 && SplitPairs("", b) == 0
    ensures ChatResult(json, a, end) == ChatResult(json, b, end)
    ensures StreamResult(json, a, end) == StreamResult(json, b, end)
  {
    ChunkedNormalisation(a);
    ChunkedNormalisation(b);
  }

  /** The proviso is exact: a chunking gives the cuts of the whole text if and only if it
      splits no CR LF pair. */
  lemma ChunkingShowsIffPairSplit(chunks: seq<string>)
    ensures Drain(NormaliseChunks(chunks)) == Drain(Normalise(Concat(chunks))) <==> SplitPairs("", chunks) == 0
  {
    ChunkedNormalisation(chunks);
    DrainFrames(NormaliseChunks(chunks));
    DrainFrames(Normalise(Concat(chunks)));
  }

  /** A split pair makes a blank line that the text does not hold. */
  lemma SplitPairExample()
    ensures Concat(["a\r", "\nb"]) == Concat(["a\r\nb"])
    ensures Drain(NormaliseChunks(["a\r", "\nb"])) == Framing(["a"], "b")
    ensures Drain(NormaliseChunks(["a\r\nb"])) == Framing([], "a\nb")
  {
    SplitPairText();
    DrainUnique(["a"], "b");
    DrainUnique([], "a\nb");
  }

  lemma SplitPairText()
    ensures Concat(["a\r", "\nb"]) == "a\r\nb" == Concat(["a\r\nb"])
    ensures NormaliseChunks(["a\r", "\nb"]) == "a\n\nb" == Unframe(["a"], "b")
    ensures NormaliseChunks(["a\r\nb"]) == "a\nb" == Unframe([], "a\nb")
  {
    assert ["a\r", "\nb"][1..] == ["\nb"] && ["\nb"][1..] == [] && ["a\r\nb"][1..] == [];
    NormaliseLiterals();
  }

  lemma NormaliseLiterals()
    ensures Normalise("a\r") == "a\n" && Normalise("\nb") == "\nb" && Normalise("a\r\nb") == "a\nb"
  {
    assert "a\r"[1..] == "\r" && "\r"[1..] == "" && "\nb"[1..] == "b" && "b"[1..] == "";
    assert ReplaceCrLf("\r") == "\r" && ReplaceCrLf("b") == "b";
    assert "a\r\nb"[1..] == "\r\nb" && "\r\nb"[2..] == "b";
  }

  /** On the same chunks the live reader flushes the closed blocks that the chat reader flushes,
      and fails where it fails; the chat reader may add one block for a non-blank leftover. */
  lemma ReadersAgree<E>(json: Json<E>, chunks: seq<string>, end: StreamEnd)
    ensures var chat, live := ChatResult(json, chunks, end), StreamResult(json, chunks, end);
            && live.flushed <= chat.flushed
            && |chat.flushed| <= |live.flushed| + 1
            && (live.failure.Some? ==> chat.flushed == live.flushed && chat.failure == live.failure)
            && (end.Broken? || Trim(Drain(NormaliseChunks(chunks)).rest + Normalise(end.tail)) == "" ==>
                  chat.flushed == live.flushed && chat.failure == live.failure)
  {
    hide IsError, Taken, Drain, NormaliseChunks, Normalise, Trim, StripLineEnds, DataOf, Deltas, Signals;
    var text := NormaliseChunks(chunks);
    var closed, all := Drain(text).blocks, ChatBlocks(text, end);
    var last := all[|closed|..];
    assert all == closed + last && |last| <= 1;
    TakenAppend(closed, last, IsError);
    TakenAppend(closed, [], IsError);
    assert closed + [] == closed;
  }
}
