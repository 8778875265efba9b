/** Event streams as texts: what the two readers hand over for messages that are written out. */
module SseMessages {
  import opened Basics
  import opened Text
  import opened SseFraming
  import opened SseReaders

  /** A message; an event that is not named is "". */
  datatype Message = Message(event: string, data: string)

  predicate OneLine(s: string) {
    forall i :: 0 <= i < |s| ==> s[i] != '\r' && s[i] != '\n'
  }

  /** Each field is one line, and no white space would be lost. */
  predicate Plain(m: Message) {
    && OneLine(m.event) && Trimmed(m.event)
    && OneLine(m.data) && (m.data != "" ==> !IsSpace(m.data[0]))
  }

  ghost predicate AllPlain(ms: seq<Message>) {
    forall i :: 0 <= i < |ms| ==> Plain(ms[i])
  }

  function Print(m: Message): string {
    (if m.event == "" then "" else "event: " + m.event + "\n") + ("data: " + m.data)
  }

  function PrintEach(ms: seq<Message>): (r: seq<string>)
    ensures |r| == |ms| && forall i :: 0 <= i < |ms| ==> r[i] == Print(ms[i])
  {
    seq(|ms|, i requires 0 <= i < |ms| => Print(ms[i]))
  }

  /** The messages laid end to end, each closed by a blank line. */
  function PrintAll(ms: seq<Message>): string {
    if ms == [] then "" else Print(ms[0]) + "\n\n" + PrintAll(ms[1..])
  }

  // ----- reading one message back -----

  lemma {:induction false} NoSplit(s: string)
    requires OneLine(s)
    ensures Split(s, '\n') == [s]
  {
    if s == "" {
    } else {
      NoSplit(s[1..]);
      assert [s[0]] + s[1..] == s;
    }
  }

  lemma {:induction false} SplitLine(a: string, b: string)
    requires OneLine(a)
    ensures Split(a + "\n" + b, '\n') == [a] + Split(b, '\n')
  {
    var s := a + "\n" + b;
    if a == "" {
      assert s[0] == '\n' && s[1..] == b;
    } else {
      SplitLine(a[1..], b);
      assert s[0] == a[0] && s[1..] == a[1..] + "\n" + b;
      assert [a[0]] + a[1..] == a;
    }
  }

  lemma OneLineAppend(a: string, b: string)
    ensures OneLine(a + b) <==> OneLine(a) && OneLine(b)
  {
    var s := a + b;
    assert forall i :: 0 <= i < |a| ==> s[i] == a[i];
    assert forall i :: 0 <= i < |b| ==> s[|a| + i] == b[i];
  }

  function EventLine(m: Message): string {
    "event: " + m.event
  }

  function DataLine(m: Message): string {
    "data: " + m.data
  }

  lemma LinesOf(m: Message)
    requires Plain(m)
    ensures OneLine(EventLine(m)) && OneLine(DataLine(m))
    ensures Split(Print(m), '\n') == if m.event == "" then [DataLine(m)] else [EventLine(m), DataLine(m)]
  {
    assert OneLine("event: ") && OneLine("data: ");
    hide OneLine;
    OneLineAppend("event: ", m.event);
    OneLineAppend("data: ", m.data);
    NoSplit(DataLine(m));
    if m.event == "" {
      assert "" + DataLine(m) == DataLine(m);
    } else {
      SplitLine(EventLine(m), DataLine(m));
      assert EventLine(m) + "\n" + DataLine(m) == Print(m);
    }
  }

  /** The fields of the two lines. */
  lemma DataLineReads(m: Message)
    requires Plain(m)
    ensures StartsWith(DataLine(m), "data:") && !StartsWith(DataLine(m), "event:")
    ensures TrimStart(DataLine(m)[5..]) == m.data
  {
    var line := DataLine(m);
    assert line[0] == 'd' && line[..5] == "data:";
    assert line[5..] == " " + m.data && (" " + m.data)[1..] == m.data && IsSpace(' ');
    assert TrimStart(m.data) == m.data;
  }

  lemma EventLineReads(m: Message)
    requires Plain(m)
    ensures StartsWith(EventLine(m), "event:") && !StartsWith(EventLine(m), "data:")
    ensures Trim(EventLine(m)[6..]) == m.event
  {
    var line := EventLine(m);
    assert line[0] == 'e' && line[..6] == "event:";
    assert line[6..] == " " + m.event && (" " + m.event)[1..] == m.event && IsSpace(' ');
    TrimFixes(m.event);
    assert TrimStart(m.event) == m.event;
  }

  lemma FieldOfOne(line: string, name: string)
    ensures LastField([line], name) == if StartsWith(line, name) then Trim(line[|name|..]) else ""
  {
    assert [line][..0] == [];
    assert LastField([], name) == "";
  }

  lemma FieldOfTwo(a: string, b: string, name: string)
    requires !StartsWith(b, name)
    ensures LastField([a, b], name) == LastField([a], name)
  {
    assert [a, b][..1] == [a];
  }

  lemma DataOfLines(a: seq<string>, line: string)
    requires |a| <= 1 && (forall l :: l in a ==> !StartsWith(l, "data:")) && StartsWith(line, "data:")
    ensures Data(a + [line]) == TrimStart(line[5..])
  {
    DataSnoc(a, line);
    if a == [] {
    } else {
      DataSame([], a[0]);
      assert [] + a == a && [a[0]] == a && [] + [a[0]] == a;
    }
    assert Data([]) == "";
  }

  /** A printed message reads back, by the scan that both readers meet. */
  lemma ReadsBack(m: Message)
    requires Plain(m)
    ensures EventOf(Print(m)) == m.event && DataOf(Print(m)) == m.data
  {
    hide Plain, LastField, Data, Split, StartsWith, Trim, TrimStart, EventLine, DataLine, Print, OneLine;
    LinesOf(m);
    DataLineReads(m);
    EventLineReads(m);
    var e, d := EventLine(m), DataLine(m);
    if m.event == "" {
      FieldOfOne(d, "event:");
      DataOfLines([], d);
      assert [] + [d] == [d];
    } else {
      FieldOfTwo(e, d, "event:");
      FieldOfOne(e, "event:");
      DataOfLines([e], d);
      assert [e] + [d] == [e, d];
    }
  }

  lemma {:induction false} SplitMore(raw: string, line: string)
    requires OneLine(line)
    ensures Split(raw + "\n" + line, '\n') == Split(raw, '\n') + [line]
  {
    var s := raw + "\n" + line;
    if raw == "" {
      SplitLine("", line);
      NoSplit(line);
      assert "" + "\n" + line == s;
    } else {
      SplitMore(raw[1..], line);
      assert s[0] == raw[0] && s[1..] == raw[1..] + "\n" + line;
      SplitHead(raw, s, line);
    }
  }

  lemma SplitHead(raw: string, s: string, line: string)
    requires raw != "" && s != "" && s[0] == raw[0]
    requires Split(s[1..], '\n') == Split(raw[1..], '\n') + [line]
    ensures Split(s, '\n') == Split(raw, '\n') + [line]
  {
    var rest := Split(raw[1..], '\n');
    assert (rest + [line])[0] == rest[0] && (rest + [line])[1..] == rest[1..] + [line];
    if raw[0] == '\n' {
      Assoc([""], rest, [line]);
    } else {
      Assoc([[raw[0]] + rest[0]], rest[1..], [line]);
    }
  }

  lemma FieldMore(lines: seq<string>, line: string, name: string)
    ensures LastField(lines + [line], name)
         == if StartsWith(line, name) then Trim(line[|name|..]) else LastField(lines, name)
  {
    assert (lines + [line])[..|lines|] == lines;
  }

  /** What one more line does to a block: the last event line counts, each data line goes behind
      the data in front of it, and any other line, a comment among them, counts for nothing. */
  lemma OneMoreLine(raw: string, line: string)
    requires OneLine(line)
    ensures var more := raw + "\n" + line;
            && (StartsWith(line, "event:") ==> EventOf(more) == Trim(line[6..]) && DataOf(more) == DataOf(raw))
            && (StartsWith(line, "data:") ==>
                  && EventOf(more) == EventOf(raw)
                  && DataOf(more) == (if DataOf(raw) == "" then "" else DataOf(raw) + "\n") + TrimStart(line[5..]))
            && (!StartsWith(line, "event:") && !StartsWith(line, "data:") ==>
                  EventOf(more) == EventOf(raw) && DataOf(more) == DataOf(raw))
  {
    assert StartsWith(line, "event:") ==> line[0] == 'e';
    assert StartsWith(line, "data:") ==> line[0] == 'd';
    hide Split, LastField, Data, TrimStart, Trim, OneLine;
    SplitMore(raw, line);
    FieldMore(Split(raw, '\n'), line, "event:");
    if StartsWith(line, "data:") {
      DataSnoc(Split(raw, '\n'), line);
    } else {
      DataSame(Split(raw, '\n'), line);
    }
  }

  // ----- framing -----

  predicate NoReturn(s: string) {
    forall i :: 0 <= i < |s| ==> s[i] != '\r'
  }

  lemma {:induction false} NormaliseFixes(s: string)
    requires NoReturn(s)
    ensures Normalise(s) == s && ReplaceCrLf(s) == s
  {
    if s == "" {
    } else {
      NormaliseFixes(s[1..]);
      assert [s[0]] + s[1..] == s;
    }
  }

  /** A printed message holds no blank line, not even with the next line end. */
  lemma PrintIsABlock(m: Message)
    requires Plain(m)
    ensures NoBlankLine(Print(m) + "\n") && NoBlankLine(Print(m)) && NoReturn(Print(m))
    ensures Print(m) != "" && Print(m)[|Print(m)| - 1] != '\n' && Trim(Print(m)) != ""
  {
    hide Split, Trim, IsSpace, TrimStart, StartsWith;
    LinesOf(m);
    var head := if m.event == "" then "" else EventLine(m) + "\n";
    var d := DataLine(m);
    var s := Print(m) + "\n";
    assert Print(m) == head + d && |d| >= 6 && d[0] == 'd';
    assert forall i :: 0 <= i < |head| ==> s[i] == head[i];
    assert forall i :: 0 <= i < |d| ==> s[|head| + i] == d[i];
    assert head != "" ==> forall i :: 0 <= i < |head| - 1 ==> head[i] == EventLine(m)[i];
    assert Print(m)[|head|] == 'd';
    NotBlank(Print(m), |head|);
  }

  lemma NotBlank(s: string, i: nat)
    requires i < |s| && s[i] == 'd'
    ensures Trim(s) != ""
  {
    assert !IsSpace('d');
    TrimBlank(s);
  }

  lemma PrintEachCons(ms: seq<Message>)
    requires ms != []
    ensures PrintEach(ms) == [Print(ms[0])] + PrintEach(ms[1..])
  {
    hide Print;
  }

  lemma PrintEachSnoc(ms: seq<Message>)
    requires ms != []
    ensures PrintEach(ms) == PrintEach(ms[..|ms| - 1]) + [Print(ms[|ms| - 1])]
  {
    hide Print;
  }

  lemma PrintAllCons(ms: seq<Message>, rest: string)
    requires ms != []
    ensures PrintAll(ms) + rest == Print(ms[0]) + "\n\n" + (PrintAll(ms[1..]) + rest)
  {
    hide Print;
  }

  lemma NothingPrinted(rest: string)
    ensures PrintAll([]) + rest == rest && PrintEach([]) == []
  {
  }

  /** The framing loop cuts printed messages off the front of any text. */
  lemma {:induction false} PrintedDrain(ms: seq<Message>, rest: string)
    requires AllPlain(ms)
    ensures Drain(PrintAll(ms) + rest) == Framing(PrintEach(ms) + Drain(rest).blocks, Drain(rest).rest)
  {
    hide Drain, Print, PrintAll, PrintEach, Plain, NoBlankLine, NoReturn, Trim;
    if ms == [] {
      NothingPrinted(rest);
      assert [] + Drain(rest).blocks == Drain(rest).blocks;
    } else {
      PrintIsABlock(ms[0]);
      PrintedDrain(ms[1..], rest);
      PrintAllCons(ms, rest);
      PrintEachCons(ms);
      DrainCons(Print(ms[0]), PrintAll(ms[1..]) + rest);
      Assoc([Print(ms[0])], PrintEach(ms[1..]), Drain(rest).blocks);
    }
  }

  lemma NoReturnAppend(a: string, b: string)
    ensures NoReturn(a + b) <==> NoReturn(a) && NoReturn(b)
  {
    var s := a + b;
    assert forall i :: 0 <= i < |a| ==> s[i] == a[i];
    assert forall i :: 0 <= i < |b| ==> s[|a| + i] == b[i];
  }

  lemma {:induction false} PrintedNoReturn(ms: seq<Message>, rest: string)
    requires AllPlain(ms) && NoReturn(rest)
    ensures NoReturn(PrintAll(ms) + rest)
  {
    assert NoReturn("\n\n");
    hide Print, PrintAll, Plain, NoBlankLine, NoReturn, Trim;
    if ms == [] {
      NothingPrinted(rest);
    } else {
      PrintIsABlock(ms[0]);
      PrintedNoReturn(ms[1..], rest);
      PrintAllCons(ms, rest);
      NoReturnAppend(Print(ms[0]), "\n\n");
      NoReturnAppend(Print(ms[0]) + "\n\n", PrintAll(ms[1..]) + rest);
    }
  }

  lemma {:induction false} NoSplitPairs(before: string, chunks: seq<string>)
    requires NoReturn(before + Concat(chunks))
    ensures SplitPairs(before, chunks) == 0
    decreases |chunks|
  {
    if chunks == [] {
    } else {
      Assoc(before, chunks[0], Concat(chunks[1..]));
      NoSplitPairs(before + chunks[0], chunks[1..]);
      assert before != "" ==> (before + Concat(chunks))[|before| - 1] == before[|before| - 1];
    }
  }

  /** However the text is cut into chunks, the framing loop finds the messages. */
  lemma PrintedBlocks(chunks: seq<string>, ms: seq<Message>, rest: string)
    requires AllPlain(ms) && NoReturn(rest) && Concat(chunks) == PrintAll(ms) + rest
    ensures Drain(NormaliseChunks(chunks)) == Framing(PrintEach(ms) + Drain(rest).blocks, Drain(rest).rest)
  {
    hide Normalise, Drain, NoReturn, NormaliseChunks, SplitPairs, PrintAll, PrintEach, Plain, Print, Concat;
    PrintedDrain(ms, rest);
    PrintedNoReturn(ms, rest);
    assert "" + Concat(chunks) == Concat(chunks);
    NoSplitPairs("", chunks);
    ChunkedNormalisation(chunks);
    NormaliseFixes(Concat(chunks));
  }

  lemma OpenBlock(rest: string)
    requires NoBlankLine(rest)
    ensures Drain(rest) == Framing([], rest)
  {
    assert Unframe([], rest) == rest;
    DrainUnique([], rest);
  }

  // ----- what the readers make of messages -----

  /** What a message adds to the deltas of a reply. */
  function Said<E>(json: Json<E>, m: Message): seq<string> {
    if m == Message("", "") || m.data == "[DONE]" || json.delta(m.data) == "" then [] else [json.delta(m.data)]
  }

  function SaidByAll<E>(json: Json<E>, ms: seq<Message>): seq<string> {
    if ms == [] then [] else SaidByAll(json, ms[..|ms| - 1]) + Said(json, ms[|ms| - 1])
  }

  /** What a message signals on a live stream. */
  function Signalled<E>(json: Json<E>, m: Message): seq<Signal<E>> {
    if m.event == "ready" then [Ready]
    else if m == Message("", "") || (m.event != "" && m.event != "ops") then []
    else match json.event(m.data) case None => [] case Some(e) => [Event(e)]
  }

  function SignalledByAll<E>(json: Json<E>, ms: seq<Message>): seq<Signal<E>> {
    if ms == [] then [] else SignalledByAll(json, ms[..|ms| - 1]) + Signalled(json, ms[|ms| - 1])
  }

  ghost predicate NoErrors(ms: seq<Message>) {
    forall i :: 0 <= i < |ms| ==> ms[i].event != "error"
  }

  lemma MeaningOfPrinted<E>(json: Json<E>, m: Message)
    requires Plain(m)
    ensures IsError(Print(m)) <==> m.event == "error"
    ensures m.event != "error" ==> DeltaOf(json, Print(m)) == Said(json, m)
    ensures m.event != "error" ==> SignalOf(json, Print(m)) == Signalled(json, m)
    ensures m.event == "error" ==> DeltaOf(json, Print(m)) == [] && SignalOf(json, Print(m)) == []
  {
    hide EventOf, DataOf, Print, Plain;
    ReadsBack(m);
  }

  lemma {:induction false} PrintedMeans<E>(json: Json<E>, ms: seq<Message>)
    requires AllPlain(ms) && NoErrors(ms)
    ensures Deltas(json, PrintEach(ms)) == SaidByAll(json, ms)
    ensures Signals(json, PrintEach(ms)) == SignalledByAll(json, ms)
    ensures RunsOn(PrintEach(ms), IsError)
  {
    hide EventOf, DataOf, Print, Plain, PrintEach, IsError, DeltaOf, SignalOf, Said, Signalled, Concat;
    if ms == [] {
      NothingPrinted("");
    } else {
      var init, last := ms[..|ms| - 1], ms[|ms| - 1];
      PrintedMeans(json, init);
      MeaningOfPrinted(json, last);
      PrintEachSnoc(ms);
      DeltasSnoc(json, PrintEach(init), Print(last));
      SignalsSnoc(json, PrintEach(init), Print(last));
    }
  }

  predicate OpenOk(open: Option<Message>) {
    open.Some? ==> Plain(open.value) && open.value.event != "error"
  }

  function PrintOpen(open: Option<Message>): string {
    if open.Some? then Print(open.value) else ""
  }

  /** A stream of messages, the last of which may be left open. */
  lemma ReadChunks(chunks: seq<string>, ms: seq<Message>, open: Option<Message>)
    requires AllPlain(ms) && OpenOk(open) && Concat(chunks) == PrintAll(ms) + PrintOpen(open)
    ensures Drain(NormaliseChunks(chunks)) == Framing(PrintEach(ms), PrintOpen(open))
  {
    assert NoReturn("") && NoBlankLine("");
    hide Drain, NormaliseChunks, PrintEach, PrintAll, Print, Concat, NoReturn, NoBlankLine, Trim;
    if open.Some? {
      PrintIsABlock(open.value);
    }
    PrintedBlocks(chunks, ms, PrintOpen(open));
    OpenBlock(PrintOpen(open));
    assert PrintEach(ms) + [] == PrintEach(ms);
  }

  lemma EmptyTexts()
    ensures Normalise("") == "" && Trim("") == "" && Concat([]) == ""
  {
  }

  /** The block left over. */
  lemma LeftOver(text: string, closed: seq<string>, open: Option<Message>, end: StreamEnd)
    requires OpenOk(open) && Drain(text) == Framing(closed, PrintOpen(open))
    requires end.Broken? || end.tail == ""
    ensures ChatBlocks(text, end) == closed + if open.Some? && end.Closed? then [Print(open.value)] else []
  {
    hide Drain, Print, Plain, Trim, Normalise, NoBlankLine, NoReturn;
    EmptyTexts();
    if open.Some? {
      PrintIsABlock(open.value);
      var rest := Print(open.value);
      assert rest + "" == rest;
      assert StripLineEnds(rest) == rest;
    }
  }

  /** Blocks without an error are all flushed. */
  lemma FlushedAll<E>(json: Json<E>, blocks: seq<string>)
    requires RunsOn(blocks, IsError)
    ensures UpToError(blocks) == blocks && Failure(json, blocks) == None
  {
    hide IsError;
    TakenAll(blocks, IsError);
    FailureOfLast(json, blocks, "");
  }

  function SaidInAll<E>(json: Json<E>, ms: seq<Message>, open: Option<Message>, end: StreamEnd): seq<string> {
    SaidByAll(json, ms) + if open.Some? && end.Closed? then Said(json, open.value) else []
  }

  lemma BlocksMean<E>(json: Json<E>, ms: seq<Message>, open: Option<Message>, end: StreamEnd)
    requires AllPlain(ms) && NoErrors(ms) && OpenOk(open)
    ensures var blocks := PrintEach(ms) + if open.Some? && end.Closed? then [Print(open.value)] else [];
            Deltas(json, blocks) == SaidInAll(json, ms, open, end) && RunsOn(blocks, IsError)
  {
    hide Print, Plain, PrintEach, IsError, DeltaOf, Deltas, Said, SaidByAll, Concat;
    PrintedMeans(json, ms);
    if open.Some? && end.Closed? {
      MeaningOfPrinted(json, open.value);
      DeltasSnoc(json, PrintEach(ms), Print(open.value));
    } else {
      assert PrintEach(ms) + [] == PrintEach(ms) && SaidByAll(json, ms) + [] == SaidByAll(json, ms);
    }
  }

  /** The reply of a stream of messages, whatever its chunks: the deltas of the messages in order.
      A last message that the stream does not close counts like the others if the stream ends
      well, and not at all if it breaks. */
  lemma ChatReads<E>(json: Json<E>, chunks: seq<string>, ms: seq<Message>, open: Option<Message>, end: StreamEnd)
    requires AllPlain(ms) && NoErrors(ms) && OpenOk(open) && Concat(chunks) == PrintAll(ms) + PrintOpen(open)
    requires end.Broken? || end.tail == ""
    ensures var read := ChatResult(json, chunks, end);
            && read.deltas == SaidInAll(json, ms, open, end)
            && read.reply == Concat(read.deltas)
            && read.failure == if end.Broken? then Some(end.message) else None
  {
    hide Drain, NormaliseChunks, PrintEach, PrintAll, Print, PrintOpen, ChatBlocks, Concat, SaidInAll, Deltas;
    hide IsError, UpToError, Failure;
    ReadChunks(chunks, ms, open);
    BlocksMean(json, ms, open, end);
    LeftOver(NormaliseChunks(chunks), PrintEach(ms), open, end);
    FlushedAll(json, ChatBlocks(NormaliseChunks(chunks), end));
  }

  /** The signals of a live stream of messages, whatever its chunks; a message that the stream
      does not close signals nothing. */
  lemma LiveReads<E>(json: Json<E>, chunks: seq<string>, ms: seq<Message>, open: Option<Message>, end: StreamEnd)
    requires AllPlain(ms) && NoErrors(ms) && OpenOk(open) && Concat(chunks) == PrintAll(ms) + PrintOpen(open)
    ensures var read := StreamResult(json, chunks, end);
            && read.signals == SignalledByAll(json, ms)
            && read.failure == if end.Broken? then Some(end.message) else None
  {
    hide Drain, NormaliseChunks, PrintEach, PrintAll, Print, PrintOpen, Concat, Signals, SignalledByAll;
    hide IsError, UpToError, Failure;
    ReadChunks(chunks, ms, open);
    PrintedMeans(json, ms);
    FlushedAll(json, PrintEach(ms));
  }

  lemma ErrorBlocks(chunks: seq<string>, ms: seq<Message>, data: string, more: string)
    requires var m := Message("error", data);
             AllPlain(ms) && Plain(m) && NoReturn(more)
             && Concat(chunks) == PrintAll(ms) + (Print(m) + "\n\n" + more)
    ensures PrintEach(ms) + [Print(Message("error", data))] <= Drain(NormaliseChunks(chunks)).blocks
  {
    assert NoReturn("\n\n");
    hide Drain, NormaliseChunks, PrintEach, PrintAll, Print, Concat, NoReturn, NoBlankLine, Trim, Plain;
    var err := Print(Message("error", data));
    PrintIsABlock(Message("error", data));
    NoReturnAppend(err, "\n\n");
    NoReturnAppend(err + "\n\n", more);
    PrintedBlocks(chunks, ms, err + "\n\n" + more);
    DrainCons(err, more);
    Assoc(PrintEach(ms), [err], Drain(more).blocks);
  }

  lemma ErrorMeans<E>(json: Json<E>, ms: seq<Message>, data: string)
    requires AllPlain(ms) && NoErrors(ms) && Plain(Message("error", data))
    ensures var flushed := PrintEach(ms) + [Print(Message("error", data))];
            && Deltas(json, flushed) == SaidByAll(json, ms)
            && Signals(json, flushed) == SignalledByAll(json, ms)
            && Failure(json, flushed) == Some(json.error(data))
            && RunsOn(PrintEach(ms), IsError) && IsError(Print(Message("error", data)))
  {
    hide Print, Plain, PrintEach, DeltaOf, SignalOf, Deltas, Signals, SaidByAll, SignalledByAll, Concat;
    hide EventOf, DataOf;
    var err := Print(Message("error", data));
    PrintedMeans(json, ms);
    MeaningOfPrinted(json, Message("error", data));
    DeltasSnoc(json, PrintEach(ms), err);
    SignalsSnoc(json, PrintEach(ms), err);
    ReadsBack(Message("error", data));
    assert SaidByAll(json, ms) + [] == SaidByAll(json, ms);
    assert SignalledByAll(json, ms) + [] == SignalledByAll(json, ms);
  }

  /** An error message ends both readers with its text: what came before it is handed over, what
      comes after it is not. */
  lemma ErrorsThrow<E>(
      json: Json<E>, chunks: seq<string>, ms: seq<Message>, data: string, more: string, end: StreamEnd)
    requires AllPlain(ms) && NoErrors(ms) && Plain(Message("error", data)) && NoReturn(more)
    requires Concat(chunks) == PrintAll(ms) + ("event: error\ndata: " + data + "\n\n" + more)
    ensures var chat, live := ChatResult(json, chunks, end), StreamResult(json, chunks, end);
            && chat.failure == live.failure == Some(json.error(data))
            && chat.deltas == SaidByAll(json, ms)
            && live.signals == SignalledByAll(json, ms)
  {
    PrintError(data, more);
    hide Drain, NormaliseChunks, PrintEach, PrintAll, Print, Concat, Plain, Deltas, Signals, SaidByAll, SignalledByAll;
    hide IsError, Failure;
    ErrorBlocks(chunks, ms, data, more);
    ErrorMeans(json, ms, data);
    var flushed, err := PrintEach(ms), Print(Message("error", data));
    assert chunks[..|chunks|] == chunks;
    EndAtError(chunks, |chunks|, flushed, err, end);
  }

  lemma PrintError(data: string, more: string)
    ensures Print(Message("error", data)) + "\n\n" + more == "event: error\ndata: " + data + "\n\n" + more
  {
    assert "event: " + "error" + "\n" + ("data: " + data) == "event: error\ndata: " + data;
  }

  // ----- the same on the bare texts -----

  /** One line that no reader cuts shorter, with a delta in it. */
  predicate Speaks<E>(json: Json<E>, d: string) {
    && OneLine(d) && d != "" && !IsSpace(d[0]) && d != "[DONE]" && json.delta(d) != ""
  }

  function DataMessages(ds: seq<string>): (ms: seq<Message>)
    ensures |ms| == |ds| && forall i :: 0 <= i < |ms| ==> ms[i] == Message("", ds[i])
  {
    seq(|ds|, i requires 0 <= i < |ds| => Message("", ds[i]))
  }

  /** Data blocks laid end to end. */
  function DataBlocks(ds: seq<string>): string {
    if ds == [] then "" else "data: " + ds[0] + "\n\n" + DataBlocks(ds[1..])
  }

  lemma {:induction false} DataBlocksPrint(ds: seq<string>)
    ensures PrintAll(DataMessages(ds)) == DataBlocks(ds)
  {
    if ds == [] {
    } else {
      DataBlocksPrint(ds[1..]);
      assert DataMessages(ds)[1..] == DataMessages(ds[1..]);
      assert Print(Message("", ds[0])) == "data: " + ds[0];
    }
  }

  lemma DataMessagesSnoc(ds: seq<string>)
    requires ds != []
    ensures DataMessages(ds) == DataMessages(ds[..|ds| - 1]) + [Message("", ds[|ds| - 1])]
  {
  }

  lemma OneMore<E>(json: Json<E>, ms: seq<Message>, m: Message)
    ensures SaidByAll(json, ms + [m]) == SaidByAll(json, ms) + Said(json, m)
    ensures SignalledByAll(json, ms + [m]) == SignalledByAll(json, ms) + Signalled(json, m)
    ensures AllPlain(ms) && Plain(m) ==> AllPlain(ms + [m])
    ensures NoErrors(ms) && m.event != "error" ==> NoErrors(ms + [m])
  {
    hide Plain, Said, Signalled;
    assert (ms + [m])[..|ms|] == ms;
  }

  lemma PlainData(d: string)
    requires OneLine(d) && d != "" && !IsSpace(d[0])
    ensures Plain(Message("", d))
  {
  }

  lemma {:induction false} SaidBySpeakers<E>(json: Json<E>, ds: seq<string>)
    requires forall i :: 0 <= i < |ds| ==> Speaks(json, ds[i])
    ensures SaidByAll(json, DataMessages(ds)) == seq(|ds|, i requires 0 <= i < |ds| => json.delta(ds[i]))
    ensures AllPlain(DataMessages(ds)) && NoErrors(DataMessages(ds))
  {
    hide Plain, SaidByAll, SignalledByAll, OneLine, IsSpace;
    if ds == [] {
      NothingSaid(json);
    } else {
      var n := |ds| - 1;
      var m := Message("", ds[n]);
      SaidBySpeakers(json, ds[..n]);
      DataMessagesSnoc(ds);
      assert Speaks(json, ds[n]);
      PlainData(ds[n]);
      OneMore(json, DataMessages(ds[..n]), m);
      assert Said(json, m) == [json.delta(ds[n])];
    }
  }

  lemma NothingSaid<E>(json: Json<E>)
    ensures SaidByAll(json, []) == [] && SignalledByAll(json, []) == []
  {
  }

  /** Data blocks laid end to end, however they are cut into chunks, give their deltas in order. */
  lemma DataBlocksAreHeard<E>(json: Json<E>, chunks: seq<string>, ds: seq<string>, end: StreamEnd)
    requires forall i :: 0 <= i < |ds| ==> Speaks(json, ds[i])
    requires Concat(chunks) == DataBlocks(ds) && (end.Broken? || end.tail == "")
    ensures var read := ChatResult(json, chunks, end);
            && read.deltas == seq(|ds|, i requires 0 <= i < |ds| => json.delta(ds[i]))
            && read.reply == Concat(read.deltas)
            && read.failure == if end.Broken? then Some(end.message) else None
  {
    hide Speaks, Concat, ChatResult, Deltas, SaidByAll, PrintAll, DataBlocks;
    SaidBySpeakers(json, ds);
    DataBlocksPrint(ds);
    var ms := DataMessages(ds);
    assert DataBlocks(ds) + PrintOpen(None) == DataBlocks(ds);
    ChatReads(json, chunks, ms, None, end);
    assert SaidByAll(json, ms) + [] == SaidByAll(json, ms);
  }

  lemma OneDataBlock(d: string)
    ensures DataBlocks([d]) == "data: " + d + "\n\n" && DataBlocks([]) == ""
  {
    assert [d][1..] == [];
  }

  /** One data block gives its delta; an open one gives it too, if the stream ends well. */
  lemma OneBlockIsHeard<E>(json: Json<E>, chunks: seq<string>, d: string)
    requires Speaks(json, d)
    ensures Concat(chunks) == "data: " + d + "\n\n" || Concat(chunks) == "data: " + d ==>
              var read := ChatResult(json, chunks, Closed(""));
              read.deltas == [json.delta(d)] && read.reply == json.delta(d) && read.failure == None
  {
    OneDataBlock(d);
    ConcatCons(json.delta(d), []);
    var m := Message("", d);
    assert Plain(m) && Print(m) == "data: " + d && Said(json, m) == [json.delta(d)];
    hide Speaks, ChatResult, Plain, Print, Said, Deltas;
    assert Concat([]) == "";
    if Concat(chunks) == "data: " + d + "\n\n" {
      DataBlocksAreHeard(json, chunks, [d], Closed(""));
    } else if Concat(chunks) == "data: " + d {
      assert PrintAll([]) + PrintOpen(Some(m)) == Print(m);
      assert SaidByAll(json, []) + [json.delta(d)] == [json.delta(d)];
      ChatReads(json, chunks, [], Some(m), Closed(""));
    }
  }

  lemma {:induction false} PrintAllSnoc(ms: seq<Message>, m: Message)
    ensures PrintAll(ms + [m]) == PrintAll(ms) + (Print(m) + "\n\n")
  {
    hide Print;
    if ms == [] {
      assert [] + [m] == [m] && [m][1..] == [];
    } else {
      PrintAllSnoc(ms[1..], m);
      assert (ms + [m])[1..] == ms[1..] + [m];
    }
  }

  lemma ClosingMark<E>(json: Json<E>)
    ensures var m := Message("", "[DONE]");
            Plain(m) && Said(json, m) == [] && Print(m) + "\n\n" == "data: [DONE]\n\n"
  {
  }

  /** The closing mark of a reply adds nothing to it. */
  lemma DoneAddsNothing<E>(json: Json<E>, chunks: seq<string>, ds: seq<string>)
    requires forall i :: 0 <= i < |ds| ==> Speaks(json, ds[i])
    requires Concat(chunks) == DataBlocks(ds) + "data: [DONE]\n\n"
    ensures var read := ChatResult(json, chunks, Closed(""));
            && read.deltas == seq(|ds|, i requires 0 <= i < |ds| => json.delta(ds[i]))
            && read.failure == None
  {
    var ms, m := DataMessages(ds), Message("", "[DONE]");
    ClosingMark(json);
    hide Speaks, Concat, ChatResult, Deltas, PrintAll, DataBlocks, Plain, Print, Said, OneLine, Trimmed;
    SaidBySpeakers(json, ds);
    DataBlocksPrint(ds);
    PrintAllSnoc(ms, m);
    assert PrintAll(ms + [m]) + PrintOpen(None) == DataBlocks(ds) + "data: [DONE]\n\n";
    assert (ms + [m])[..|ms|] == ms;
    ChatReads(json, chunks, ms + [m], None, Closed(""));
    assert SaidByAll(json, ms) + [] == SaidByAll(json, ms);
  }

  /** An error block throws its message after the deltas of the blocks before it, and nothing
      behind it is heard. */
  lemma ErrorBlockThrows<E>(
      json: Json<E>, chunks: seq<string>, ds: seq<string>, d: string, more: string, end: StreamEnd)
    requires forall i :: 0 <= i < |ds| ==> Speaks(json, ds[i])
    requires OneLine(d) && (d != "" ==> !IsSpace(d[0])) && NoReturn(more)
    requires Concat(chunks) == DataBlocks(ds) + ("event: error\ndata: " + d + "\n\n" + more)
    ensures var chat, live := ChatResult(json, chunks, end), StreamResult(json, chunks, end);
            && chat.failure == live.failure == Some(json.error(d))
            && chat.deltas == seq(|ds|, i requires 0 <= i < |ds| => json.delta(ds[i]))
  {
    assert Plain(Message("error", d));
    hide Speaks, Concat, ChatResult, StreamResult, PrintAll, DataBlocks, Plain, SaidByAll, OneLine, NoReturn;
    SaidBySpeakers(json, ds);
    DataBlocksPrint(ds);
    ErrorsThrow(json, chunks, DataMessages(ds), d, more, end);
  }

  // ----- the live reader on the bare texts -----

  /** One line that no reader cuts shorter, with the event `e` in it. */
  predicate Tells<E(==)>(json: Json<E>, d: string, e: E) {
    OneLine(d) && d != "" && !IsSpace(d[0]) && json.event(d) == Some(e)
  }

  function EachEvent<E>(es: seq<E>): (r: seq<Signal<E>>)
    ensures |r| == |es| && forall i :: 0 <= i < |es| ==> r[i] == Event(es[i])
  {
    seq(|es|, i requires 0 <= i < |es| => Event(es[i]))
  }

  lemma {:induction false} SignalsOfTellers<E>(json: Json<E>, ds: seq<string>, es: seq<E>)
    requires |ds| == |es| && forall i :: 0 <= i < |ds| ==> Tells(json, ds[i], es[i])
    ensures SignalledByAll(json, DataMessages(ds)) == EachEvent(es)
    ensures AllPlain(DataMessages(ds)) && NoErrors(DataMessages(ds))
  {
    hide Plain, SaidByAll, SignalledByAll, OneLine, IsSpace;
    if ds == [] {
      NothingSaid(json);
    } else {
      var n := |ds| - 1;
      var m := Message("", ds[n]);
      SignalsOfTellers(json, ds[..n], es[..n]);
      DataMessagesSnoc(ds);
      assert Tells(json, ds[n], es[n]);
      PlainData(ds[n]);
      OneMore(json, DataMessages(ds[..n]), m);
      assert Signalled(json, m) == [Event(es[n])];
    }
  }

  /** Data blocks laid end to end give their events in order. */
  lemma EventsAreSignalled<E>(json: Json<E>, chunks: seq<string>, ds: seq<string>, es: seq<E>, end: StreamEnd)
    requires |ds| == |es| && forall i :: 0 <= i < |ds| ==> Tells(json, ds[i], es[i])
    requires Concat(chunks) == DataBlocks(ds)
    ensures var read := StreamResult(json, chunks, end);
            && read.signals == EachEvent(es)
            && read.failure == if end.Broken? then Some(end.message) else None
  {
    hide Concat, StreamResult, Signals, SignalledByAll, PrintAll, DataBlocks, Tells;
    SignalsOfTellers(json, ds, es);
    DataBlocksPrint(ds);
    assert DataBlocks(ds) + PrintOpen(None) == DataBlocks(ds);
    LiveReads(json, chunks, DataMessages(ds), None, end);
  }

  lemma OneMessage<E>(json: Json<E>, m: Message)
    requires Plain(m) && m.event != "error"
    ensures AllPlain([m]) && NoErrors([m])
    ensures SignalledByAll(json, [m]) == Signalled(json, m)
    ensures PrintAll([m]) + PrintOpen(None) == Print(m) + "\n\n"
  {
    hide Plain, Print, Signalled;
    assert [m][..0] == [] && [m][1..] == [];
    assert SignalledByAll(json, [m]) == [] + Signalled(json, m);
  }

  lemma PrintNamed(name: string, d: string)
    requires name != ""
    ensures Print(Message(name, d)) + "\n\n" == "event: " + name + "\ndata: " + d + "\n\n"
  {
    assert ("event: " + name + "\n") + ("data: " + d) == "event: " + name + "\ndata: " + d;
  }

  /** A named block: "ops" signals its event, "ready" that the stream is ready, and any other name
      but "error" nothing. */
  lemma NamedBlockSignals<E>(json: Json<E>, chunks: seq<string>, name: string, d: string, end: StreamEnd)
    requires OneLine(name) && Trimmed(name) && name != "" && name != "error"
    requires OneLine(d) && (d != "" ==> !IsSpace(d[0]))
    requires Concat(chunks) == "event: " + name + "\ndata: " + d + "\n\n"
    ensures var read := StreamResult(json, chunks, end);
            && (name == "ready" ==> read.signals == [Ready])
            && (name == "ops" && json.event(d).Some? ==> read.signals == [Event(json.event(d).value)])
            && (name == "ops" && json.event(d).None? ==> read.signals == [])
            && (name != "ready" && name != "ops" ==> read.signals == [])
            && read.failure == if end.Broken? then Some(end.message) else None
  {
    hide Concat, StreamResult, SignalledByAll, PrintAll, Print, OneLine, Trimmed, IsSpace;
    PrintNamed(name, d);
    OneMessage(json, Message(name, d));
    LiveReads(json, chunks, [Message(name, d)], None, end);
  }
}
