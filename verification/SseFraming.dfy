/** Event-stream framing: decoded chunks in, blocks out. Two readers share the loop,
    the chat reply reader of client.ts and the live event reader of events.ts. */
module SseFraming {
  import opened Basics
  import opened Text

  // ----- line ends, normalised one chunk at a time -----

  /** replace(/\r\n/g, "\n") */
  function ReplaceCrLf(s: string): string {
    if s == "" then ""
    else if |s| >= 2 && s[0] == '\r' && s[1] == '\n' then "\n" + ReplaceCrLf(s[2..])
    else [s[0]] + ReplaceCrLf(s[1..])
  }

  /** replace(/\r/g, "\n") */
  function ReplaceCr(s: string): string {
    seq(|s|, i requires 0 <= i < |s| => if s[i] == '\r' then '\n' else s[i])
  }

  function Normalise(s: string): string {
    ReplaceCr(ReplaceCrLf(s))
  }

  function NormaliseEach(chunks: seq<string>): seq<string> {
    seq(|chunks|, i requires 0 <= i < |chunks| => Normalise(chunks[i]))
  }

  /** The text the framing loop sees: every chunk normalised on its own. */
  function NormaliseChunks(chunks: seq<string>): string {
    Concat(NormaliseEach(chunks))
  }

  predicate SplitsPair(a: string, b: string) {
    a != "" && a[|a| - 1] == '\r' && b != "" && b[0] == '\n'
  }

  /** How many CR LF pairs have their two halves in different chunks; `before` is the text
      already read. */
  function SplitPairs(before: string, chunks: seq<string>): nat
    decreases |chunks|
  {
    if chunks == [] then 0
    else (if SplitsPair(before, chunks[0]) then 1 else 0) + SplitPairs(before + chunks[0], chunks[1..])
  }

  lemma ReplaceCrLfStep(s: string, n: nat)
    requires |s| >= 2 && n == if s[0] == '\r' && s[1] == '\n' then 2 else 1
    ensures ReplaceCrLf(s) == [if n == 2 then '\n' else s[0]] + ReplaceCrLf(s[n..])
  {
  }

  lemma ReplaceCrLfShort(a: string, b: string)
    requires |a| <= 1
    ensures !SplitsPair(a, b) ==> ReplaceCrLf(a + b) == ReplaceCrLf(a) + ReplaceCrLf(b)
    ensures |ReplaceCrLf(a)| + |ReplaceCrLf(b)| == |ReplaceCrLf(a + b)| + (if SplitsPair(a, b) then 1 else 0)
  {
    var s := a + b;
    if a == "" {
      assert s == b;
    } else {
      assert s[1..] == b && a[1..] == "";
      assert |b| > 0 ==> s[1] == b[0] && s[2..] == b[1..];
    }
  }

  lemma {:induction false} ReplaceCrLfAppend(a: string, b: string)
    ensures !SplitsPair(a, b) ==> ReplaceCrLf(a + b) == ReplaceCrLf(a) + ReplaceCrLf(b)
    ensures |ReplaceCrLf(a)| + |ReplaceCrLf(b)| == |ReplaceCrLf(a + b)| + (if SplitsPair(a, b) then 1 else 0)
  {
    hide ReplaceCrLf;
    if |a| <= 1 {
      ReplaceCrLfShort(a, b);
    } else {
      var s := a + b;
      var n := if a[0] == '\r' && a[1] == '\n' then 2 else 1;
      ReplaceCrLfAppend(a[n..], b);
      assert s[n..] == a[n..] + b;
      assert s[0] == a[0] && s[1] == a[1];
      assert n == 2 && |a| == 2 ==> !SplitsPair(a, b);
      ReplaceCrLfStep(s, n);
      ReplaceCrLfStep(a, n);
    }
  }

  lemma NormaliseAppend(a: string, b: string)
    ensures !SplitsPair(a, b) ==> Normalise(a + b) == Normalise(a) + Normalise(b)
    ensures |Normalise(a)| + |Normalise(b)| == |Normalise(a + b)| + (if SplitsPair(a, b) then 1 else 0)
  {
    ReplaceCrLfAppend(a, b);
  }

  lemma NormaliseChunksCons(chunks: seq<string>)
    requires chunks != []
    ensures NormaliseChunks(chunks) == Normalise(chunks[0]) + NormaliseChunks(chunks[1..])
  {
    ConcatCons(Normalise(chunks[0]), NormaliseEach(chunks[1..]));
    assert NormaliseEach(chunks) == [Normalise(chunks[0])] + NormaliseEach(chunks[1..]);
  }

  lemma {:induction false} NormaliseChunksAfter(before: string, chunks: seq<string>)
    ensures |Normalise(before)| + |NormaliseChunks(chunks)|
         == |Normalise(before + Concat(chunks))| + SplitPairs(before, chunks)
    ensures SplitPairs(before, chunks) == 0 ==>
              Normalise(before) + NormaliseChunks(chunks) == Normalise(before + Concat(chunks))
    decreases |chunks|
  {
    if chunks == [] {
      assert before + Concat(chunks) == before;
    } else {
      hide Normalise, NormaliseChunks;
      var x, rest := chunks[0], chunks[1..];
      NormaliseAppend(before, x);
      NormaliseChunksAfter(before + x, rest);
      NormaliseChunksCons(chunks);
      Assoc(before, x, Concat(rest));
      Assoc(Normalise(before), Normalise(x), NormaliseChunks(rest));
    }
  }

  /** Normalising chunk by chunk is normalising the whole text exactly when no CR LF pair is
      split over two chunks; every split pair costs one extra line end. */
  lemma ChunkedNormalisation(chunks: seq<string>)
    ensures NormaliseChunks(chunks) == Normalise(Concat(chunks)) <==> SplitPairs("", chunks) == 0
    ensures |NormaliseChunks(chunks)| == |Normalise(Concat(chunks))| + SplitPairs("", chunks)
  {
    NormaliseChunksAfter("", chunks);
    assert "" + Concat(chunks) == Concat(chunks);
    assert Normalise("") == "";
  }

  lemma NormaliseChunksAppend(a: seq<string>, b: seq<string>)
    ensures NormaliseChunks(a + b) == NormaliseChunks(a) + NormaliseChunks(b)
  {
    ConcatAppend(NormaliseEach(a), NormaliseEach(b));
    assert NormaliseEach(a + b) == NormaliseEach(a) + NormaliseEach(b);
  }

  // ----- cutting at blank lines -----

  /** buf.indexOf("\n\n") */
  function BlankLine(s: string): (i: int)
    ensures -1 <= i
    ensures i >= 0 ==> i + 1 < |s| && s[i] == '\n' && s[i + 1] == '\n'
    ensures forall k: nat :: (i < 0 || k < i) && k + 1 < |s| ==> !(s[k] == '\n' && s[k + 1] == '\n')
  {
    if |s| < 2 then -1
    else if s[0] == '\n' && s[1] == '\n' then 0
    else
      var r := BlankLine(s[1..]);
      assert forall k :: 1 <= k && k + 1 < |s| ==> s[k] == s[1..][k - 1] && s[k + 1] == s[1..][k];
      if r < 0 then -1 else r + 1
  }

  datatype Framing = Framing(blocks: seq<string>, rest: string)

  /** What the draining loop takes out of a buffer, and what it leaves in it. */
  function Drain(buf: string): Framing {
    var i := BlankLine(buf);
    if i < 0 then Framing([], buf)
    else
      var f := Drain(buf[i + 2..]);
      Framing([buf[..i]] + f.blocks, f.rest)
  }

  predicate NoBlankLine(s: string) {
    forall k :: 0 <= k && k + 1 < |s| ==> !(s[k] == '\n' && s[k + 1] == '\n')
  }

  /** The blocks with their separators, then the rest: the text again. */
  function Unframe(blocks: seq<string>, rest: string): string {
    if blocks == [] then rest else blocks[0] + "\n\n" + Unframe(blocks[1..], rest)
  }

  /** A block closed at the leftmost blank line has none inside, not even across its end. */
  ghost predicate WellFramed(blocks: seq<string>, rest: string) {
    && (forall b :: b in blocks ==> NoBlankLine(b + "\n"))
    && NoBlankLine(rest)
  }

  lemma UnframeCons(b: string, blocks: seq<string>, rest: string)
    ensures Unframe([b] + blocks, rest) == b + "\n\n" + Unframe(blocks, rest)
  {
    assert ([b] + blocks)[1..] == blocks;
  }

  /** The blocks and the rest put together are the buffer, and none of them holds a blank line. */
  lemma {:induction false} DrainFrames(buf: string)
    ensures WellFramed(Drain(buf).blocks, Drain(buf).rest)
    ensures Unframe(Drain(buf).blocks, Drain(buf).rest) == buf
  {
    var i := BlankLine(buf);
    if i >= 0 {
      var b, tail := buf[..i], buf[i + 2..];
      var f := Drain(tail);
      DrainFrames(tail);
      UnframeCons(b, f.blocks, f.rest);
      assert buf == b + "\n\n" + tail;
      assert b + "\n" == buf[..i + 1];
      assert NoBlankLine(b + "\n");
    }
  }

  lemma BlankLineOfBlock(b: string, tail: string)
    requires NoBlankLine(b + "\n")
    ensures BlankLine(b + "\n\n" + tail) == |b|
  {
    var s := b + "\n\n" + tail;
    assert s[|b|] == '\n' && s[|b| + 1] == '\n';
    assert forall k: nat :: k <= |b| ==> s[k] == (b + "\n")[k];
  }

  lemma DrainCons(b: string, tail: string)
    requires NoBlankLine(b + "\n")
    ensures Drain(b + "\n\n" + tail) == Framing([b] + Drain(tail).blocks, Drain(tail).rest)
  {
    var s := b + "\n\n" + tail;
    BlankLineOfBlock(b, tail);
    assert s[..|b|] == b && s[|b| + 2..] == tail;
  }

  /** The cut is the only one: any framing of a text into such blocks is Drain's. */
  lemma {:induction false} DrainUnique(blocks: seq<string>, rest: string)
    requires WellFramed(blocks, rest)
    ensures Drain(Unframe(blocks, rest)) == Framing(blocks, rest)
  {
    if blocks == [] {
    } else {
      DrainUnique(blocks[1..], rest);
      DrainCons(blocks[0], Unframe(blocks[1..], rest));
      assert [blocks[0]] + blocks[1..] == blocks;
    }
  }

  lemma {:induction false} UnframeAppend(a: seq<string>, b: seq<string>, rest: string, more: string)
    ensures Unframe(a + b, rest) == Unframe(a, Unframe(b, rest))
    ensures Unframe(a, rest + more) == Unframe(a, rest) + more
  {
    if a == [] {
      assert a + b == b;
    } else {
      UnframeAppend(a[1..], b, rest, more);
      assert (a + b)[1..] == a[1..] + b;
    }
  }

  /** Draining early and going on with the rest takes out the same blocks as draining once. */
  lemma DrainAppend(a: string, b: string)
    ensures Drain(a + b)
         == Framing(Drain(a).blocks + Drain(Drain(a).rest + b).blocks, Drain(Drain(a).rest + b).rest)
  {
    var f := Drain(a);
    var g := Drain(f.rest + b);
    DrainFrames(a);
    DrainFrames(f.rest + b);
    UnframeAppend(f.blocks, g.blocks, g.rest, "");
    UnframeAppend(f.blocks, [], f.rest, b);
    DrainUnique(f.blocks + g.blocks, g.rest);
  }

  // ----- fields of one block -----

  /** The value of the last "event:" or "id:" line, trimmed. */
  function LastField(lines: seq<string>, name: string): string {
    if lines == [] then ""
    else
      var line := lines[|lines| - 1];
      if StartsWith(line, name) then Trim(line[|name|..]) else LastField(lines[..|lines| - 1], name)
  }

  /** The values of the "data:" lines, in order, without leading white space. */
  function DataParts(lines: seq<string>): seq<string> {
    if lines == [] then []
    else (if StartsWith(lines[0], "data:") then [TrimStart(lines[0][5..])] else []) + DataParts(lines[1..])
  }

  function SkipEmpty(parts: seq<string>): seq<string> {
    if parts != [] && parts[0] == "" then SkipEmpty(parts[1..]) else parts
  }

  /** Both readers join data lines with a line feed, but forget leading empty ones. */
  function Data(lines: seq<string>): string {
    Join(SkipEmpty(DataParts(lines)), "\n")
  }

  lemma {:induction false} DataPartsSnoc(lines: seq<string>, line: string)
    ensures DataParts(lines + [line])
         == DataParts(lines) + (if StartsWith(line, "data:") then [TrimStart(line[5..])] else [])
  {
    if lines == [] {
      assert lines + [line] == [line];
      assert [line][1..] == [];
    } else {
      DataPartsSnoc(lines[1..], line);
      assert (lines + [line])[1..] == lines[1..] + [line];
    }
  }

  lemma {:induction false} SkipEmptySnoc(parts: seq<string>, p: string)
    ensures SkipEmpty(parts + [p])
         == if SkipEmpty(parts) != [] then SkipEmpty(parts) + [p] else if p == "" then [] else [p]
    ensures SkipEmpty(parts) != [] ==> Join(SkipEmpty(parts), "\n") != ""
  {
    if parts == [] {
      assert parts + [p] == [p];
    } else {
      assert (parts + [p])[0] == parts[0];
      assert (parts + [p])[1..] == parts[1..] + [p];
      SkipEmptySnoc(parts[1..], p);
    }
  }

  /** One more data line: a line feed goes in between unless nothing has been kept yet. */
  lemma DataSnoc(lines: seq<string>, line: string)
    requires StartsWith(line, "data:")
    ensures var part := TrimStart(line[5..]);
            Data(lines + [line]) == if Data(lines) != "" then Data(lines) + "\n" + part else part
  {
    var parts, part := DataParts(lines), TrimStart(line[5..]);
    DataPartsSnoc(lines, line);
    SkipEmptySnoc(parts, part);
    if SkipEmpty(parts) != [] {
      JoinSnoc(SkipEmpty(parts), "\n", part);
    }
  }

  lemma DataSame(lines: seq<string>, line: string)
    requires !StartsWith(line, "data:")
    ensures Data(lines + [line]) == Data(lines)
  {
    DataPartsSnoc(lines, line);
    assert DataParts(lines) + [] == DataParts(lines);
  }

  // ----- the Standard's data buffer -----

  /** What section 9.2.6 of the WHATWG HTML Standard appends to the data buffer for one line: the
      text behind "data:" without one leading space, or nothing for a bare "data". */
  function StdPart(line: string): seq<string> {
    if line == "data" then [""]
    else if StartsWith(line, "data:") then
      var value := line[5..];
      [if StartsWith(value, " ") then value[1..] else value]
    else []
  }

  function StdParts(lines: seq<string>): seq<string> {
    if lines == [] then [] else StdPart(lines[0]) + StdParts(lines[1..])
  }

  /** The data of the event that the Standard dispatches: its data buffer without the last line
      feed. */
  function StdData(lines: seq<string>): string {
    Join(StdParts(lines), "\n")
  }

  /** No white space begins the value but the one space that the Standard takes off. */
  predicate PlainValue(line: string) {
    StartsWith(line, "data:") ==> forall part :: part in StdPart(line) ==> part == "" || !IsSpace(part[0])
  }

  /** The blocks on which the readers find the Standard's data: plain values and, if there are two
      data lines or more, none of them bare and the first one not empty. */
  ghost predicate ReadAsStandard(lines: seq<string>) {
    && (forall line :: line in lines ==> PlainValue(line))
    && (|StdParts(lines)| >= 2 ==> "data" !in lines && StdParts(lines)[0] != "")
  }

  function Total(parts: seq<string>): nat {
    if parts == [] then 0 else |parts[0]| + Total(parts[1..])
  }

  lemma TotalCons(x: string, rest: seq<string>)
    ensures Total([x] + rest) == |x| + Total(rest)
  {
    assert ([x] + rest)[1..] == rest;
  }

  lemma {:induction false} JoinLength(parts: seq<string>)
    ensures |Join(parts, "\n")| == Total(parts) + if parts == [] then 0 else |parts| - 1
  {
    if |parts| > 1 {
      JoinLength(parts[1..]);
    } else if |parts| == 1 {
      assert Total(parts[1..]) == 0;
    }
  }

  lemma {:induction false} SkipEmptyLength(parts: seq<string>)
    ensures Total(SkipEmpty(parts)) == Total(parts) && |SkipEmpty(parts)| <= |parts|
    ensures |SkipEmpty(parts)| == |parts| <==> parts == [] || parts[0] != ""
    ensures |SkipEmpty(parts)| == |parts| ==> SkipEmpty(parts) == parts
  {
    if parts != [] && parts[0] == "" {
      SkipEmptyLength(parts[1..]);
    }
  }

  /** TrimStart takes off at least what the Standard takes off. */
  lemma LineValue(line: string)
    requires StartsWith(line, "data:")
    ensures |StdPart(line)| == 1 && |TrimStart(line[5..])| <= |StdPart(line)[0]|
    ensures |TrimStart(line[5..])| == |StdPart(line)[0]| <==> PlainValue(line)
    ensures PlainValue(line) ==> StdPart(line) == [TrimStart(line[5..])]
  {
    var value := line[5..];
    var part := if StartsWith(value, " ") then value[1..] else value;
    assert line != "data" && StdPart(line) == [part];
    TrimStartShape(part);
    assert IsSpace(' ');
    assert StartsWith(value, " ") ==> value[0] == ' ' && TrimStart(value) == TrimStart(part);
    assert PlainValue(line) <==> part == "" || !IsSpace(part[0]);
  }

  /** What one more line in front adds to the parts of both readings. */
  lemma OneLine(line: string, rest: seq<string>)
    ensures StdParts([line] + rest) == StdPart(line) + StdParts(rest)
    ensures DataParts([line] + rest)
         == (if StartsWith(line, "data:") then [TrimStart(line[5..])] else []) + DataParts(rest)
    ensures StartsWith(line, "data:") ==> line != "data"
    ensures !StartsWith(line, "data:") ==> StdPart(line) == if line == "data" then [""] else []
  {
    assert ([line] + rest)[1..] == rest;
  }

  /** The two readings part by part: as many parts unless a line is bare, as long in all unless a
      value is not plain, and equal if neither. */
  lemma {:induction false} PartsCompare(lines: seq<string>)
    ensures |DataParts(lines)| <= |StdParts(lines)| && Total(DataParts(lines)) <= Total(StdParts(lines))
    ensures |DataParts(lines)| == |StdParts(lines)| <==> "data" !in lines
    ensures Total(DataParts(lines)) == Total(StdParts(lines)) <==> forall line :: line in lines ==> PlainValue(line)
    ensures |DataParts(lines)| == |StdParts(lines)| && Total(DataParts(lines)) == Total(StdParts(lines)) ==>
              DataParts(lines) == StdParts(lines)
  {
    if lines == [] {
      return;
    }
    hide DataParts, StdParts, StdPart, PlainValue, TrimStart, Total, StartsWith;
    var line, rest := lines[0], lines[1..];
    assert lines == [line] + rest;
    PartsCompare(rest);
    OneLine(line, rest);
    if StartsWith(line, "data:") {
      LineValue(line);
      var value, part := TrimStart(line[5..]), StdPart(line)[0];
      assert StdPart(line) == [part];
      TotalCons(value, DataParts(rest));
      TotalCons(part, StdParts(rest));
    } else {
      NoDataLine(line);
      TotalCons("", StdParts(rest));
      assert [] + DataParts(rest) == DataParts(rest) && [] + StdParts(rest) == StdParts(rest);
    }
  }

  lemma NoDataLine(line: string)
    requires !StartsWith(line, "data:")
    ensures PlainValue(line)
  {
  }

  /** The readers find the data that the Standard dispatches on exactly these blocks. */
  lemma DataMeetsStandard(lines: seq<string>)
    ensures Data(lines) == StdData(lines) <==> ReadAsStandard(lines)
  {
    var ours, theirs := DataParts(lines), StdParts(lines);
    PartsCompare(lines);
    SkipEmptyLength(ours);
    JoinLength(SkipEmpty(ours));
    JoinLength(theirs);
    hide Join, SkipEmpty, DataParts, StdParts, PlainValue, Total;
    if |theirs| < 2 && Total(ours) == Total(theirs) {
      FewParts(ours, theirs);
    }
  }

  lemma FewParts(ours: seq<string>, theirs: seq<string>)
    requires |ours| <= |theirs| < 2 && Total(ours) == Total(theirs) && (|ours| == |theirs| ==> ours == theirs)
    ensures Join(SkipEmpty(ours), "\n") == Join(theirs, "\n")
  {
  }

  lemma DataOfParts(lines: seq<string>, ours: seq<string>, theirs: seq<string>)
    requires DataParts(lines) == ours && StdParts(lines) == theirs
    ensures Data(lines) == Join(SkipEmpty(ours), "\n") && StdData(lines) == Join(theirs, "\n")
  {
  }

  /** The value of a data line without spaces in front. */
  lemma PlainLine(part: string)
    requires part == "" || !IsSpace(part[0])
    ensures StdPart("data:" + part) == [part] && TrimStart(("data:" + part)[5..]) == part
    ensures StartsWith("data:" + part, "data:")
  {
    assert ("data:" + part)[5..] == part;
    assert IsSpace(' ') && |"data:" + part| != |"data"|;
  }

  /** A first data line that is empty is forgotten. */
  lemma EmptyFirstExample()
    ensures Data(["data:" + "", "data:" + "b"]) == "b" && StdData(["data:" + "", "data:" + "b"]) == "\nb"
  {
    PlainLine("");
    PlainLine("b");
    var a, b := "data:" + "", "data:" + "b";
    hide StartsWith, TrimStart, StdPart;
    OneLine(b, []);
    OneLine(a, [b]);
    assert [b] + [] == [b] && [a] + [b] == [a, b] && [""] + ["b"] == ["", "b"];
    DataOfParts([a, b], ["", "b"], ["", "b"]);
    assert ["", "b"][1..] == ["b"];
    assert SkipEmpty(["", "b"]) == ["b"] && Join(["b"], "\n") == "b";
  }

  /** All white space in front of a value is lost, not one space. */
  lemma SpacesExample()
    ensures Data(["data:  x"]) == "x" && StdData(["data:  x"]) == " x"
  {
    var line := "data:  x";
    assert line[5..] == "  x" && "  x"[1..] == " x" && " x"[1..] == "x";
    assert TrimStart("x") == "x" && TrimStart(" x") == "x" && TrimStart("  x") == "x";
    assert StdPart(line) == [" x"];
    hide StdPart, TrimStart;
    OneLine(line, []);
    assert [line] + [] == [line];
    DataOfParts([line], ["x"], [" x"]);
  }

  /** A bare data line is passed over. */
  lemma BareLineExample()
    ensures Data(["data:" + "a", "data", "data:" + "b"]) == "a\nb"
    ensures StdData(["data:" + "a", "data", "data:" + "b"]) == "a\n\nb"
  {
    PlainLine("a");
    PlainLine("b");
    var a, b := "data:" + "a", "data:" + "b";
    assert !StartsWith("data", "data:");
    hide StartsWith, TrimStart, StdPart, Join, SkipEmpty, Data, StdData;
    OneLine(b, []);
    OneLine("data", [b]);
    OneLine(a, ["data", b]);
    assert [b] + [] == [b] && ["data"] + [b] == ["data", b] && [a] + ["data", b] == [a, "data", b];
    DataOfParts([a, "data", b], ["a", "b"], ["a", "", "b"]);
    ThreeLines();
  }

  lemma ThreeLines()
    ensures Join(SkipEmpty(["a", "b"]), "\n") == "a\nb" && Join(["a", "", "b"], "\n") == "a\n\nb"
  {
    assert ["a", "b"][1..] == ["b"] && ["a", "", "b"][1..] == ["", "b"] && ["", "b"][1..] == ["b"];
    assert Join(["b"], "\n") == "b" && Join(["", "b"], "\n") == "\nb";
  }

  /** parseSseBlock of events-ops.ts. */
  method ParseSseBlock(raw: string) returns (event: string, id: string, data: string)
    ensures event == LastField(Split(raw, '\n'), "event:")
    ensures id == LastField(Split(raw, '\n'), "id:")
    ensures data == Data(Split(raw, '\n'))
  {
    event, id, data := "", "", "";
    var lines := Split(raw, '\n');
    for i := 0 to |lines|
      invariant event == LastField(lines[..i], "event:")
      invariant id == LastField(lines[..i], "id:")
      invariant data == Data(lines[..i])
    {
      var line := lines[i];
      assert lines[..i + 1] == lines[..i] + [line];
      assert lines[..i + 1][..i] == lines[..i];
      assert StartsWith(line, ":") ==> line[0] == ':';
      assert StartsWith(line, "event:") ==> line[0] == 'e';
      assert StartsWith(line, "id:") ==> line[0] == 'i';
      assert StartsWith(line, "data:") ==> line[0] == 'd';
      if StartsWith(line, ":") {
        DataSame(lines[..i], line);
        continue;
      }
      if StartsWith(line, "event:") {
        event := Trim(line[6..]);
        DataSame(lines[..i], line);
      } else if StartsWith(line, "id:") {
        id := Trim(line[3..]);
        DataSame(lines[..i], line);
      } else if StartsWith(line, "data:") {
        var part := TrimStart(line[5..]);
        DataSnoc(lines[..i], line);
        data := if data != "" then data + "\n" + part else part;
      } else {
        DataSame(lines[..i], line);
      }
    }
    assert lines[..|lines|] == lines;
  }
}
