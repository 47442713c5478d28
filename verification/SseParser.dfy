/** dashboard/src/lib/sseParser.ts, the incremental event-stream parser (section 9.2.6 of the WHATWG HTML Standard), and
    writeSSE in internal/handlers/live_handler.go, which prints what it reads. */
module SseParser {
  import opened Options
  import opened Decimal

  datatype Message = Message(id: Option<string>, event: string, data: string)

  /** What the parser carries from one feed to the next. */
  datatype Lexer = Lexer(buffer: string, dataLines: seq<string>, eventName: string, lastId: Option<string>)

  const START := Lexer("", [], "", None)

  // ---------------------------------------------------------------------------------------------------------
  // Lines
  // ---------------------------------------------------------------------------------------------------------

  /** One carriage return before the line feed belongs to the line ending. */
  function StripCR(line: string): string {
    if line != "" && line[|line| - 1] == '\r' then line[..|line| - 1] else line
  }

  /** Splits on \\r?\\n what follows a partial line: the complete lines, and the partial line left at the end. */
  function Split(partial: string, text: string): (seq<string>, string)
    decreases text
  {
    if text == "" then ([], partial)
    else if text[0] == '\n' then
      var (lines, rest) := Split("", text[1..]);
      ([StripCR(partial)] + lines, rest)
    else Split(partial + [text[0]], text[1..])
  }

  function IndexOf(line: string, c: char): (i: int)
    ensures -1 <= i < |line|
    ensures i >= 0 ==> line[i] == c && c !in line[..i]
    ensures i < 0 ==> c !in line
  {
    if line == "" then -1
    else if line[0] == c then 0
    else
      var i := IndexOf(line[1..], c);
      assert i >= 0 ==> line[..i + 1] == [line[0]] + line[1..][..i];
      if i < 0 then -1 else i + 1
  }

  function Join(lines: seq<string>): string {
    if lines == [] then ""
    else if |lines| == 1 then lines[0]
    else Join(lines[..|lines| - 1]) + "\n" + lines[|lines| - 1]
  }

  function Dispatch(lx: Lexer): seq<Message> {
    if lx.dataLines == [] then []
    else [Message(lx.lastId, if lx.eventName == "" then "message" else lx.eventName, Join(lx.dataLines))]
  }

  function Field(lx: Lexer, field: string, value: string): Lexer {
    if field == "data" then lx.(dataLines := lx.dataLines + [value])
    else if field == "event" then lx.(eventName := value)
    else if field == "id" && '\0' !in value then lx.(lastId := Some(value))
    else lx
  }

  function Value(raw: string): string {
    if raw != "" && raw[0] == ' ' then raw[1..] else raw
  }

  /** One complete line. */
  function OnLine(lx: Lexer, line: string): (Lexer, seq<Message>) {
    if line == "" then (lx.(dataLines := [], eventName := ""), Dispatch(lx))
    else if line[0] == ':' then (lx, [])
    else
      var i := IndexOf(line, ':');
      (Field(lx, if i < 0 then line else line[..i], if i < 0 then "" else Value(line[i + 1..])), [])
  }

  function OnLines(lx: Lexer, lines: seq<string>): (Lexer, seq<Message>)
    decreases lines
  {
    if lines == [] then (lx, [])
    else
      var (lx1, out) := OnLine(lx, lines[0]);
      var (lx2, more) := OnLines(lx1, lines[1..]);
      (lx2, out + more)
  }

  /** feed as a function of the carried state and the chunk. */
  function Feed(lx: Lexer, chunk: string): (Lexer, seq<Message>) {
    var (lines, rest) := Split(lx.buffer, chunk);
    var (lx1, out) := OnLines(lx, lines);
    (lx1.(buffer := rest), out)
  }

  class Parser {
    var buffer: string
    var dataLines: seq<string>
    var eventName: string
    var lastId: Option<string>

    function State(): Lexer
      reads this
    {
      Lexer(buffer, dataLines, eventName, lastId)
    }

    constructor ()
      ensures State() == START
    {
      buffer, dataLines, eventName, lastId := "", [], "", None;
    }

    method HandleLine(line: string) returns (out: seq<Message>)
      modifies this`dataLines, this`eventName, this`lastId
      ensures (State(), out) == OnLine(old(State()), line)
    {
      out := [];
      if line == "" {
        if |dataLines| > 0 {
          out := [Message(lastId, if eventName == "" then "message" else eventName, Join(dataLines))];
        }
        dataLines, eventName := [], "";
        return;
      }
      if line[0] == ':' {
        return;
      }
      var idx := IndexOf(line, ':');
      var field := if idx == -1 then line else line[..idx];
      var value := if idx == -1 then "" else line[idx + 1..];
      if value != "" && value[0] == ' ' {
        value := value[1..];
      }
      if field == "data" {
        dataLines := dataLines + [value];
      } else if field == "event" {
        eventName := value;
      } else if field == "id" && '\0' !in value {
        lastId := Some(value);
      }
    }

    /** feed: the whole text so far is split again, the lines are handled one by one, the last part waits. */
    method FeedChunk(chunk: string) returns (out: seq<Message>)
      requires '\n' !in buffer
      modifies this
      ensures (State(), out) == Feed(old(State()), chunk)
      ensures '\n' !in buffer
    {
      ghost var was := State();
      SplitSkips("", buffer, chunk);
      assert "" + buffer == buffer;
      RestIsPartial("", buffer + chunk);
      var (lines, rest) := Split("", buffer + chunk);
      buffer := rest;
      out := [];
      ghost var start := State();
      for i := 0 to |lines|
        invariant buffer == rest
        invariant (State(), out) == OnLines(start, lines[..i])
      {
        ghost var before := State();
        var more := HandleLine(lines[i]);
        out := out + more;
        OnLinesSnoc(start, lines[..i], lines[i]);
        assert lines[..i + 1] == lines[..i] + [lines[i]];
      }
      assert lines[..|lines|] == lines;
      OnLinesIgnoresBuffer(was, rest, lines);
    }
  }

  /** Text without a line feed only lengthens the partial line. */
  lemma {:induction false} SplitSkips(partial: string, text: string, more: string)
    requires '\n' !in text
    ensures Split(partial, text + more) == Split(partial + text, more)
    decreases text
  {
    if text == "" {
      assert text + more == more && partial + text == partial;
    } else {
      assert (text + more)[0] == text[0] && (text + more)[1..] == text[1..] + more;
      SplitSkips(partial + [text[0]], text[1..], more);
      assert partial + [text[0]] + text[1..] == partial + text;
    }
  }

  lemma {:induction false} RestIsPartial(partial: string, text: string)
    requires '\n' !in partial
    ensures '\n' !in Split(partial, text).1
    decreases text
  {
    if text != "" {
      if text[0] == '\n' {
        RestIsPartial("", text[1..]);
      } else {
        RestIsPartial(partial + [text[0]], text[1..]);
      }
    }
  }

  // ---------------------------------------------------------------------------------------------------------
  // Chunks
  // ---------------------------------------------------------------------------------------------------------

  /** Splitting in two goes: the second starts from the partial line the first left. */
  lemma {:induction false} SplitConcat(partial: string, a: string, b: string)
    ensures Split(partial, a + b) == (Split(partial, a).0 + Split(Split(partial, a).1, b).0, Split(Split(partial, a).1, b).1)
    decreases a
  {
    if a == "" {
      assert a + b == b;
      assert [] + Split(partial, b).0 == Split(partial, b).0;
    } else {
      assert (a + b)[0] == a[0] && (a + b)[1..] == a[1..] + b;
      if a[0] == '\n' {
        SplitConcat("", a[1..], b);
        var (lines, rest) := Split("", a[1..]);
        assert [StripCR(partial)] + (lines + Split(rest, b).0) == ([StripCR(partial)] + lines) + Split(rest, b).0;
      } else {
        SplitConcat(partial + [a[0]], a[1..], b);
      }
    }
  }

  lemma {:induction false} OnLinesConcat(lx: Lexer, a: seq<string>, b: seq<string>)
    ensures OnLines(lx, a + b) == (OnLines(OnLines(lx, a).0, b).0, OnLines(lx, a).1 + OnLines(OnLines(lx, a).0, b).1)
    decreases a
  {
    if a == [] {
      assert a + b == b;
      assert [] + OnLines(lx, b).1 == OnLines(lx, b).1;
    } else {
      assert (a + b)[0] == a[0] && (a + b)[1..] == a[1..] + b;
      var (lx1, out) := OnLine(lx, a[0]);
      OnLinesConcat(lx1, a[1..], b);
      var (lx2, more) := OnLines(lx1, a[1..]);
      assert out + (more + OnLines(lx2, b).1) == (out + more) + OnLines(lx2, b).1;
    }
  }

  lemma OneLineOfMany(lx: Lexer, line: string)
    ensures OnLines(lx, [line]) == OnLine(lx, line)
  {
    var (lx1, out) := OnLine(lx, line);
    assert [line][1..] == [];
    assert OnLines(lx1, []) == (lx1, []);
    assert out + [] == out;
  }

  lemma OnLinesSnoc(lx: Lexer, lines: seq<string>, line: string)
    ensures var (lx1, out) := OnLines(lx, lines); var (lx2, more) := OnLine(lx1, line);
            OnLines(lx, lines + [line]) == (lx2, out + more)
  {
    OnLinesConcat(lx, lines, [line]);
    var lx1 := OnLines(lx, lines).0;
    OneLineOfMany(lx1, line);
  }

  lemma {:induction false} OnLinesIgnoresBuffer(lx: Lexer, buffer: string, lines: seq<string>)
    ensures OnLines(lx.(buffer := buffer), lines) == (OnLines(lx, lines).0.(buffer := buffer), OnLines(lx, lines).1)
    decreases lines
  {
    if lines != [] {
      OnLineIgnoresBuffer(lx, buffer, lines[0]);
      OnLinesIgnoresBuffer(OnLine(lx, lines[0]).0, buffer, lines[1..]);
    }
  }

  lemma OnLineIgnoresBuffer(lx: Lexer, buffer: string, line: string)
    ensures OnLine(lx.(buffer := buffer), line) == (OnLine(lx, line).0.(buffer := buffer), OnLine(lx, line).1)
  {
  }

  /** Feeding a text in two chunks, wherever it is cut, yields the same messages and the same state as feeding it whole. */
  lemma TwoChunks(lx: Lexer, a: string, b: string)
    ensures var (lx1, out) := Feed(lx, a); var (lx2, more) := Feed(lx1, b);
            Feed(lx, a + b) == (lx2, out + more)
  {
    var (first, rest) := Split(lx.buffer, a);
    var (second, rest2) := Split(rest, b);
    SplitConcat(lx.buffer, a, b);
    OnLinesConcat(lx, first, second);
    OnLinesIgnoresBuffer(OnLines(lx, first).0, rest, second);
  }

  function FeedAll(lx: Lexer, chunks: seq<string>): (Lexer, seq<Message>)
    decreases chunks
  {
    if chunks == [] then (lx, [])
    else
      var (lx1, out) := Feed(lx, chunks[0]);
      var (lx2, more) := FeedAll(lx1, chunks[1..]);
      (lx2, out + more)
  }

  function Concat(chunks: seq<string>): string {
    if chunks == [] then "" else chunks[0] + Concat(chunks[1..])
  }

  /** Any number of chunks of any size, even between a carriage return and its line feed. */
  lemma {:induction false} ChunkIndependence(lx: Lexer, chunks: seq<string>)
    ensures FeedAll(lx, chunks) == Feed(lx, Concat(chunks))
    decreases chunks
  {
    if chunks == [] {
      assert Split(lx.buffer, "") == ([], lx.buffer);
    } else {
      TwoChunks(lx, chunks[0], Concat(chunks[1..]));
      ChunkIndependence(Feed(lx, chunks[0]).0, chunks[1..]);
    }
  }

  // ---------------------------------------------------------------------------------------------------------
  // What the server writes
  // ---------------------------------------------------------------------------------------------------------

  datatype Frame = Frame(id: nat, kind: string, data: string)

  /** writeSSE, cut into the lines it prints. */
  function FrameChunks(f: Frame): seq<string> {
    (if f.id != 0 then ["id: " + Print(f.id) + "\n"] else [])
    + ["event: " + f.kind + "\n", "data: " + f.data + "\n", "\n"]
  }

  function WriteSSE(f: Frame): string {
    Concat(FrameChunks(f))
  }

  /** The parser is between two frames. */
  predicate Clean(lx: Lexer) {
    lx.buffer == "" && lx.dataLines == [] && lx.eventName == ""
  }

  function IdAfter(lastId: Option<string>, f: Frame): Option<string> {
    if f.id != 0 then Some(Print(f.id)) else lastId
  }

  function NameOf(kind: string): string {
    if StripCR(kind) == "" then "message" else StripCR(kind)
  }

  lemma OneLine(lx: Lexer, line: string)
    requires lx.buffer == "" && '\n' !in line
    ensures Feed(lx, line + "\n") == OnLine(lx, StripCR(line))
  {
    SplitSkips("", line, "\n");
    assert "" + line == line;
    assert "\n"[1..] == "";
    assert Split("", "") == ([], "");
    assert [StripCR(line)] + [] == [StripCR(line)];
    assert Split(line, "\n") == ([StripCR(line)], "");
    OneLineOfMany(lx, StripCR(line));
    OnLineIgnoresBuffer(lx, "", StripCR(line));
  }

  lemma OnFieldLine(lx: Lexer, name: string, value: string)
    requires name != "" && ':' !in name
    ensures OnLine(lx, name + ": " + value) == (Field(lx, name, value), [])
  {
    var line := name + ": " + value;
    FirstColon(name, " " + value);
    assert name + ":" + (" " + value) == line;
    assert line[0] == name[0] && name[0] in name;
    assert line[..|name|] == name;
    assert line[|name| + 1..] == " " + value;
    assert (" " + value)[1..] == value;
  }

  lemma StripAtTheEnd(head: string, value: string)
    requires !EndsWithCR(head)
    ensures StripCR(head + value) == head + StripCR(value)
  {
    if value == "" {
      assert head + value == head;
    }
  }

  /** A printed field line is read as that field; only a carriage return at its very end is lost. */
  lemma FieldLine(lx: Lexer, name: string, value: string)
    requires name != "" && ':' !in name && '\n' !in name && '\n' !in value && lx.buffer == ""
    ensures Feed(lx, name + ": " + value + "\n") == (Field(lx, name, StripCR(value)), [])
  {
    OneLine(lx, name + ": " + value);
    StripAtTheEnd(name + ": ", value);
    OnFieldLine(lx, name, StripCR(value));
  }

  lemma {:induction false} FirstColon(name: string, rest: string)
    requires ':' !in name
    ensures IndexOf(name + ":" + rest, ':') == |name|
  {
    var line := name + ":" + rest;
    if name != "" {
      FirstColon(name[1..], rest);
      assert line[1..] == name[1..] + ":" + rest;
      assert line[0] == name[0];
    }
  }

  lemma BlankLine(lx: Lexer)
    requires lx.buffer == ""
    ensures Feed(lx, "\n") == (lx.(dataLines := [], eventName := ""), Dispatch(lx))
  {
    OneLine(lx, "");
    assert "" + "\n" == "\n";
  }

  /** The three lines after the id. */
  lemma BodyParses(lx: Lexer, kind: string, data: string)
    requires Clean(lx) && '\n' !in kind && '\n' !in data
    ensures FeedAll(lx, ["event: " + kind + "\n", "data: " + data + "\n", "\n"]) ==
            (lx, [Message(lx.lastId, NameOf(kind), StripCR(data))])
  {
    FieldLine(lx, "event", kind);
    assert "event" + ": " + kind + "\n" == "event: " + kind + "\n";
    var named := lx.(eventName := StripCR(kind));
    FieldLine(named, "data", data);
    assert "data" + ": " + data + "\n" == "data: " + data + "\n";
    var full := named.(dataLines := [StripCR(data)]);
    assert [] + [StripCR(data)] == [StripCR(data)];
    BlankLine(full);
    ThreeChunks(lx, "event: " + kind + "\n", "data: " + data + "\n", "\n");
    var m := Message(lx.lastId, NameOf(kind), StripCR(data));
    assert Dispatch(full) == [m];
    assert [] + ([] + ([m] + [])) == [m];
  }

  lemma ThreeChunks(lx: Lexer, a: string, b: string, c: string)
    ensures var (l1, o1) := Feed(lx, a); var (l2, o2) := Feed(l1, b); var (l3, o3) := Feed(l2, c);
            FeedAll(lx, [a, b, c]) == (l3, o1 + (o2 + (o3 + [])))
  {
    assert [a, b, c][1..] == [b, c] && [b, c][1..] == [c] && [c][1..] == [];
    var l1 := Feed(lx, a).0;
    var l2 := Feed(l1, b).0;
    assert FeedAll(Feed(l2, c).0, []) == (Feed(l2, c).0, []);
    assert FeedAll(l2, [c]) == (Feed(l2, c).0, Feed(l2, c).1 + []);
  }

  /** What one written frame is read as: exactly one message, with its id if it has one and the last id otherwise. */
  lemma FrameParses(lx: Lexer, f: Frame)
    requires Clean(lx) && '\n' !in f.kind && '\n' !in f.data
    ensures var id := IdAfter(lx.lastId, f);
            Feed(lx, WriteSSE(f)) == (lx.(lastId := id), [Message(id, NameOf(f.kind), StripCR(f.data))])
  {
    ChunkIndependence(lx, FrameChunks(f));
    var body := ["event: " + f.kind + "\n", "data: " + f.data + "\n", "\n"];
    if f.id == 0 {
      assert FrameChunks(f) == body;
      BodyParses(lx, f.kind, f.data);
    } else {
      IdLine(lx, f.id);
      var chunks := FrameChunks(f);
      assert chunks[0] == "id: " + Print(f.id) + "\n" && chunks[1..] == body;
      BodyParses(lx.(lastId := Some(Print(f.id))), f.kind, f.data);
      var m := Message(Some(Print(f.id)), NameOf(f.kind), StripCR(f.data));
      assert [] + [m] == [m];
    }
  }

  lemma IdLine(lx: Lexer, id: nat)
    requires lx.buffer == ""
    ensures Feed(lx, "id: " + Print(id) + "\n") == (lx.(lastId := Some(Print(id))), [])
  {
    PrintHasNo(id, '\n');
    PrintHasNo(id, '\0');
    PrintHasNo(id, '\r');
    FieldLine(lx, "id", Print(id));
    assert "id" + ": " + Print(id) + "\n" == "id: " + Print(id) + "\n";
    assert Print(id) != "" ==> Print(id)[|Print(id)| - 1] in Print(id);
  }

  /** A frame without line feeds comes back with its type and data exactly when the type is not empty and neither ends
      in a carriage return. */
  lemma FrameRoundTrip(lx: Lexer, f: Frame)
    requires Clean(lx) && '\n' !in f.kind && '\n' !in f.data
    ensures Feed(lx, WriteSSE(f)).1 == [Message(IdAfter(lx.lastId, f), f.kind, f.data)] <==> Printable(f)
  {
    FrameParses(lx, f);
    var m, n := Message(IdAfter(lx.lastId, f), NameOf(f.kind), StripCR(f.data)), Message(IdAfter(lx.lastId, f), f.kind, f.data);
    assert [m] == [n] ==> [m][0] == [n][0];
    if f.kind != "" && f.kind[|f.kind| - 1] == '\r' {
      EndsInCR(f.kind);
    }
    if f.data != "" && f.data[|f.data| - 1] == '\r' {
      assert |StripCR(f.data)| < |f.data|;
    }
  }

  lemma EndsInCR(kind: string)
    requires kind != "" && kind[|kind| - 1] == '\r'
    ensures NameOf(kind) != kind
  {
    if StripCR(kind) == "" {
      assert "message"[6] == 'e';
    } else {
      assert |StripCR(kind)| < |kind|;
    }
  }

  predicate EndsWithCR(s: string) {
    s != "" && s[|s| - 1] == '\r'
  }

  predicate Printable(f: Frame) {
    f.kind != "" && !EndsWithCR(f.kind) && !EndsWithCR(f.data)
  }

  /** A keep-alive comment changes nothing between two frames. */
  lemma PingIsSilent(lx: Lexer, text: string)
    requires Clean(lx) && '\n' !in text
    ensures Feed(lx, ":" + text + "\n" + "\n") == (lx, [])
  {
    var line := ":" + text;
    OneLine(lx, line);
    assert StripCR(line)[0] == ':';
    assert line + "\n" == ":" + text + "\n";
    BlankLine(lx);
    TwoChunks(lx, line + "\n", "\n");
  }

  function Written(frames: seq<Frame>): string {
    if frames == [] then "" else Written(frames[..|frames| - 1]) + WriteSSE(frames[|frames| - 1])
  }

  ghost predicate Faithful(frames: seq<Frame>, out: seq<Message>) {
    && |out| == |frames|
    && forall k :: 0 <= k < |frames| ==>
         && out[k].event == frames[k].kind && out[k].data == frames[k].data
         && (frames[k].id != 0 ==> out[k].id == Some(Print(frames[k].id)))
  }

  /** Parsing what writeSSE printed for any list of events, in any chunks, returns their types and data in order, and
      their ids where they have one; and the parser is ready for the next frame. */
  lemma {:induction false} StreamRoundTrip(lx: Lexer, frames: seq<Frame>, chunks: seq<string>)
    requires Clean(lx) && Concat(chunks) == Written(frames)
    requires forall k :: 0 <= k < |frames| ==> '\n' !in frames[k].kind && '\n' !in frames[k].data && Printable(frames[k])
    ensures Faithful(frames, FeedAll(lx, chunks).1) && Clean(FeedAll(lx, chunks).0)
  {
    ChunkIndependence(lx, chunks);
    WrittenRoundTrip(lx, frames);
  }

  lemma {:induction false} WrittenRoundTrip(lx: Lexer, frames: seq<Frame>)
    requires Clean(lx)
    requires forall k :: 0 <= k < |frames| ==> '\n' !in frames[k].kind && '\n' !in frames[k].data && Printable(frames[k])
    ensures Faithful(frames, Feed(lx, Written(frames)).1) && Clean(Feed(lx, Written(frames)).0)
  {
    if frames == [] {
      assert Split("", "") == ([], "");
      assert OnLines(lx, []) == (lx, []);
    } else {
      var n := |frames| - 1;
      var before, f := frames[..n], frames[n];
      WrittenRoundTrip(lx, before);
      var (lx1, out) := Feed(lx, Written(before));
      TwoChunks(lx, Written(before), WriteSSE(f));
      FrameRoundTrip(lx1, f);
      FrameParses(lx1, f);
      FaithfulSnoc(before, out, f, Message(IdAfter(lx1.lastId, f), f.kind, f.data));
      assert frames == before + [f];
    }
  }

  lemma FaithfulSnoc(frames: seq<Frame>, out: seq<Message>, f: Frame, m: Message)
    requires Faithful(frames, out) && m.event == f.kind && m.data == f.data && (f.id != 0 ==> m.id == Some(Print(f.id)))
    ensures Faithful(frames + [f], out + [m])
  {
  }

  // ---------------------------------------------------------------------------------------------------------
  // The fields by name
  // ---------------------------------------------------------------------------------------------------------

  lemma Named(field: string, value: string)
    requires ':' !in field
    ensures IndexOf(field + ":" + value, ':') == |field|
    ensures (field + ":" + value)[..|field|] == field && (field + ":" + value)[|field| + 1..] == value
  {
    var line := field + ":" + value;
    assert line[|field|] == ':';
    assert line[..|field|] == field;
  }

  /** What a line does that has one of the names the standard knows, or none of them. */
  lemma LineByName(lx: Lexer, field: string, value: string)
    requires ':' !in field && field != ""
    ensures var line, v := field + ":" + value, if value != "" && value[0] == ' ' then value[1..] else value;
            && OnLine(lx, line).1 == []
            && (field == "data" ==> OnLine(lx, line).0 == lx.(dataLines := lx.dataLines + [v]))
            && (field == "event" ==> OnLine(lx, line).0 == lx.(eventName := v))
            && (field == "id" && '\0' !in v ==> OnLine(lx, line).0 == lx.(lastId := Some(v)))
            && (field !in ["data", "event", "id"] || (field == "id" && '\0' in v) ==> OnLine(lx, line).0 == lx)
  {
    Named(field, value);
    assert (field + ":" + value)[0] == field[0] && field[0] in field;
  }

  /** What the server writes for one frame. */
  lemma WrittenText(f: Frame)
    ensures WriteSSE(f) ==
            (if f.id != 0 then "id: " + Print(f.id) + "\n" else "") + "event: " + f.kind + "\n" + "data: " + f.data + "\n" + "\n"
  {
    var body := ["event: " + f.kind + "\n", "data: " + f.data + "\n", "\n"];
    assert body[1..] == ["data: " + f.data + "\n", "\n"] && body[2..] == ["\n"] && body[1..][1..] == body[2..] && body[2..][1..] == [];
    assert Concat(["\n"]) == "\n" + Concat([]);
    assert Concat(body[1..]) == "data: " + f.data + "\n" + "\n";
    assert Concat(body) == "event: " + f.kind + "\n" + "data: " + f.data + "\n" + "\n";
    if f.id != 0 {
      var all := FrameChunks(f);
      assert all[0] == "id: " + Print(f.id) + "\n" && all[1..] == body;
    } else {
      assert FrameChunks(f) == body;
    }
  }

  lemma DataLine(lx: Lexer, text: string)
    ensures OnLine(lx, "data: " + text) == (lx.(dataLines := lx.dataLines + [text]), [])
  {
    assert "data: " + text == "data" + ":" + (" " + text) && (" " + text)[1..] == text;
    LineByName(lx, "data", " " + text);
  }

  lemma ThreeLines(lx: Lexer, a: string, b: string, c: string)
    ensures var (lx1, out1) := OnLine(lx, a); var (lx2, out2) := OnLine(lx1, b);
            OnLines(lx, [a, b, c]).1 == out1 + (out2 + OnLine(lx2, c).1)
  {
    var (lx1, out1) := OnLine(lx, a);
    var (lx2, out2) := OnLine(lx1, b);
    assert [a, b, c][1..] == [b, c] && [b, c][1..] == [c] && [c][1..] == [];
    assert OnLines(lx2, [c]).1 == OnLine(lx2, c).1;
    assert OnLines(lx1, [b, c]).1 == out2 + OnLines(lx2, [c]).1;
  }

  /** Data given in several lines is one text with a line feed between them. */
  lemma DataInLines(lx: Lexer, first: string, second: string)
    requires lx.dataLines == []
    ensures OnLines(lx, ["data: " + first, "data: " + second, ""]).1 ==
            [Message(lx.lastId, if lx.eventName == "" then "message" else lx.eventName, first + "\n" + second)]
  {
    var one, both := lx.(dataLines := [first]), lx.(dataLines := [first, second]);
    DataLine(lx, first);
    DataLine(one, second);
    assert lx.dataLines + [first] == [first] && [first] + [second] == [first, second];
    assert OnLine(lx, "data: " + first) == (one, []) && OnLine(one, "data: " + second) == (both, []);
    ThreeLines(lx, "data: " + first, "data: " + second, "");
    assert [first, second][..1] == [first];
    assert Join([first, second]) == Join([first]) + "\n" + second;
    assert OnLine(both, "").1 == Dispatch(both);
  }
}
