/** Log lines on their way from the handler to the browser: the event printer of apiserver/handler/logs.go and the
    incremental parser of frontend/lib/api.ts.  Text is decoded: a chunk is a string. */
module LogStream {

  datatype LogEntry = LogEntry(timestamp: string, message: string)

  const NL := "\n"

  predicate OneLine(s: string) {
    '\n' !in s
  }

  // ----- the printer -------------------------------------------------------------------------------

  /** What the browser should show for an entry. */
  function Shown(e: LogEntry): string {
    "[" + e.timestamp + "] " + e.message
  }

  function PrintEntry(e: LogEntry): string {
    "data: " + Shown(e) + NL + NL
  }

  const ClosingEvent := "event: done" + NL + "data: stream closed" + NL + NL

  function PrintEntries(entries: seq<LogEntry>): string {
    if entries == [] then ""
    else PrintEntries(entries[..|entries| - 1]) + PrintEntry(entries[|entries| - 1])
  }

  function AllShown(entries: seq<LogEntry>): (r: seq<string>)
    ensures |r| == |entries|
  {
    if entries == [] then []
    else AllShown(entries[..|entries| - 1]) + [Shown(entries[|entries| - 1])]
  }

  /** What one round of the handler's `select` picks. */
  datatype Pick = Cancelled | ChannelClosed | Received(entry: LogEntry)

  /** The entries received before the loop returns, and whether it returns because the channel closed. */
  function Taken(picks: seq<Pick>): seq<LogEntry> {
    if picks == [] || !picks[0].Received? then []
    else [picks[0].entry] + Taken(picks[1..])
  }

  predicate SeesClose(picks: seq<Pick>) {
    picks != [] && (picks[0].ChannelClosed? || (picks[0].Received? && SeesClose(picks[1..])))
  }

  function Transcript(entries: seq<LogEntry>, closed: bool): string {
    PrintEntries(entries) + if closed then ClosingEvent else ""
  }

  /** The consumer loop; it stops for lack of picks only where the model's schedule ends. */
  method HandleGetLogs(picks: seq<Pick>) returns (out: string)
    ensures out == Transcript(Taken(picks), SeesClose(picks))
  {
    out := "";
    var i := 0;
    ghost var taken: seq<LogEntry> := [];
    while i < |picks|
      invariant 0 <= i <= |picks|
      invariant Taken(picks) == taken + Taken(picks[i..])
      invariant SeesClose(picks) == SeesClose(picks[i..])
      invariant out == PrintEntries(taken)
    {
      assert taken + [] == taken;
      match picks[i] {
        case Cancelled =>
          assert out + "" == out;
          return;
        case ChannelClosed =>
          out := out + ("event: done" + NL + "data: stream closed" + NL + NL);
          return;
        case Received(entry) =>
          var event := "data: " + ("[" + entry.timestamp + "] " + entry.message) + NL + NL;
          assert event == PrintEntry(entry);
          hide PrintEntry;
          out := out + event;
          assert picks[i..][1..] == picks[i + 1..];
          assert (taken + [entry])[..|taken|] == taken;
          taken := taken + [entry];
      }
      i := i + 1;
    }
    assert out + "" == out;
  }

  // ----- splitting into lines -----------------------------------------------------------------------

  /** The finished lines of a text, and the unterminated piece after them. */
  datatype Lines = Lines(done: seq<string>, rest: string)

  function Cut(s: string): Lines {
    if s == "" then Lines([], "")
    else
      var before := Cut(s[..|s| - 1]);
      if s[|s| - 1] == '\n' then Lines(before.done + [before.rest], "")
      else Lines(before.done, before.rest + [s[|s| - 1]])
  }

  /** JavaScript's `split("\n")`. */
  function Split(s: string): seq<string> {
    Cut(s).done + [Cut(s).rest]
  }

  /** Cutting can be resumed from the unterminated piece. */
  lemma {:induction false} CutResumes(a: string, b: string)
    ensures Cut(a + b).done == Cut(a).done + Cut(Cut(a).rest + b).done
    ensures Cut(a + b).rest == Cut(Cut(a).rest + b).rest
  {
    if b == "" {
      assert a + b == a && Cut(a).rest + b == Cut(a).rest;
      CutIsOneLine(a);
      CutOneLine(Cut(a).rest);
    } else {
      var m := |b| - 1;
      CutResumes(a, b[..m]);
      assert (a + b)[..|a + b| - 1] == a + b[..m];
      assert (Cut(a).rest + b)[..|Cut(a).rest + b| - 1] == Cut(a).rest + b[..m];
    }
  }

  lemma {:induction false} CutOneLine(s: string)
    requires OneLine(s)
    ensures Cut(s) == Lines([], s)
  {
    if s != "" {
      CutOneLine(s[..|s| - 1]);
      assert s[|s| - 1] != '\n';
      assert s[..|s| - 1] + [s[|s| - 1]] == s;
    }
  }

  lemma {:induction false} CutIsOneLine(s: string)
    ensures OneLine(Cut(s).rest)
    ensures forall line | line in Cut(s).done :: OneLine(line)
  {
    if s != "" {
      CutIsOneLine(s[..|s| - 1]);
    }
  }

  lemma CutNewline(line: string)
    requires OneLine(line)
    ensures Cut(line + NL) == Lines([line], "")
  {
    CutOneLine(line);
    assert (line + NL)[..|line + NL| - 1] == line;
  }

  lemma CutLine(line: string, s: string)
    requires OneLine(line)
    ensures Cut(line + NL + s) == Lines([line] + Cut(s).done, Cut(s).rest)
  {
    hide Cut;
    CutNewline(line);
    CutResumes(line + NL, s);
    assert "" + s == s;
  }

  // ----- the browser's parser -----------------------------------------------------------------------

  const DataPrefix := "data: "

  function DataOf(lines: seq<string>): seq<string> {
    if lines == [] then []
    else
      var n := |lines| - 1;
      DataOf(lines[..n]) + if DataPrefix <= lines[n] then [lines[n][6..]] else []
  }

  lemma {:induction false} DataOfConcat(a: seq<string>, b: seq<string>)
    ensures DataOf(a + b) == DataOf(a) + DataOf(b)
  {
    if b == [] {
      assert a + b == a;
    } else {
      var n := |b| - 1;
      assert (a + b)[..|a + b| - 1] == a + b[..n];
      DataOfConcat(a, b[..n]);
    }
  }

  lemma DataOfOne(line: string)
    ensures DataOf([line]) == if DataPrefix <= line then [line[6..]] else []
  {
    assert [line][..0] == [];
  }

  function Concat(chunks: seq<string>): string {
    if chunks == [] then "" else Concat(chunks[..|chunks| - 1]) + chunks[|chunks| - 1]
  }

  /** The callback arguments for a stream read in one piece. */
  function Callbacks(stream: string): seq<string> {
    DataOf(Cut(stream).done)
  }

  lemma CallbacksResume(a: string, b: string)
    ensures Callbacks(a + b) == Callbacks(a) + DataOf(Cut(Cut(a).rest + b).done)
  {
    hide Cut, DataOf;
    CutResumes(a, b);
    DataOfConcat(Cut(a).done, Cut(Cut(a).rest + b).done);
  }

  /** The read loop: buffers the unterminated line, calls back for every finished `data: ` line. */
  method StreamLogs(chunks: seq<string>) returns (received: seq<string>)
    ensures received == Callbacks(Concat(chunks))
  {
    received := [];
    var buffer := "";
    var i := 0;
    while i < |chunks|
      invariant 0 <= i <= |chunks|
      invariant received == Callbacks(Concat(chunks[..i]))
      invariant buffer == Cut(Concat(chunks[..i])).rest
    {
      ghost var seen := Concat(chunks[..i]);
      assert chunks[..i + 1][..i] == chunks[..i];
      CutResumes(seen, chunks[i]);
      CallbacksResume(seen, chunks[i]);
      buffer := buffer + chunks[i];
      var lines := Split(buffer);
      buffer := lines[|lines| - 1];
      received := CallBack(lines[..|lines| - 1], received);
      i := i + 1;
    }
    assert chunks[..i] == chunks;
  }

  /** One round of callbacks over the finished lines. */
  method CallBack(lines: seq<string>, before: seq<string>) returns (received: seq<string>)
    ensures received == before + DataOf(lines)
  {
    received := before;
    var j := 0;
    while j < |lines|
      invariant 0 <= j <= |lines|
      invariant received == before + DataOf(lines[..j])
    {
      assert lines[..j + 1][..j] == lines[..j];
      if DataPrefix <= lines[j] {
        received := received + [lines[j][6..]];
      }
      j := j + 1;
    }
    assert lines[..j] == lines;
  }

  // ----- what arrives ---------------------------------------------------------------------------------

  function Expected(entries: seq<LogEntry>, closed: bool): seq<string> {
    AllShown(entries) + if closed then ["stream closed"] else []
  }

  predicate OneLineEntries(entries: seq<LogEntry>) {
    forall e | e in entries :: OneLine(e.timestamp) && OneLine(e.message)
  }

  function EntryLines(e: LogEntry): seq<string> {
    ["data: " + Shown(e), ""]
  }

  const ClosingLines := ["event: done", "data: stream closed", ""]

  lemma EntryCuts(e: LogEntry)
    requires OneLine(e.timestamp) && OneLine(e.message)
    ensures Cut(PrintEntry(e)) == Lines(EntryLines(e), "")
  {
    var line := "data: " + Shown(e);
    assert OneLine(line);
    hide Cut, Shown;
    assert PrintEntry(e) == line + NL + ("" + NL);
    CutNewline("");
    CutLine(line, "" + NL);
  }

  lemma ClosingCuts()
    ensures Cut(ClosingEvent) == Lines(ClosingLines, "")
  {
    hide Cut;
    assert ClosingEvent == "event: done" + NL + ("data: stream closed" + NL + ("" + NL));
    CutNewline("");
    CutLine("data: stream closed", "" + NL);
    CutLine("event: done", "data: stream closed" + NL + ("" + NL));
  }

  lemma EntryCallback(e: LogEntry)
    ensures DataOf(EntryLines(e)) == [Shown(e)]
  {
    hide DataOf;
    var line := "data: " + Shown(e);
    assert EntryLines(e) == [line] + [""];
    DataOfConcat([line], [""]);
    DataOfOne(line);
    DataOfOne("");
    assert DataPrefix <= line && line[6..] == Shown(e);
  }

  lemma ClosingCallback()
    ensures DataOf(ClosingLines) == ["stream closed"]
  {
    hide DataOf;
    var line := "data: stream closed";
    assert ClosingLines == ["event: done"] + [line] + [""];
    DataOfConcat(["event: done"], [line]);
    DataOfConcat(["event: done"] + [line], [""]);
    DataOfOne("event: done");
    DataOfOne(line);
    DataOfOne("");
    assert "event: done"[0] != DataPrefix[0];
    assert DataPrefix <= line && line[6..] == "stream closed";
  }

  /** A piece that is whole lines is parsed on its own after text that ends a line. */
  lemma WholeLinesAppend(text: string, piece: string, lines: seq<string>)
    requires Cut(text).rest == "" && Cut(piece) == Lines(lines, "")
    ensures Cut(text + piece) == Lines(Cut(text).done + lines, "")
  {
    hide Cut;
    CutResumes(text, piece);
    assert "" + piece == piece;
  }

  /** Printed entries end on a line boundary and call back once each. */
  lemma {:induction false} EntriesArrive(entries: seq<LogEntry>)
    requires OneLineEntries(entries)
    ensures Cut(PrintEntries(entries)).rest == ""
    ensures Callbacks(PrintEntries(entries)) == AllShown(entries)
  {
    if entries != [] {
      hide Cut, DataOf, PrintEntry, EntryLines;
      var n := |entries| - 1;
      var before, e := PrintEntries(entries[..n]), entries[n];
      EntriesArrive(entries[..n]);
      EntryCuts(e);
      WholeLinesAppend(before, PrintEntry(e), EntryLines(e));
      DataOfConcat(Cut(before).done, EntryLines(e));
      EntryCallback(e);
    }
  }

  lemma TranscriptArrives(entries: seq<LogEntry>, closed: bool)
    requires OneLineEntries(entries)
    ensures Callbacks(Transcript(entries, closed)) == Expected(entries, closed)
  {
    hide Cut, DataOf, PrintEntries, AllShown;
    EntriesArrive(entries);
    var printed := PrintEntries(entries);
    if closed {
      ClosingCuts();
      WholeLinesAppend(printed, ClosingEvent, ClosingLines);
      DataOfConcat(Cut(printed).done, ClosingLines);
      ClosingCallback();
    } else {
      assert printed + "" == printed;
    }
  }

  lemma {:induction false} CallbacksAreLines(lines: seq<string>)
    requires forall line | line in lines :: OneLine(line)
    ensures forall d | d in DataOf(lines) :: OneLine(d)
  {
    if lines != [] {
      var n := |lines| - 1;
      CallbacksAreLines(lines[..n]);
      assert lines[n] in lines;
    }
  }

  lemma {:induction false} ShownAt(entries: seq<LogEntry>, i: nat)
    requires i < |entries|
    ensures AllShown(entries)[i] == Shown(entries[i])
  {
    if i < |entries| - 1 {
      ShownAt(entries[..|entries| - 1], i);
    }
  }

  /** One text per entry, in order: the timestamp in brackets, a space and the message; then the closing notice. */
  ghost predicate ShowsAll(received: seq<string>, entries: seq<LogEntry>, closed: bool) {
    && |received| == |entries| + (if closed then 1 else 0)
    && (forall i | 0 <= i < |entries| :: received[i] == "[" + entries[i].timestamp + "] " + entries[i].message)
    && (closed ==> received[|entries|] == "stream closed")
  }

  lemma ExpectedShowsAll(received: seq<string>, entries: seq<LogEntry>, closed: bool)
    ensures received == Expected(entries, closed) <==> ShowsAll(received, entries, closed)
  {
    hide AllShown;
    forall i: nat | i < |entries|
      ensures Expected(entries, closed)[i] == "[" + entries[i].timestamp + "] " + entries[i].message
    {
      ShownAt(entries, i);
    }
  }

  /** However the stream is chunked, the browser shows exactly the entries, in order, then the closing
      notice; and this is so if and only if no entry contains a newline. */
  lemma RoundTrip(entries: seq<LogEntry>, closed: bool, chunks: seq<string>)
    requires Concat(chunks) == Transcript(entries, closed)
    ensures ShowsAll(Callbacks(Concat(chunks)), entries, closed) <==> OneLineEntries(entries)
  {
    hide Cut, DataOf, Transcript;
    ExpectedShowsAll(Callbacks(Concat(chunks)), entries, closed);
    if OneLineEntries(entries) {
      TranscriptArrives(entries, closed);
    } else if Callbacks(Concat(chunks)) == Expected(entries, closed) {
      CutIsOneLine(Concat(chunks));
      CallbacksAreLines(Cut(Concat(chunks)).done);
      var i :| 0 <= i < |entries| && !(OneLine(entries[i].timestamp) && OneLine(entries[i].message));
      ShownAt(entries, i);
      assert Expected(entries, closed)[i] == Shown(entries[i]);
      assert Shown(entries[i]) in Callbacks(Concat(chunks));
      NewlineShows(entries[i]);
      assert false;
    }
  }

  lemma NewlineShows(e: LogEntry)
    requires OneLine(Shown(e))
    ensures OneLine(e.timestamp) && OneLine(e.message)
  {
    var s := Shown(e);
    assert e.timestamp == s[1..1 + |e.timestamp|];
    assert e.message == s[3 + |e.timestamp|..];
  }

  /** A connection cut anywhere has shown a prefix. */
  lemma CutShowsPrefix(stream: string, n: nat)
    requires n <= |stream|
    ensures Callbacks(stream[..n]) <= Callbacks(stream)
  {
    assert stream[..n] + stream[n..] == stream;
    CallbacksResume(stream[..n], stream[n..]);
  }
}
