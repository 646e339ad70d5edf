/** What a reader that conforms to section 9.2.6 of the WHATWG HTML Standard makes of the printed events, and exactly when
    it is what the browser's parser makes of them. */
module LogStandard {
  import opened LogStream

  // ----- section 9.2.6 of the WHATWG HTML Standard ---------------------------------------------------

  datatype Dispatch = Dispatch(eventType: string, data: string)

  /** The event under construction, and what has been dispatched. */
  datatype Interpreter = Interpreter(eventType: string, data: string, dispatched: seq<Dispatch>)

  const Fresh := Interpreter("", "", [])

  /** The lines of a stream: each ends at a CR LF pair, a LF, or a CR.  An unterminated last line is
      part of no event and is left out. */
  function StandardLines(s: string): seq<string> {
    var i := LineEnd(s);
    if i == |s| then []
    else if s[i] == '\r' && i + 1 < |s| && s[i + 1] == '\n' then [s[..i]] + StandardLines(s[i + 2..])
    else [s[..i]] + StandardLines(s[i + 1..])
  }

  function LineEnd(s: string): (i: nat)
    ensures i <= |s|
    ensures i < |s| ==> s[i] == '\r' || s[i] == '\n'
    ensures forall j | 0 <= j < i :: s[j] != '\r' && s[j] != '\n'
  {
    if s == "" || s[0] == '\r' || s[0] == '\n' then 0 else 1 + LineEnd(s[1..])
  }

  function Colon(line: string): (i: nat)
    ensures i <= |line|
    ensures i < |line| ==> line[i] == ':'
    ensures forall j | 0 <= j < i :: line[j] != ':'
  {
    if line == "" || line[0] == ':' then 0 else 1 + Colon(line[1..])
  }

  function FieldValue(rest: string): string {
    if rest != "" && rest[0] == ' ' then rest[1..] else rest
  }

  function ProcessField(st: Interpreter, field: string, value: string): Interpreter {
    if field == "event" then st.(eventType := value)
    else if field == "data" then st.(data := st.data + value + NL)
    else st
  }

  function DispatchEvent(st: Interpreter): Interpreter {
    if st.data == "" then st.(eventType := "")
    else
      var n := |st.data| - 1;
      var data := if st.data[n] == '\n' then st.data[..n] else st.data;
      var kind := if st.eventType == "" then "message" else st.eventType;
      Interpreter("", "", st.dispatched + [Dispatch(kind, data)])
  }

  function ProcessLine(st: Interpreter, line: string): Interpreter {
    if line == "" then DispatchEvent(st)
    else
      var i := Colon(line);
      if i == 0 then st
      else if i == |line| then ProcessField(st, line, "")
      else ProcessField(st, line[..i], FieldValue(line[i + 1..]))
  }

  function Interpret(st: Interpreter, lines: seq<string>): Interpreter {
    if lines == [] then st
    else ProcessLine(Interpret(st, lines[..|lines| - 1]), lines[|lines| - 1])
  }

  function StandardEvents(stream: string): seq<Dispatch> {
    var body := if stream != "" && stream[0] == '\U{FEFF}' then stream[1..] else stream;
    Interpret(Fresh, StandardLines(body)).dispatched
  }

  predicate NoReturn(s: string) {
    '\r' !in s
  }

  /** Without carriage returns the standard's lines are the finished lines. */
  lemma {:induction false} StandardLinesAreFinished(s: string)
    requires NoReturn(s)
    ensures StandardLines(s) == Cut(s).done
  {
    var i := LineEnd(s);
    if i == |s| {
      CutOneLine(s);
    } else {
      assert s[i] == '\n';
      assert s == s[..i] + NL + s[i + 1..];
      CutLine(s[..i], s[i + 1..]);
      StandardLinesAreFinished(s[i + 1..]);
    }
  }

  lemma {:induction false} InterpretConcat(st: Interpreter, a: seq<string>, b: seq<string>)
    ensures Interpret(st, a + b) == Interpret(Interpret(st, a), b)
  {
    hide ProcessLine;
    if b == [] {
      assert a + b == a;
    } else {
      var n := |b| - 1;
      assert (a + b)[..|a + b| - 1] == a + b[..n];
      InterpretConcat(st, a, b[..n]);
    }
  }

  lemma InterpretOne(st: Interpreter, line: string)
    ensures Interpret(st, [line]) == ProcessLine(st, line)
  {
    assert [line][..0] == [];
  }

  lemma DataLine(st: Interpreter, text: string)
    ensures ProcessLine(st, "data: " + text) == st.(data := st.data + text + NL)
  {
    var line := "data: " + text;
    assert line[0] == 'd' && line[1] == 'a' && line[2] == 't' && line[3] == 'a' && line[4] == ':';
    assert Colon(line) == 4;
    assert line[..4] == "data" && line[5..] == " " + text;
    assert (" " + text)[1..] == text;
  }

  lemma EventLine(st: Interpreter)
    ensures ProcessLine(st, "event: done") == st.(eventType := "done")
  {
    var line := "event: done";
    assert line[5] == ':';
    assert Colon(line) == 5;
    assert line[..5] == "event" && line[6..] == " done";
    assert " done"[1..] == "done";
  }

  lemma BlankLine(st: Interpreter, text: string)
    requires st.data == text + NL
    ensures ProcessLine(st, "")
            == Interpreter("", "", st.dispatched + [Dispatch(if st.eventType == "" then "message" else st.eventType, text)])
  {
    assert (text + NL)[..|text|] == text;
  }

  lemma EntryDispatches(st: Interpreter, e: LogEntry)
    requires st.eventType == "" && st.data == ""
    ensures Interpret(st, EntryLines(e)) == st.(dispatched := st.dispatched + [Dispatch("message", Shown(e))])
  {
    hide Interpret, ProcessLine, Shown;
    var line := "data: " + Shown(e);
    assert EntryLines(e) == [line] + [""];
    InterpretConcat(st, [line], [""]);
    InterpretOne(st, line);
    DataLine(st, Shown(e));
    var mid := Interpret(st, [line]);
    assert "" + Shown(e) + NL == Shown(e) + NL;
    InterpretOne(mid, "");
    BlankLine(mid, Shown(e));
  }

  lemma ClosingDispatches(st: Interpreter)
    requires st.eventType == "" && st.data == ""
    ensures Interpret(st, ClosingLines) == st.(dispatched := st.dispatched + [Dispatch("done", "stream closed")])
  {
    hide Interpret, ProcessLine;
    var line := "data: stream closed";
    assert line == "data: " + "stream closed";
    assert ClosingLines == ["event: done"] + ([line] + [""]);
    InterpretConcat(st, ["event: done"], [line] + [""]);
    InterpretOne(st, "event: done");
    EventLine(st);
    var first := st.(eventType := "done");
    InterpretConcat(first, [line], [""]);
    InterpretOne(first, line);
    DataLine(first, "stream closed");
    var second := Interpret(first, [line]);
    assert second.data == "" + "stream closed" + NL == "stream closed" + NL;
    InterpretOne(second, "");
    BlankLine(second, "stream closed");
  }

  function Messages(texts: seq<string>): (r: seq<Dispatch>)
    ensures |r| == |texts|
  {
    if texts == [] then []
    else Messages(texts[..|texts| - 1]) + [Dispatch("message", texts[|texts| - 1])]
  }

  lemma {:induction false} EntriesDispatch(entries: seq<LogEntry>)
    requires OneLineEntries(entries)
    ensures Interpret(Fresh, Cut(PrintEntries(entries)).done) == Interpreter("", "", Messages(AllShown(entries)))
  {
    if entries == [] {
      assert PrintEntries(entries) == "" && Interpret(Fresh, []) == Fresh;
    } else {
      hide Cut, PrintEntry, EntryLines, Interpret, Shown;
      var n := |entries| - 1;
      var before, e := PrintEntries(entries[..n]), entries[n];
      EntriesDispatch(entries[..n]);
      EntriesArrive(entries[..n]);
      EntryCuts(e);
      WholeLinesAppend(before, PrintEntry(e), EntryLines(e));
      InterpretConcat(Fresh, Cut(before).done, EntryLines(e));
      EntryDispatches(Interpret(Fresh, Cut(before).done), e);
      assert AllShown(entries)[..n] == AllShown(entries[..n]);
    }
  }

  function ClosingDispatch(closed: bool): seq<Dispatch> {
    if closed then [Dispatch("done", "stream closed")] else []
  }

  lemma TranscriptDispatches(entries: seq<LogEntry>, closed: bool)
    requires OneLineEntries(entries)
    ensures Interpret(Fresh, Cut(Transcript(entries, closed)).done).dispatched
            == Messages(AllShown(entries)) + ClosingDispatch(closed)
  {
    hide Cut, Interpret, PrintEntries, Messages, AllShown;
    EntriesDispatch(entries);
    EntriesArrive(entries);
    var printed := PrintEntries(entries);
    if closed {
      ClosingCuts();
      WholeLinesAppend(printed, ClosingEvent, ClosingLines);
      InterpretConcat(Fresh, Cut(printed).done, ClosingLines);
      ClosingDispatches(Interpret(Fresh, Cut(printed).done));
    } else {
      assert printed + "" == printed;
    }
  }

  lemma {:induction false} StartsWithoutMark(entries: seq<LogEntry>, closed: bool)
    ensures Transcript(entries, closed) == "" || Transcript(entries, closed)[0] in "de"
    ensures PrintEntries(entries) == "" || PrintEntries(entries)[0] == 'd'
  {
    if entries != [] {
      StartsWithoutMark(entries[..|entries| - 1], closed);
      assert PrintEntry(entries[|entries| - 1])[0] == 'd';
    }
    assert ClosingEvent[0] == 'e';
  }

  function DispatchedData(ds: seq<Dispatch>): seq<string> {
    if ds == [] then [] else DispatchedData(ds[..|ds| - 1]) + [ds[|ds| - 1].data]
  }

  lemma DataAppends(ds: seq<Dispatch>, d: Dispatch)
    ensures DispatchedData(ds + [d]) == DispatchedData(ds) + [d.data]
  {
    assert (ds + [d])[..|ds|] == ds;
  }

  lemma {:induction false} DataOfTexts(texts: seq<string>)
    ensures DispatchedData(Messages(texts)) == texts
  {
    if texts != [] {
      var n := |texts| - 1;
      DataOfTexts(texts[..n]);
      assert Messages(texts) == Messages(texts[..n]) + [Dispatch("message", texts[n])];
      hide DispatchedData, Messages;
      DataAppends(Messages(texts[..n]), Dispatch("message", texts[n]));
      assert texts == texts[..n] + [texts[n]];
    }
  }

  lemma DataOfMessages(texts: seq<string>, closed: bool)
    ensures DispatchedData(Messages(texts) + ClosingDispatch(closed))
            == texts + if closed then ["stream closed"] else []
  {
    hide DispatchedData, Messages;
    DataOfTexts(texts);
    if closed {
      DataAppends(Messages(texts), Dispatch("done", "stream closed"));
    } else {
      assert Messages(texts) + [] == Messages(texts) && texts + [] == texts;
    }
  }

  // ----- agreement ------------------------------------------------------------------------------------------------

  ghost predicate NoReturns(texts: seq<string>) {
    forall t | t in texts :: NoReturn(t)
  }

  /** One `message` per entry, in order, with the timestamp in brackets, a space and the message; then `done`. */
  ghost predicate DispatchesAll(ds: seq<Dispatch>, entries: seq<LogEntry>, closed: bool) {
    && |ds| == |entries| + (if closed then 1 else 0)
    && (forall i | 0 <= i < |entries| :: ds[i] == Dispatch("message", "[" + entries[i].timestamp + "] " + entries[i].message))
    && (closed ==> ds[|entries|] == Dispatch("done", "stream closed"))
  }

  lemma {:induction false} MessagesAt(texts: seq<string>, i: nat)
    requires i < |texts|
    ensures Messages(texts)[i] == Dispatch("message", texts[i])
  {
    if i < |texts| - 1 {
      MessagesAt(texts[..|texts| - 1], i);
    }
  }

  lemma MessagesDispatchAll(entries: seq<LogEntry>, closed: bool)
    ensures DispatchesAll(Messages(AllShown(entries)) + ClosingDispatch(closed), entries, closed)
  {
    hide Messages, AllShown;
    forall i: nat | i < |entries|
      ensures Messages(AllShown(entries))[i]
              == Dispatch("message", "[" + entries[i].timestamp + "] " + entries[i].message)
    {
      ShownAt(entries, i);
      MessagesAt(AllShown(entries), i);
    }
  }

  /** On entries without carriage returns a conforming reader dispatches what the browser's parser calls
      back with: one `message` per entry, and the closing notice as a `done` event. */
  lemma AgreesWithStandard(entries: seq<LogEntry>, closed: bool)
    requires OneLineEntries(entries) && NoReturns(AllShown(entries))
    ensures DispatchesAll(StandardEvents(Transcript(entries, closed)), entries, closed)
    ensures DispatchedData(StandardEvents(Transcript(entries, closed))) == Callbacks(Transcript(entries, closed))
  {
    hide Cut, Interpret, Transcript, Messages, AllShown, StandardLines, NoReturns, NoReturn;
    TranscriptHasNone(entries, closed);
    StartsWithoutMark(entries, closed);
    StandardLinesAreFinished(Transcript(entries, closed));
    TranscriptDispatches(entries, closed);
    TranscriptArrives(entries, closed);
    DataOfMessages(AllShown(entries), closed);
    MessagesDispatchAll(entries, closed);
  }

  lemma {:induction false} PrintedHasNone(entries: seq<LogEntry>)
    requires NoReturns(AllShown(entries))
    ensures NoReturn(PrintEntries(entries))
  {
    if entries != [] {
      hide Shown;
      var n := |entries| - 1;
      var shown := AllShown(entries[..n]);
      assert AllShown(entries) == shown + [Shown(entries[n])];
      forall t | t in shown
        ensures NoReturn(t)
      {
        assert t in AllShown(entries);
      }
      PrintedHasNone(entries[..n]);
      assert Shown(entries[n]) in AllShown(entries);
      assert NoReturn(PrintEntry(entries[n]));
    }
  }

  lemma TranscriptHasNone(entries: seq<LogEntry>, closed: bool)
    requires NoReturns(AllShown(entries))
    ensures NoReturn(Transcript(entries, closed))
  {
    hide PrintEntries, AllShown, NoReturns;
    PrintedHasNone(entries);
    assert NoReturn(ClosingEvent);
  }

  /** A carriage return ends a line, so no line of the standard's holds one. */
  lemma {:induction false} LinesHoldNone(s: string)
    ensures NoReturns(StandardLines(s))
  {
    var i := LineEnd(s);
    if i < |s| {
      assert NoReturn(s[..i]);
      if s[i] == '\r' && i + 1 < |s| && s[i + 1] == '\n' {
        LinesHoldNone(s[i + 2..]);
      } else {
        LinesHoldNone(s[i + 1..]);
      }
    }
  }

  ghost predicate HoldsNone(st: Interpreter) {
    NoReturn(st.data) && forall d | d in st.dispatched :: NoReturn(d.data)
  }

  lemma LineKeepsNone(st: Interpreter, line: string)
    requires HoldsNone(st) && NoReturn(line)
    ensures HoldsNone(ProcessLine(st, line))
  {
  }

  lemma {:induction false} InterpretKeepsNone(st: Interpreter, lines: seq<string>)
    requires HoldsNone(st) && NoReturns(lines)
    ensures HoldsNone(Interpret(st, lines))
  {
    if lines != [] {
      hide HoldsNone, NoReturn, ProcessLine;
      var n := |lines| - 1;
      forall t | t in lines[..n]
        ensures NoReturn(t)
      {
        assert t in lines;
      }
      InterpretKeepsNone(st, lines[..n]);
      LineKeepsNone(Interpret(st, lines[..n]), lines[n]);
    }
  }

  lemma {:induction false} DataHoldsNone(ds: seq<Dispatch>)
    requires forall d | d in ds :: NoReturn(d.data)
    ensures NoReturns(DispatchedData(ds))
  {
    if ds != [] {
      hide NoReturn;
      forall d | d in ds[..|ds| - 1]
        ensures NoReturn(d.data)
      {
        assert d in ds;
      }
      DataHoldsNone(ds[..|ds| - 1]);
    }
  }

  lemma StandardDataHoldNone(stream: string)
    ensures NoReturns(DispatchedData(StandardEvents(stream)))
  {
    hide StandardLines, Interpret, NoReturn, NoReturns;
    var body := if stream != "" && stream[0] == '\U{FEFF}' then stream[1..] else stream;
    LinesHoldNone(body);
    assert HoldsNone(Fresh) by { FreshHoldsNone(); }
    InterpretKeepsNone(Fresh, StandardLines(body));
    DataHoldsNone(Interpret(Fresh, StandardLines(body)).dispatched);
  }

  lemma FreshHoldsNone()
    ensures HoldsNone(Fresh)
  {
  }

  /** On entries of one line each, a conforming reader and the browser's parser see the same texts in the same order
      exactly when no entry contains a carriage return. */
  lemma AgreementIsExact(entries: seq<LogEntry>, closed: bool)
    requires OneLineEntries(entries)
    ensures DispatchedData(StandardEvents(Transcript(entries, closed))) == Callbacks(Transcript(entries, closed))
            <==> NoReturns(AllShown(entries))
  {
    hide Transcript, StandardEvents, DispatchedData, Callbacks, NoReturn, AllShown, OneLineEntries;
    if NoReturns(AllShown(entries)) {
      AgreesWithStandard(entries, closed);
    } else {
      var t :| t in AllShown(entries) && !NoReturn(t);
      TranscriptArrives(entries, closed);
      assert t in Expected(entries, closed);
      StandardDataHoldNone(Transcript(entries, closed));
    }
  }
}
