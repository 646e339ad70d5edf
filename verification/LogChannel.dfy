/** The bounded channel between the pod reader (`StreamLogs` in apiserver/adapter/adapter.go) and the
    HTTP handler (`HandleGetLogs` in apiserver/handler/logs.go), as a machine whose steps may be
    interleaved in any order. */
module LogChannel {
  import opened LogStream

  const CAPACITY := 64

  /** A pod either cannot be opened, which sends one report, or yields its lines. */
  datatype Pod = Broken(report: LogEntry) | Serving(lines: seq<LogEntry>)

  /** Where the reading goroutine stands: about to open a pod, or before one of its lines. */
  datatype Reader = Opening(pod: nat) | Scanning(pod: nat, line: nat) | Finished

  datatype Handler = Looping | Abandoned | Completed

  /** `sent` records every entry ever put on the channel and `written` every entry printed. */
  datatype Pipe = Pipe(
    pods: seq<Pod>, reader: Reader, queue: seq<LogEntry>, closed: bool, cancelled: bool,
    handler: Handler, out: string, sent: seq<LogEntry>, written: seq<LogEntry>)

  datatype Action =
    | Read          // the reader's next action: open a pod, send an entry, or close the channel
    | ReaderQuits   // the reader's select takes the cancelled branch
    | Handle        // the handler's select receives from the channel
    | HandlerQuits  // the handler's select takes the cancelled branch
    | Cancel        // the request's context is cancelled

  function Start(pods: seq<Pod>, notice: LogEntry): Pipe {
    Pipe(if pods == [] then [Broken(notice)] else pods, Opening(0), [], false, false, Looping, "", [], [])
  }

  /** A send blocks, so changes nothing, while the channel is full. */
  function Send(p: Pipe, e: LogEntry, next: Reader): Pipe {
    if |p.queue| < CAPACITY then p.(queue := p.queue + [e], sent := p.sent + [e], reader := next) else p
  }

  function Close(p: Pipe): Pipe {
    p.(reader := Finished, closed := true)
  }

  function ReadStep(p: Pipe): Pipe {
    match p.reader
    case Finished => p
    case Opening(i) =>
      if i >= |p.pods| then Close(p)
      else if p.pods[i].Broken? then Send(p, p.pods[i].report, Opening(i + 1))
      else p.(reader := Scanning(i, 0))
    case Scanning(i, l) =>
      if i >= |p.pods| || p.pods[i].Broken? || l >= |p.pods[i].lines| then p.(reader := Opening(i + 1))
      else Send(p, p.pods[i].lines[l], Scanning(i, l + 1))
  }

  function HandleStep(p: Pipe): Pipe {
    if !p.handler.Looping? then p
    else if p.queue != [] then
      p.(queue := p.queue[1..], written := p.written + [p.queue[0]], out := p.out + PrintEntry(p.queue[0]))
    else if p.closed then p.(handler := Completed, out := p.out + ClosingEvent)
    else p
  }

  function Step(p: Pipe, a: Action): Pipe {
    match a
    case Read => ReadStep(p)
    case ReaderQuits => if p.cancelled && p.reader.Scanning? then Close(p) else p
    case Handle => HandleStep(p)
    case HandlerQuits => if p.cancelled && p.handler.Looping? then p.(handler := Abandoned) else p
    case Cancel => p.(cancelled := true)
  }

  function Run(p: Pipe, actions: seq<Action>): Pipe {
    if actions == [] then p
    else Step(Run(p, actions[..|actions| - 1]), actions[|actions| - 1])
  }

  // ----- conservation ---------------------------------------------------------------------------------

  function PodEntries(pod: Pod): seq<LogEntry> {
    if pod.Broken? then [pod.report] else pod.lines
  }

  /** Everything the pods have to say, pod by pod and line by line. */
  function Script(pods: seq<Pod>): seq<LogEntry> {
    if pods == [] then [] else Script(pods[..|pods| - 1]) + PodEntries(pods[|pods| - 1])
  }

  /** What the pods say comes pod by pod, in their order. */
  lemma {:induction false} ScriptInOrder(a: seq<Pod>, b: seq<Pod>)
    ensures Script(a + b) == Script(a) + Script(b)
  {
    hide PodEntries;
    if b == [] {
      assert a + b == a;
    } else {
      var n := |b| - 1;
      assert (a + b)[..|a + b| - 1] == a + b[..n];
      ScriptInOrder(a, b[..n]);
    }
  }

  /** A pod that cannot be opened says its report, any other its lines. */
  lemma ScriptOfOne(pod: Pod)
    ensures Script([pod]) == if pod.Broken? then [pod.report] else pod.lines
  {
    assert [pod][..0] == [];
  }

  lemma ScriptNext(pods: seq<Pod>, i: nat)
    requires i < |pods|
    ensures Script(pods[..i + 1]) == Script(pods[..i]) + PodEntries(pods[i])
  {
    assert pods[..i + 1][..i] == pods[..i];
  }

  lemma {:induction false} ScriptPrefix(pods: seq<Pod>, i: nat)
    requires i <= |pods|
    ensures Script(pods[..i]) <= Script(pods)
    decreases |pods| - i
  {
    if i == |pods| {
      assert pods[..i] == pods;
    } else {
      ScriptPrefix(pods, i + 1);
      ScriptNext(pods, i);
    }
  }

  /** The reader has sent exactly the script up to where it stands. */
  ghost predicate SentInOrder(p: Pipe) {
    match p.reader
    case Opening(i) => i <= |p.pods| && p.sent == Script(p.pods[..i])
    case Scanning(i, l) =>
      && i < |p.pods| && p.pods[i].Serving? && l <= |p.pods[i].lines|
      && p.sent == Script(p.pods[..i]) + p.pods[i].lines[..l]
    case Finished => p.sent <= Script(p.pods) && (p.cancelled || p.sent == Script(p.pods))
  }

  ghost predicate Conserving(p: Pipe) {
    && p.written + p.queue == p.sent
    && |p.queue| <= CAPACITY
    && (p.closed <==> p.reader.Finished?)
    && SentInOrder(p)
    && p.out == Transcript(p.written, p.handler.Completed?)
    && (p.handler.Completed? ==> p.closed && p.queue == [])
  }

  lemma PrintAppends(entries: seq<LogEntry>, e: LogEntry)
    ensures Transcript(entries, false) + PrintEntry(e) == Transcript(entries + [e], false)
  {
    hide PrintEntry;
    assert (entries + [e])[..|entries|] == entries;
    assert PrintEntries(entries) + "" == PrintEntries(entries);
    assert PrintEntries(entries + [e]) + "" == PrintEntries(entries + [e]);
  }

  lemma SendConserves(p: Pipe, e: LogEntry, next: Reader)
    requires Conserving(p) && !p.reader.Finished? && !next.Finished?
    requires SentInOrder(p.(sent := p.sent + [e], reader := next))
    ensures Conserving(Send(p, e, next))
  {
    hide SentInOrder, Transcript;
    if |p.queue| < CAPACITY {
      assert p.written + (p.queue + [e]) == (p.written + p.queue) + [e];
      SentUnaffected(p.(sent := p.sent + [e], reader := next), Send(p, e, next));
    }
  }

  lemma ReadConserves(p: Pipe)
    requires Conserving(p)
    ensures Conserving(ReadStep(p))
  {
    hide Transcript, Script, Send;
    match p.reader {
      case Finished =>
      case Opening(i) =>
        if i == |p.pods| {
          assert p.pods[..i] == p.pods;
        } else {
          ScriptNext(p.pods, i);
          if p.pods[i].Broken? {
            SendConserves(p, p.pods[i].report, Opening(i + 1));
          }
        }
      case Scanning(i, l) =>
        ScriptNext(p.pods, i);
        if l < |p.pods[i].lines| {
          assert p.pods[i].lines[..l + 1] == p.pods[i].lines[..l] + [p.pods[i].lines[l]];
          SendConserves(p, p.pods[i].lines[l], Scanning(i, l + 1));
        } else {
          assert p.pods[i].lines[..l] == p.pods[i].lines;
        }
    }
  }

  lemma HandleConserves(p: Pipe)
    requires Conserving(p)
    ensures Conserving(HandleStep(p))
  {
    hide SentInOrder, PrintEntry, Transcript;
    if p.handler.Looping? && p.queue != [] {
      PrintAppends(p.written, p.queue[0]);
      assert p.queue == [p.queue[0]] + p.queue[1..];
      assert p.written + p.queue == (p.written + [p.queue[0]]) + p.queue[1..];
    } else if p.handler.Looping? && p.closed {
      ClosingAppends(p.written);
    }
    assert SentInOrder(p) ==> SentInOrder(HandleStep(p)) by {
      SentUnaffected(p, HandleStep(p));
    }
  }

  lemma SentUnaffected(p: Pipe, q: Pipe)
    requires p.pods == q.pods && p.reader == q.reader && p.sent == q.sent && (p.cancelled ==> q.cancelled)
    ensures SentInOrder(p) ==> SentInOrder(q)
  {
  }

  lemma ClosingAppends(entries: seq<LogEntry>)
    ensures Transcript(entries, false) + ClosingEvent == Transcript(entries, true)
  {
    assert PrintEntries(entries) + "" == PrintEntries(entries);
  }

  lemma QuitConserves(p: Pipe)
    requires Conserving(p)
    ensures Conserving(Step(p, ReaderQuits)) && Conserving(Step(p, HandlerQuits)) && Conserving(Step(p, Cancel))
  {
    hide Transcript;
    if p.reader.Scanning? {
      var i := p.reader.pod;
      ScriptNext(p.pods, i);
      ScriptPrefix(p.pods, i + 1);
    }
  }

  lemma StepConserves(p: Pipe, a: Action)
    requires Conserving(p)
    ensures Conserving(Step(p, a)) && Step(p, a).pods == p.pods
  {
    hide Conserving;
    match a {
      case Read => ReadConserves(p);
      case Handle => HandleConserves(p);
      case ReaderQuits => QuitConserves(p);
      case HandlerQuits => QuitConserves(p);
      case Cancel => QuitConserves(p);
    }
  }

  lemma StartConserves(pods: seq<Pod>, notice: LogEntry)
    ensures Conserving(Start(pods, notice))
  {
    var p := Start(pods, notice);
    assert p.pods[..0] == [];
  }

  /** In every interleaving of reader, handler and cancellation, what was written followed by what is
      still queued is what was sent, the queue is bounded, and what was sent follows pod-then-line order. */
  lemma {:induction false} Conservation(pods: seq<Pod>, notice: LogEntry, actions: seq<Action>)
    ensures Conserving(Run(Start(pods, notice), actions))
    ensures Run(Start(pods, notice), actions).pods == Start(pods, notice).pods
  {
    if actions == [] {
      StartConserves(pods, notice);
    } else {
      hide Conserving, Step, Start;
      Conservation(pods, notice, actions[..|actions| - 1]);
      StepConserves(Run(Start(pods, notice), actions[..|actions| - 1]), actions[|actions| - 1]);
    }
  }

  lemma SentIsScripted(p: Pipe)
    requires Conserving(p)
    ensures p.sent <= Script(p.pods)
  {
    match p.reader {
      case Finished =>
      case Opening(i) => ScriptPrefix(p.pods, i);
      case Scanning(i, l) =>
        ScriptNext(p.pods, i);
        ScriptPrefix(p.pods, i + 1);
    }
  }

  // ----- histories ------------------------------------------------------------------------------------

  /** The `i`th step of a history. */
  ghost predicate StepAt(pipes: seq<Pipe>, actions: seq<Action>, i: nat)
    requires |pipes| == |actions| + 1 && i < |actions|
  {
    pipes[i + 1] == Step(pipes[i], actions[i])
  }

  /** An interleaving of reader, handler and cancellation, with all its states. */
  ghost predicate History(pipes: seq<Pipe>, actions: seq<Action>) {
    |pipes| == |actions| + 1 && forall i | 0 <= i < |actions| :: StepAt(pipes, actions, i)
  }

  lemma {:induction false} HistoryIsRun(pipes: seq<Pipe>, actions: seq<Action>)
    requires History(pipes, actions)
    ensures pipes[|actions|] == Run(pipes[0], actions)
  {
    if actions == [] {
    } else {
      hide Step;
      var n := |actions| - 1;
      var fewer, first := pipes[..n + 1], actions[..n];
      forall i | 0 <= i < n
        ensures StepAt(fewer, first, i)
      {
        assert StepAt(pipes, actions, i);
      }
      HistoryIsRun(fewer, first);
      assert StepAt(pipes, actions, n);
    }
  }

  /** Nothing is invented, reordered or repeated; and a request that is never cancelled and runs to its
      closing event has written everything. */
  lemma NothingLost(pipes: seq<Pipe>, actions: seq<Action>, pods: seq<Pod>, notice: LogEntry)
    requires History(pipes, actions) && pipes[0] == Start(pods, notice)
    ensures var p := pipes[|actions|];
            && p.written <= Script(p.pods)
            && (p.handler.Completed? && !p.cancelled ==> p.written == Script(p.pods))
  {
    HistoryIsRun(pipes, actions);
    Conservation(pods, notice, actions);
    SentIsScripted(pipes[|actions|]);
    hide Run, Start, History, Script;
  }

  // ----- the handler's loop is the machine's handler ------------------------------------------------------

  /** What the handler's select picks at this action, if anything. */
  function PickOf(p: Pipe, a: Action): seq<Pick> {
    if !p.handler.Looping? then []
    else if a.Handle? && p.queue != [] then [Received(p.queue[0])]
    else if a.Handle? && p.closed then [ChannelClosed]
    else if a.HandlerQuits? && p.cancelled then [Cancelled]
    else []
  }

  function Picks(p: Pipe, actions: seq<Action>): seq<Pick> {
    if actions == [] then []
    else Picks(p, actions[..|actions| - 1]) + PickOf(Run(p, actions[..|actions| - 1]), actions[|actions| - 1])
  }

  predicate AllReceived(picks: seq<Pick>) {
    forall pick | pick in picks :: pick.Received?
  }

  lemma {:induction false} PicksAppend(picks: seq<Pick>, pick: Pick)
    requires AllReceived(picks)
    ensures Taken(picks + [pick]) == Taken(picks) + if pick.Received? then [pick.entry] else []
    ensures SeesClose(picks + [pick]) == pick.ChannelClosed? && !SeesClose(picks)
  {
    if picks == [] {
      assert [pick][1..] == [];
    } else {
      PicksAppend(picks[1..], pick);
      assert (picks + [pick])[1..] == picks[1..] + [pick];
    }
  }

  /** The picks so far tell what was written and whether the handler has seen the channel close. */
  ghost predicate PicksTell(picks: seq<Pick>, p: Pipe) {
    && Taken(picks) == p.written && SeesClose(picks) == p.handler.Completed?
    && (p.handler.Looping? ==> AllReceived(picks))
  }

  lemma StepTells(picks: seq<Pick>, p: Pipe, a: Action)
    requires PicksTell(picks, p)
    ensures PicksTell(picks + PickOf(p, a), Step(p, a))
  {
    hide PrintEntry, Taken, SeesClose;
    if PickOf(p, a) != [] {
      PicksAppend(picks, PickOf(p, a)[0]);
    } else {
      assert picks + [] == picks;
    }
  }

  lemma {:induction false} PicksTellAll(pods: seq<Pod>, notice: LogEntry, actions: seq<Action>)
    ensures PicksTell(Picks(Start(pods, notice), actions), Run(Start(pods, notice), actions))
  {
    if actions != [] {
      hide PicksTell, Step, PickOf, Start;
      PicksTellAll(pods, notice, actions[..|actions| - 1]);
      StepTells(Picks(Start(pods, notice), actions[..|actions| - 1]), Run(Start(pods, notice), actions[..|actions| - 1]),
                actions[|actions| - 1]);
    }
  }

  /** In every interleaving the machine's handler has printed what the handler's own loop prints for the picks it
      was given. */
  method HandlerPrints(pods: seq<Pod>, notice: LogEntry, actions: seq<Action>) returns (out: string)
    ensures out == Run(Start(pods, notice), actions).out
  {
    out := HandleGetLogs(Picks(Start(pods, notice), actions));
    Conservation(pods, notice, actions);
    PicksTellAll(pods, notice, actions);
    hide Run, Picks, Start;
  }

  // ----- from pod to browser --------------------------------------------------------------------------

  lemma {:induction false} ScriptIsOneLine(pods: seq<Pod>)
    requires forall pod | pod in pods :: OneLineEntries(PodEntries(pod))
    ensures OneLineEntries(Script(pods))
  {
    if pods != [] {
      ScriptIsOneLine(pods[..|pods| - 1]);
      assert pods[|pods| - 1] in pods;
    }
  }

  /** End to end, in every interleaving and however the response is chunked: the browser has shown a
      prefix of what the pods have to say, in order, and then the closing notice if the handler sent it.
      If the request was never cancelled, the closing notice means that everything was shown. */
  lemma PodsToBrowser(pipes: seq<Pipe>, actions: seq<Action>, pods: seq<Pod>, notice: LogEntry, chunks: seq<string>)
    requires History(pipes, actions) && pipes[0] == Start(pods, notice)
    requires forall pod | pod in pipes[0].pods :: OneLineEntries(PodEntries(pod))
    requires Concat(chunks) == pipes[|actions|].out
    ensures var p := pipes[|actions|];
            && p.pods == (if pods == [] then [Broken(notice)] else pods)
            && p.written <= Script(p.pods)
            && ShowsAll(Callbacks(Concat(chunks)), p.written, p.handler.Completed?)
            && (p.handler.Completed? && !p.cancelled ==> ShowsAll(Callbacks(Concat(chunks)), Script(p.pods), true))
  {
    assert |pipes| == |actions| + 1;
    hide Callbacks, ShowsAll, Transcript, Start, Run, Concat, Script, PodEntries, History;
    HistoryIsRun(pipes, actions);
    NothingLost(pipes, actions, pods, notice);
    Conservation(pods, notice, actions);
    var p := pipes[|actions|];
    ScriptIsOneLine(p.pods);
    assert OneLineEntries(p.written) by {
      assert forall e | e in p.written :: e in Script(p.pods);
    }
    RoundTrip(p.written, p.handler.Completed?, chunks);
  }
}
