/** Logs arrive: while the handler keeps receiving and the request is not cancelled, the reader gets through all
    pods, the channel closes, and the handler finishes with everything written. */
module LogProgress {
  import opened LogStream
  import opened LogChannel

  /** An infinite run of the channel. */
  function At(p: Pipe, trace: nat -> Action, i: nat): Pipe {
    if i == 0 then p else Step(At(p, trace, i - 1), trace(i - 1))
  }

  ghost predicate ComesAgain(trace: nat -> Action, a: Action, i: nat) {
    exists j: nat :: i <= j && trace(j) == a
  }

  /** Reader and handler keep taking turns, and nobody cancels the request. */
  ghost predicate Patient(trace: nat -> Action) {
    && (forall i: nat :: ComesAgain(trace, Read, i))
    && (forall i: nat :: ComesAgain(trace, Handle, i))
    && (forall i: nat :: trace(i) != Cancel)
  }

  ghost predicate Calm(p: Pipe) {
    Sound(p) && !p.cancelled && !p.handler.Abandoned?
  }

  /** Reader and handler keep taking turns, and once the request is cancelled the reader's select keeps noticing. */
  ghost predicate Fair(trace: nat -> Action) {
    && (forall i: nat :: ComesAgain(trace, Read, i))
    && (forall i: nat :: ComesAgain(trace, Handle, i))
    && (forall c: nat, i: nat | trace(c) == Cancel :: ComesAgain(trace, ReaderQuits, i))
  }

  /** The handler leaves early only when the request is cancelled. */
  ghost predicate Sound(p: Pipe) {
    Conserving(p) && (p.handler.Abandoned? ==> p.cancelled)
  }

  /** Before a pod that cannot be opened, with the channel full and the handler gone: the report is sent outside any
      select, so not even the cancellation ends the wait. */
  predicate Stuck(p: Pipe) {
    && p.reader.Opening? && p.reader.pod < |p.pods| && p.pods[p.reader.pod].Broken?
    && |p.queue| >= CAPACITY && !p.handler.Looping?
  }

  // ----- what is left to read -----------------------------------------------------------------------------------

  /** The reader's actions for the pods from the `i`th on, and for closing the channel. */
  function PodsLeft(pods: seq<Pod>, i: nat): nat
    decreases |pods| - i
  {
    if i >= |pods| then 1
    else (if pods[i].Broken? then 1 else |pods[i].lines| + 2) + PodsLeft(pods, i + 1)
  }

  function Left(p: Pipe): nat {
    match p.reader
    case Finished => 0
    case Opening(i) => PodsLeft(p.pods, i)
    case Scanning(i, l) =>
      if i < |p.pods| && p.pods[i].Serving? && l <= |p.pods[i].lines| then
        |p.pods[i].lines| - l + 1 + PodsLeft(p.pods, i + 1)
      else 0
  }

  /** Less is left to read, or the handler has gone. */
  predicate Closer(p: Pipe, q: Pipe) {
    Left(q) < Left(p) || (Left(q) == Left(p) && p.handler.Looping? && !q.handler.Looping?)
  }

  /** The reader stands where it stood, and nothing was sent. */
  predicate Still(p: Pipe, q: Pipe) {
    && q.reader == p.reader && q.pods == p.pods && q.handler == p.handler && (p.cancelled ==> q.cancelled)
    && |q.queue| <= |p.queue| && (!p.handler.Looping? ==> q.queue == p.queue)
  }

  predicate NoFarther(p: Pipe, q: Pipe) {
    Closer(p, q) || Still(p, q)
  }

  lemma NoFartherChains(p: Pipe, q: Pipe, r: Pipe)
    requires NoFarther(p, q) && NoFarther(q, r)
    ensures NoFarther(p, r)
  {
    hide Left;
    if Still(p, q) {
      LeftSame(p, q);
    }
    if Still(q, r) {
      LeftSame(q, r);
    }
  }

  lemma StepNoFarther(p: Pipe, a: Action)
    requires Sound(p)
    ensures Sound(Step(p, a)) && NoFarther(p, Step(p, a))
  {
    StepConserves(p, a);
    if a.Read? || a.ReaderQuits? {
      ReaderNoFarther(p, a);
      hide Left, NoFarther, Conserving;
    } else {
      LeftSame(p, Step(p, a));
      hide Left, Conserving;
    }
    hide PrintEntry;
  }

  lemma ReaderNoFarther(p: Pipe, a: Action)
    requires Sound(p) && (a.Read? || a.ReaderQuits?)
    ensures NoFarther(p, Step(p, a))
  {
    hide Transcript, Script;
  }

  /** With room in the channel the reader's action brings it on; without room too, but for a send. */
  lemma ReadBringsOn(p: Pipe)
    requires Sound(p) && !p.reader.Finished?
    requires |p.queue| < CAPACITY || !(Stuck(p.(handler := Abandoned)) || p.reader.Scanning?)
    ensures Left(Step(p, Read)) < Left(p)
  {
    hide Transcript, PrintEntry, Script;
  }

  lemma QuitBringsOn(p: Pipe)
    requires Sound(p) && p.reader.Scanning? && p.cancelled
    ensures Left(Step(p, ReaderQuits)) < Left(p)
  {
    hide Transcript, PrintEntry, Script;
  }

  /** A handler at work makes room. */
  lemma HandleMakesRoom(p: Pipe)
    requires Sound(p) && !p.reader.Finished? && p.handler.Looping?
    ensures Still(p, Step(p, Handle)) && |Step(p, Handle).queue| < CAPACITY
  {
    hide Transcript, PrintEntry, Script, Left;
  }

  lemma LeftSame(p: Pipe, q: Pipe)
    requires p.reader == q.reader && p.pods == q.pods
    ensures Left(p) == Left(q)
  {
  }

  // ----- along the run ------------------------------------------------------------------------------------------

  lemma {:induction false} StaysSound(p: Pipe, trace: nat -> Action, i: nat)
    requires Sound(p)
    ensures Sound(At(p, trace, i))
  {
    hide Step, Sound;
    if i > 0 {
      StaysSound(p, trace, i - 1);
      StepNoFarther(At(p, trace, i - 1), trace(i - 1));
    }
  }

  lemma {:induction false} RunNoFarther(p: Pipe, trace: nat -> Action, i: nat, j: nat)
    requires Sound(p) && i <= j
    ensures NoFarther(At(p, trace, i), At(p, trace, j))
    decreases j - i
  {
    hide Step, Sound, Left, NoFarther;
    if i < j {
      RunNoFarther(p, trace, i, j - 1);
      StaysSound(p, trace, j - 1);
      StepNoFarther(At(p, trace, j - 1), trace(j - 1));
      NoFartherChains(At(p, trace, i), At(p, trace, j - 1), At(p, trace, j));
    } else {
      assert Still(At(p, trace, i), At(p, trace, j));
      assert NoFarther(At(p, trace, i), At(p, trace, j)) by { StillIsNoFarther(At(p, trace, i)); }
    }
  }

  lemma StillIsNoFarther(p: Pipe)
    ensures NoFarther(p, p)
  {
  }

  lemma {:induction false} StaysCalm(p: Pipe, trace: nat -> Action, i: nat)
    requires Calm(p) && Patient(trace)
    ensures Calm(At(p, trace, i))
  {
    hide Step, Calm, Patient;
    if i > 0 {
      StaysCalm(p, trace, i - 1);
      NeverCancelled(trace, i - 1);
      StepCalm(At(p, trace, i - 1), trace(i - 1));
    }
  }

  lemma StepCalm(p: Pipe, a: Action)
    requires Calm(p) && a != Cancel
    ensures Calm(Step(p, a))
  {
    StepNoFarther(p, a);
    hide Sound, Left, NoFarther;
  }

  lemma NeverCancelled(trace: nat -> Action, i: nat)
    requires Patient(trace)
    ensures trace(i) != Cancel
  {
    hide ComesAgain;
  }

  lemma Next(trace: nat -> Action, a: Action, i: nat) returns (j: nat)
    requires Fair(trace)
    requires a == Read || a == Handle || (a == ReaderQuits && exists c: nat :: trace(c) == Cancel)
    ensures i <= j && trace(j) == a
  {
    assert ComesAgain(trace, a, i);
    j :| i <= j && trace(j) == a;
  }

  lemma {:induction false} CancelledByTrace(p: Pipe, trace: nat -> Action, i: nat)
    requires !p.cancelled && At(p, trace, i).cancelled
    ensures exists c: nat :: trace(c) == Cancel
  {
    if i > 0 && At(p, trace, i - 1).cancelled {
      hide Step;
      CancelledByTrace(p, trace, i - 1);
    } else if i > 0 {
      hide ReadStep, HandleStep;
      assert trace(i - 1) == Cancel by { OnlyCancelCancels(At(p, trace, i - 1), trace(i - 1)); }
    }
  }

  lemma OnlyCancelCancels(p: Pipe, a: Action)
    ensures Step(p, a).cancelled ==> p.cancelled || a == Cancel
  {
    hide PrintEntry;
  }

  lemma FinishedMeansNothingLeft(p: Pipe)
    requires Sound(p)
    ensures p.reader.Finished? <==> Left(p) == 0
  {
    hide Transcript, Script;
  }

  /** While the handler is at work: it makes room, and then the reader's turn comes, unless the handler goes. */
  lemma GetsOnWithHandler(p: Pipe, trace: nat -> Action, i: nat) returns (j: nat)
    requires Sound(p) && Fair(trace) && !At(p, trace, i).reader.Finished? && At(p, trace, i).handler.Looping?
    ensures i <= j && Closer(At(p, trace, i), At(p, trace, j))
  {
    hide Step, Sound, Left, Fair, Closer;
    var h := Next(trace, Handle, i);
    RunNoFarther(p, trace, i, h);
    StaysSound(p, trace, h);
    j := h;
    if Still(At(p, trace, i), At(p, trace, h)) {
      HandleMakesRoom(At(p, trace, h));
      var r := Next(trace, Read, h + 1);
      RunNoFarther(p, trace, h + 1, r);
      StaysSound(p, trace, r);
      CloserAfterStill(At(p, trace, i), At(p, trace, h), At(p, trace, h + 1));
      j := r;
      if Still(At(p, trace, h + 1), At(p, trace, r)) {
        ReadBringsOn(At(p, trace, r));
        LeftSame(At(p, trace, i), At(p, trace, r));
        LessIsCloser(At(p, trace, i), At(p, trace, r + 1));
        j := r + 1;
      } else {
        CloserSame(At(p, trace, i), At(p, trace, h + 1), At(p, trace, r));
      }
    }
  }

  lemma LessIsCloser(p: Pipe, q: Pipe)
    requires Left(q) < Left(p)
    ensures Closer(p, q)
  {
  }

  lemma CloserAfterStill(p: Pipe, q: Pipe, r: Pipe)
    requires Still(p, q) && Still(q, r)
    ensures Still(p, r)
  {
  }

  lemma CloserSame(p: Pipe, q: Pipe, r: Pipe)
    requires Still(p, q) && Closer(q, r)
    ensures Closer(p, r)
  {
    LeftSame(p, q);
    hide Left;
  }

  /** With the handler gone the reader still gets on, by its cancelled branch if the channel is full, unless it is
      stuck. */
  lemma GetsOnAlone(p: Pipe, trace: nat -> Action, i: nat) returns (j: nat)
    requires Sound(p) && !p.cancelled && Fair(trace) && !At(p, trace, i).reader.Finished?
    requires !At(p, trace, i).handler.Looping? && !Stuck(At(p, trace, i))
    ensures i <= j && Closer(At(p, trace, i), At(p, trace, j))
  {
    hide Step, Sound, Left, Fair, Closer;
    var now := At(p, trace, i);
    StaysSound(p, trace, i);
    GoneMeansCancelled(now);
    CancelledByTrace(p, trace, i);
    if now.reader.Scanning? {
      var q := Next(trace, ReaderQuits, i);
      RunNoFarther(p, trace, i, q);
      StaysSound(p, trace, q);
      j := q;
      if Still(now, At(p, trace, q)) {
        QuitBringsOn(At(p, trace, q));
        LeftSame(now, At(p, trace, q));
        LessIsCloser(now, At(p, trace, q + 1));
        j := q + 1;
      }
    } else {
      var r := Next(trace, Read, i);
      RunNoFarther(p, trace, i, r);
      StaysSound(p, trace, r);
      j := r;
      if Still(now, At(p, trace, r)) {
        ReadBringsOn(At(p, trace, r));
        LeftSame(now, At(p, trace, r));
        LessIsCloser(now, At(p, trace, r + 1));
        j := r + 1;
      }
    }
  }

  /** The handler is gone while the reader is at work only if the request was cancelled. */
  lemma GoneMeansCancelled(p: Pipe)
    requires Sound(p) && !p.reader.Finished? && !p.handler.Looping?
    ensures p.cancelled
  {
    hide Transcript, SentInOrder;
  }

  lemma {:induction false} ReaderFinishes(p: Pipe, trace: nat -> Action, i: nat) returns (j: nat)
    requires Sound(p) && !p.cancelled && Fair(trace) && forall x: nat :: !Stuck(At(p, trace, x))
    ensures i <= j && At(p, trace, j).reader.Finished?
    decreases Left(At(p, trace, i)), if At(p, trace, i).handler.Looping? then 1 else 0
  {
    hide At, Sound, Left, Fair, Stuck;
    if At(p, trace, i).reader.Finished? {
      j := i;
    } else {
      var k: nat;
      if At(p, trace, i).handler.Looping? {
        k := GetsOnWithHandler(p, trace, i);
      } else {
        k := GetsOnAlone(p, trace, i);
      }
      j := ReaderFinishes(p, trace, k);
    }
  }

  lemma {:induction false} StuckForGood(p: Pipe, trace: nat -> Action, i: nat, j: nat)
    requires Stuck(At(p, trace, i)) && i <= j
    ensures Stuck(At(p, trace, j))
    decreases j - i
  {
    hide Step, Stuck;
    if i < j {
      StuckForGood(p, trace, i, j - 1);
      StepKeepsStuck(At(p, trace, j - 1), trace(j - 1));
    }
  }

  lemma StepKeepsStuck(p: Pipe, a: Action)
    requires Stuck(p)
    ensures Stuck(Step(p, a))
  {
    hide PrintEntry;
  }

  lemma {:induction false} FinishedForGood(p: Pipe, trace: nat -> Action, i: nat, j: nat)
    requires At(p, trace, i).reader.Finished? && i <= j
    ensures At(p, trace, j).reader.Finished?
    decreases j - i
  {
    hide Step;
    if i < j {
      FinishedForGood(p, trace, i, j - 1);
      StepKeepsFinished(At(p, trace, j - 1), trace(j - 1));
    }
  }

  lemma StepKeepsFinished(p: Pipe, a: Action)
    requires p.reader.Finished?
    ensures Step(p, a).reader.Finished?
  {
    hide PrintEntry;
  }

  ghost predicate ReaderEnds(p: Pipe, trace: nat -> Action) {
    exists j: nat :: At(p, trace, j).reader.Finished?
  }

  ghost predicate NeverStuck(p: Pipe, trace: nat -> Action) {
    forall j: nat :: !Stuck(At(p, trace, j))
  }

  /** In every fair run, cancelled or not: the reader ends, closing the channel, exactly unless it comes to stand before
      a pod that cannot be opened with the channel full and the handler gone. */
  lemma ReaderEndsExactly(pods: seq<Pod>, notice: LogEntry, trace: nat -> Action)
    requires Fair(trace)
    ensures ReaderEnds(Start(pods, notice), trace) <==> NeverStuck(Start(pods, notice), trace)
  {
    var start := Start(pods, notice);
    StartConserves(pods, notice);
    assert Sound(start) && !start.cancelled;
    hide At, Fair, Sound, Start;
    if NeverStuck(start, trace) {
      var j := ReaderFinishes(start, trace, 0);
    }
    if ReaderEnds(start, trace) {
      var i: nat :| At(start, trace, i).reader.Finished?;
      forall j: nat
        ensures !Stuck(At(start, trace, j))
      {
        FinishedNeverStuck(start, trace, i, j);
      }
    }
  }

  lemma FinishedNeverStuck(p: Pipe, trace: nat -> Action, i: nat, j: nat)
    requires At(p, trace, i).reader.Finished?
    ensures !Stuck(At(p, trace, j))
  {
    hide At;
    if i <= j {
      FinishedForGood(p, trace, i, j);
    } else if Stuck(At(p, trace, j)) {
      StuckForGood(p, trace, j, i);
      assert false;
    }
  }

  lemma PatientIsFair(trace: nat -> Action)
    requires Patient(trace)
    ensures Fair(trace)
  {
    hide ComesAgain;
  }

  lemma CalmIsSound(p: Pipe)
    requires Calm(p)
    ensures Sound(p) && !p.cancelled
  {
  }

  lemma CalmIsNotStuck(p: Pipe)
    requires Calm(p)
    ensures !Stuck(p)
  {
    hide Transcript, Script;
  }

  /** What the handler has before it once the channel is closed. */
  function ToHandle(p: Pipe): nat {
    if p.handler.Completed? then 0 else |p.queue| + 1
  }

  lemma ClosedStep(p: Pipe, a: Action)
    requires Calm(p) && p.reader.Finished? && a != Cancel
    ensures var q := Step(p, a);
            q.reader.Finished? && ToHandle(q) <= ToHandle(p)
            && (a == Handle && !p.handler.Completed? ==> ToHandle(q) < ToHandle(p))
  {
    hide Transcript, PrintEntry, Script;
  }

  lemma {:induction false} HandlerFinishes(p: Pipe, trace: nat -> Action, i: nat, h: nat) returns (j: nat)
    requires Calm(p) && Patient(trace) && At(p, trace, i).reader.Finished? && i <= h && trace(h) == Handle
    ensures i <= j && At(p, trace, j).handler.Completed?
    decreases ToHandle(At(p, trace, i)), h - i
  {
    hide Step, Calm, Patient, Fair;
    var now := At(p, trace, i);
    if now.handler.Completed? {
      j := i;
    } else {
      StaysCalm(p, trace, i);
      NeverCancelled(trace, i);
      ClosedStep(now, trace(i));
      if trace(i) == Handle {
        PatientIsFair(trace);
        var next := Next(trace, Handle, i + 1);
        j := HandlerFinishes(p, trace, i + 1, next);
      } else {
        j := HandlerFinishes(p, trace, i + 1, h);
      }
    }
  }

  function Prefix(trace: nat -> Action, j: nat): seq<Action> {
    if j == 0 then [] else Prefix(trace, j - 1) + [trace(j - 1)]
  }

  lemma {:induction false} PrefixRuns(p: Pipe, trace: nat -> Action, j: nat)
    ensures Run(p, Prefix(trace, j)) == At(p, trace, j)
  {
    hide Step;
    if j > 0 {
      PrefixRuns(p, trace, j - 1);
      var actions := Prefix(trace, j);
      assert actions[..|actions| - 1] == Prefix(trace, j - 1);
    }
  }

  /** In every fair run that is never cancelled, through however long a channel that is full, the channel closes
      with everything sent, and the handler ends with its closing event and everything written. */
  lemma LogsArrive(pods: seq<Pod>, notice: LogEntry, trace: nat -> Action) returns (j: nat)
    requires Patient(trace)
    ensures var p := At(Start(pods, notice), trace, j);
            && p.closed && p.handler.Completed? && p.sent == Script(p.pods) && p.written == Script(p.pods)
            && p.pods == Start(pods, notice).pods
  {
    var start := Start(pods, notice);
    StartConserves(pods, notice);
    assert Calm(start);
    hide At, Patient, Fair, Calm, Start, Stuck;
    PatientIsFair(trace);
    forall x: nat
      ensures !Stuck(At(start, trace, x))
    {
      StaysCalm(start, trace, x);
      CalmIsNotStuck(At(start, trace, x));
    }
    assert Sound(start) && !start.cancelled by { CalmIsSound(start); }
    var closed := ReaderFinishes(start, trace, 0);
    var h := Next(trace, Handle, closed);
    j := HandlerFinishes(start, trace, closed, h);
    StaysCalm(start, trace, j);
    PrefixRuns(start, trace, j);
    Conservation(pods, notice, Prefix(trace, j));
    CompletedHasAll(At(start, trace, j));
  }

  lemma CompletedHasAll(p: Pipe)
    requires Calm(p) && p.handler.Completed?
    ensures p.closed && p.sent == Script(p.pods) && p.written == Script(p.pods)
  {
    hide Transcript, Script;
    assert p.written + [] == p.written;
  }

  /** Such runs exist: reader and handler in turn. */
  lemma TurnsArePatient()
    ensures Patient((i: nat) => if i % 2 == 0 then Read else Handle)
  {
    var trace := (i: nat) => if i % 2 == 0 then Read else Handle;
    forall i: nat
      ensures ComesAgain(trace, Read, i) && ComesAgain(trace, Handle, i)
    {
      assert i <= 2 * i && trace(2 * i) == Read;
      assert i <= 2 * i + 1 && trace(2 * i + 1) == Handle;
    }
  }

  // ----- and runs that get stuck --------------------------------------------------------------------------------

  /** The request is cancelled and the handler leaves at once; then everybody keeps taking turns. */
  function Deserted(): nat -> Action {
    (i: nat) =>
      if i == 0 then Cancel else if i == 1 then HandlerQuits
      else if i % 3 == 0 then Read else if i % 3 == 1 then Handle else ReaderQuits
  }

  lemma DesertedIsFair()
    ensures Fair(Deserted())
  {
    var trace := Deserted();
    forall i: nat
      ensures ComesAgain(trace, Read, i) && ComesAgain(trace, Handle, i) && ComesAgain(trace, ReaderQuits, i)
    {
      assert trace(3 * i + 3) == Read && trace(3 * i + 4) == Handle && trace(3 * i + 5) == ReaderQuits;
    }
  }

  /** One pod more than the channel has room for, none of which can be opened. */
  function AllBroken(report: LogEntry): seq<Pod> {
    seq(CAPACITY + 1, _ => Broken(report))
  }

  lemma {:induction false} DesertedStays(report: LogEntry, j: nat)
    ensures var p := At(Start(AllBroken(report), report), Deserted(), j);
            && p.pods == AllBroken(report) && p.reader == Opening(|p.queue|) && |p.queue| <= CAPACITY && !p.closed
            && (j == 0 ==> p.queue == []) && (j > 0 ==> p.cancelled) && (j > 1 ==> p.handler.Abandoned?)
            && (j <= 1 ==> p.handler.Looping?)
  {
    hide PrintEntry;
    if j > 0 {
      DesertedStays(report, j - 1);
    }
  }

  /** The wait does happen: with enough pods that cannot be opened, a cancelled request leaves the reader waiting for
      ever in a fair run. */
  lemma SomeRunIsStuck(report: LogEntry) returns (j: nat)
    ensures Fair(Deserted()) && Stuck(At(Start(AllBroken(report), report), Deserted(), j))
  {
    var start := Start(AllBroken(report), report);
    DesertedIsFair();
    ReaderEndsExactly(AllBroken(report), report, Deserted());
    forall i: nat
      ensures !At(start, Deserted(), i).reader.Finished?
    {
      DesertedStays(report, i);
    }
    hide At, Fair, Stuck, Deserted;
    j :| Stuck(At(start, Deserted(), j));
  }
}
