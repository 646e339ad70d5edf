/** The goroutine of `StreamLogs` (apiserver/adapter/adapter.go) in the source's own form: a loop over pods
    and lines that sends on the channel.  Before each of its actions the handler and the request's context
    move as they like; what happens is a run of the channel machine. */
module LogReader {
  import opened LogStream
  import opened LogChannel

  /** What the others do before an action of the reader, and which ready branch its select takes. */
  datatype Turn = Turn(others: seq<Action>, prefersQuit: bool)

  predicate ByReader(a: Action) {
    a.Read? || a.ReaderQuits?
  }

  lemma {:induction false} OthersLeaveReader(p: Pipe, others: seq<Action>)
    requires forall a | a in others :: !ByReader(a)
    ensures Run(p, others).reader == p.reader && Run(p, others).pods == p.pods && Run(p, others).sent == p.sent
  {
    if others != [] {
      OthersLeaveReader(p, others[..|others| - 1]);
      assert others[|others| - 1] in others;
      assert forall a | a in others[..|others| - 1] :: a in others;
    }
  }

  lemma {:induction false} RunConcat(p: Pipe, a: seq<Action>, b: seq<Action>)
    ensures Run(p, a + b) == Run(Run(p, a), b)
  {
    hide Step;
    if b == [] {
      assert a + b == a;
    } else {
      var n := |b| - 1;
      assert (a + b)[..|a + b| - 1] == a + b[..n];
      RunConcat(p, a, b[..n]);
    }
  }

  lemma RunThenStep(p: Pipe, before: seq<Action>, others: seq<Action>, a: Action)
    ensures Run(p, before + others + [a]) == Step(Run(Run(p, before), others), a)
    ensures Run(p, before + others) == Run(Run(p, before), others)
  {
    hide Step;
    RunConcat(p, before, others);
    assert (before + others + [a])[..|before + others|] == before + others;
  }

  class LogPipe {
    var pipe: Pipe
    var moves: nat
    const world: seq<Turn>

    ghost const pods: seq<Pod>
    ghost const notice: LogEntry
    ghost var actions: seq<Action>

    ghost predicate Valid()
      reads this
    {
      pipe == Run(Start(pods, notice), actions) && pipe.pods == Start(pods, notice).pods
    }

    /** The others never act for the reader. */
    ghost predicate OneReader() {
      forall i | 0 <= i < |world| :: forall a | a in world[i].others :: !ByReader(a)
    }

    constructor (pods: seq<Pod>, notice: LogEntry, world: seq<Turn>)
      ensures Valid() && this.world == world && moves == 0
      ensures pipe == Start(pods, notice) && this.pods == pods && this.notice == notice
    {
      pipe, moves, this.world, this.pods, this.notice, actions := Start(pods, notice), 0, world, pods, notice, [];
    }

    /** The others move, or rest when the schedule is over. */
    method Yield() returns (turn: Turn)
      requires Valid() && OneReader()
      modifies this
      ensures Valid() && pipe.reader == old(pipe.reader) && pipe.sent == old(pipe.sent) && moves == old(moves) + 1
    {
      turn := if moves < |world| then world[moves] else Turn([], false);
      moves := moves + 1;
      RunThenStep(Start(pods, notice), actions, turn.others, Read);
      OthersLeaveReader(pipe, turn.others);
      hide Run;
      actions := actions + turn.others;
      pipe := Run(pipe, turn.others);
    }

    /** One action of the reader's own. */
    method Act(a: Action)
      requires Valid() && ByReader(a)
      modifies this
      ensures Valid() && pipe == Step(old(pipe), a) && moves == old(moves)
    {
      RunThenStep(Start(pods, notice), actions, [], a);
      assert actions + [] == actions && Run(pipe, []) == pipe;
      hide Run;
      actions := actions + [a];
      pipe := Step(pipe, a);
    }

    /** The channel is full and there is nobody left to make room. */
    predicate Stuck()
      reads this
    {
      |pipe.queue| >= CAPACITY && moves >= |world|
    }

    /** Goes through the pods and their lines, waiting wherever the channel is full.  When it returns it has
        closed the channel, and unless the request was cancelled everything was sent; it stays stuck only if the
        others have stopped for good and left the channel full. */
    method StreamLogs() returns (stuck: bool)
      requires Valid() && OneReader() && pipe.reader == Opening(0)
      modifies this
      ensures Valid()
      ensures !stuck ==> pipe.reader.Finished? && pipe.closed && (pipe.cancelled || pipe.sent == Script(pipe.pods))
      ensures stuck ==> Stuck() && |pipe.queue| == CAPACITY
      ensures pipe.sent <= Script(pipe.pods) && pipe.written <= Script(pipe.pods)
    {
      stuck := ReadPods();
      Conservation(pods, notice, actions);
      SentIsScripted(pipe);
      hide Run, Script;
    }

    method ReadPods() returns (stuck: bool)
      requires Valid() && OneReader() && pipe.reader == Opening(0)
      modifies this
      ensures Valid() && (if stuck then Stuck() else pipe.reader.Finished?)
    {
      hide Run;
      var i := 0;
      stuck := false;
      while i < |pipe.pods|
        invariant Valid() && !stuck && 0 <= i <= |pipe.pods| && pipe.reader == Opening(i)
        decreases |Start(pods, notice).pods| - i
      {
        if pipe.pods[i].Broken? {
          stuck := AwaitRoom();
          if stuck {
            return;
          }
          Act(Read);
        } else {
          var turn := Yield();
          Act(Read);
          var quit: bool;
          stuck, quit := ReadLines(i);
          if stuck || quit {
            return;
          }
        }
        i := i + 1;
      }
      Act(Read);
    }

    /** A plain send waits until the channel has room. */
    method AwaitRoom() returns (stuck: bool)
      requires Valid() && OneReader()
      modifies this
      ensures Valid() && pipe.reader == old(pipe.reader)
      ensures if stuck then Stuck() else |pipe.queue| < CAPACITY
    {
      hide Run;
      var turn := Yield();
      while |pipe.queue| >= CAPACITY && moves < |world|
        invariant Valid() && pipe.reader == old(pipe.reader)
        decreases |world| - moves
      {
        turn := Yield();
      }
      stuck := |pipe.queue| >= CAPACITY;
    }

    /** A send in a select waits until the channel has room or the request is cancelled. */
    method AwaitRoomOrCancel() returns (stuck: bool, quit: bool)
      requires Valid() && OneReader()
      modifies this
      ensures Valid() && pipe.reader == old(pipe.reader)
      ensures if quit then pipe.cancelled else if stuck then Stuck() else |pipe.queue| < CAPACITY
    {
      hide Run;
      var turn := Yield();
      while |pipe.queue| >= CAPACITY && !pipe.cancelled && moves < |world|
        invariant Valid() && pipe.reader == old(pipe.reader)
        decreases |world| - moves
      {
        turn := Yield();
      }
      quit := pipe.cancelled && (turn.prefersQuit || |pipe.queue| >= CAPACITY);
      stuck := !quit && |pipe.queue| >= CAPACITY;
    }

    /** The lines of one pod; a cancelled request may end the reader between any two. */
    method ReadLines(i: nat) returns (stuck: bool, quit: bool)
      requires Valid() && OneReader() && i < |pipe.pods| && pipe.pods[i].Serving? && pipe.reader == Scanning(i, 0)
      modifies this
      ensures Valid()
      ensures stuck ==> Stuck()
      ensures !stuck ==> pipe.reader == if quit then Finished else Opening(i + 1)
    {
      hide Run;
      var l := 0;
      stuck, quit := false, false;
      while l < |pipe.pods[i].lines|
        invariant Valid() && i < |pipe.pods| && pipe.pods[i].Serving?
        invariant 0 <= l <= |pipe.pods[i].lines| && pipe.reader == Scanning(i, l) && !stuck && !quit
        decreases |Start(pods, notice).pods[i].lines| - l
      {
        stuck, quit := AwaitRoomOrCancel();
        if quit {
          Act(ReaderQuits);
          return false, true;
        }
        if stuck {
          return;
        }
        Act(Read);
        l := l + 1;
      }
      Act(Read);
    }
  }
}
