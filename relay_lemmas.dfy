// What the relay loop of dnc guarantees over a whole run, stated over the
// trace of calls it makes, and a few runs worked out for fixed environments.

module RelayLemmas {
  import opened Relay

  // ---------------------------------------------------------------------
  // Traces

  /** The status a trace ends in: the verdict of its last call, or Running for no calls. */
  function Outcome(t: seq<Event>): Status
  {
    if t == [] then Running else Verdict(t[|t| - 1])
  }

  /** Every call of the trace but the last one succeeded. */
  predicate SucceedsUntilLast(t: seq<Event>)
  {
    forall i :: 0 <= i < |t| - 1 ==> Verdict(t[i]) == Running
  }

  /** The status of a run as dnc_connection's return sees it: Failed, or Running for anything else. */
  function Abort(st: Status): Status
  {
    if st.Failed? then st else Running
  }

  predicate StdinData(e: Event)
  {
    e.Read? && e.fd == Stdin && e.reply.ReadData?
  }

  /**
   * The trace splits into single calls and read/write pairs: every
   * successful stdin read is followed at once by a write of exactly those
   * bytes to the socket, and no other write occurs.
   */
  predicate Paired(t: seq<Event>)
    decreases |t|
  {
    if t == [] then true
    else if StdinData(t[0]) then
      |t| >= 2 && t[1].Write? && t[1].fd == Socket && t[1].data == t[0].reply.data && Paired(t[2..])
    else !t[0].Write? && Paired(t[1..])
  }

  function StdinPart(e: Event): seq<byte>
  {
    if StdinData(e) then e.reply.data else []
  }

  function WritePart(e: Event): seq<byte>
  {
    if e.Write? then e.data else []
  }

  /** The bytes stdin delivered, in order. */
  function StdinBytes(t: seq<Event>): seq<byte>
  {
    if t == [] then [] else StdinPart(t[0]) + StdinBytes(t[1..])
  }

  /** The bytes handed to write(), in order. */
  function Written(t: seq<Event>): seq<byte>
  {
    if t == [] then [] else WritePart(t[0]) + Written(t[1..])
  }

  lemma OutcomeAppend(a: seq<Event>, b: seq<Event>)
    requires SucceedsUntilLast(a) && Outcome(a) == Running && SucceedsUntilLast(b)
    ensures SucceedsUntilLast(a + b)
    ensures Outcome(a + b) == Outcome(b)
  {
    var t := a + b;
    forall i | 0 <= i < |t| - 1
      ensures Verdict(t[i]) == Running
    {
      if i < |a| - 1 {
        assert t[i] == a[i];
      } else if i == |a| - 1 {
        assert t[i] == a[|a| - 1];
      } else {
        assert t[i] == b[i - |a|];
      }
    }
    if b != [] {
      assert t[|t| - 1] == b[|b| - 1];
    } else {
      assert t == a;
    }
  }

  lemma {:induction false} PairedAppend(a: seq<Event>, b: seq<Event>)
    requires Paired(a) && Paired(b)
    ensures Paired(a + b)
    decreases |a|
  {
    if a == [] {
      assert a + b == b;
    } else if StdinData(a[0]) {
      assert (a + b)[0] == a[0] && (a + b)[1] == a[1] && (a + b)[2..] == a[2..] + b;
      PairedAppend(a[2..], b);
    } else {
      assert (a + b)[0] == a[0] && (a + b)[1..] == a[1..] + b;
      PairedAppend(a[1..], b);
    }
  }

  /** In a paired trace, the bytes handed to write() are exactly the bytes stdin delivered, in order. */
  lemma {:induction false} PairedForwards(t: seq<Event>)
    requires Paired(t)
    ensures Written(t) == StdinBytes(t)
    decreases |t|
  {
    if t == [] {
    } else if StdinData(t[0]) {
      var u := t[1..];
      assert u[0] == t[1] && u[1..] == t[2..];
      PairedForwards(t[2..]);
      assert Written(u) == t[1].data + Written(t[2..]);
      assert StdinBytes(u) == StdinBytes(t[2..]);
      assert Written(t) == Written(u) && StdinBytes(t) == t[0].reply.data + StdinBytes(u);
    } else {
      PairedForwards(t[1..]);
    }
  }

  // ---------------------------------------------------------------------
  // One iteration

  /** From state s, the step r cleared the interest of an fd exactly when it read end-of-stream on it. */
  predicate Tracks(s: Session, r: Step)
  {
    && r.next.stdinEvents == (if Read(Stdin, ReadData([])) in r.events then 0 else s.stdinEvents)
    && r.next.sockEvents == (if Read(Socket, ReadData([])) in r.events then 0 else s.sockEvents)
  }

  /** Every call of the step but the last one succeeded, and the last one decides its status. */
  predicate StopsAtFailure(r: Step)
  {
    SucceedsUntilLast(r.events) && r.status == Outcome(r.events)
  }

  predicate Sound(s: Session, r: Step)
  {
    Tracks(s, r) && StopsAtFailure(r) && Paired(r.events)
  }

  lemma StdinTurnSound(env: Env, s: Session, ready: bool)
    ensures Sound(s, StdinTurn(env, s, ready))
  {
    var t := StdinTurn(env, s, ready).events;
    if |t| == 2 {
      assert t[2..] == [];
    } else if |t| == 1 {
      assert t[1..] == [];
    }
  }

  lemma SocketTurnSound(env: Env, s: Session, ready: bool)
    ensures Sound(s, SocketTurn(env, s, ready))
  {
    var t := SocketTurn(env, s, ready).events;
    if |t| == 1 {
      assert t[1..] == [];
    }
  }

  /** A step that went well, followed by another step, keeps what Sound states. */
  lemma SoundThen(s: Session, a: Step, b: Step)
    requires Sound(s, a) && a.status.Running? && Sound(a.next, b)
    ensures Sound(s, Step(b.status, a.events + b.events, b.next))
  {
    OutcomeAppend(a.events, b.events);
    PairedAppend(a.events, b.events);
  }

  lemma TurnsSound(env: Env, s: Session, p: PollReply)
    ensures Sound(s, Turns(env, s, p))
  {
    var a := StdinTurn(env, s, Ready(p.stdinRevents));
    StdinTurnSound(env, s, Ready(p.stdinRevents));
    if a.status.Running? {
      SocketTurnSound(env, a.next, Ready(p.sockRevents));
      SoundThen(s, a, SocketTurn(env, a.next, Ready(p.sockRevents)));
    }
  }

  /**
   * One iteration clears an interest exactly on end-of-stream, stops at its
   * first failing call, pairs each stdin read with its write, and makes at
   * least one call: the poll().
   */
  lemma IterationSound(env: Env, s: Session)
    requires s.polls < |env.polls|
    ensures var it := Iteration(env, s); Sound(s, it) && it.events != []
  {
    var p := env.polls[s.polls];
    var s1 := s.(polls := s.polls + 1);
    var polled := Step(if p.ret < 0 then Failed(PollFailed) else Running, [Poll(p)], s1);
    PollSound(s, polled);
    if p.ret >= 0 {
      var h := Turns(env, s1, p);
      assert Iteration(env, s) == Step(h.status, polled.events + h.events, h.next);
      TurnsSound(env, s1, p);
      SoundThen(s, polled, h);
    }
  }

  lemma PollSound(s: Session, r: Step)
    requires |r.events| == 1 && r.events[0].Poll? && r.status == Verdict(r.events[0])
    requires r.next.stdinEvents == s.stdinEvents && r.next.sockEvents == s.sockEvents
    ensures Sound(s, r)
  {
    assert r.events[1..] == [];
  }

  // ---------------------------------------------------------------------
  // A whole run

  /**
   * The events field of an fd ends up 0 exactly when the run read
   * end-of-stream on it (or it was 0 already): the interest is cleared only
   * by a zero-byte read and is never set again.
   */
  lemma {:induction false} InterestTracksEof(env: Env, s: Session)
    requires s.polls <= |env.polls|
    decreases |env.polls| - s.polls
    ensures var r := Run(env, s);
      && r.final.stdinEvents == (if Read(Stdin, ReadData([])) in r.trace then 0 else s.stdinEvents)
      && r.final.sockEvents == (if Read(Socket, ReadData([])) in r.trace then 0 else s.sockEvents)
  {
    if !(s.stdinEvents == 0 && s.sockEvents == 0) && s.polls < |env.polls| {
      var it := Iteration(env, s);
      IterationSound(env, s);
      if it.status.Running? {
        var rest := Run(env, it.next);
        InterestTracksEof(env, it.next);
        assert Run(env, s) == Resume(it.events, rest);
        assert forall e :: e in it.events + rest.trace <==> e in it.events || e in rest.trace;
      }
    }
  }

  /**
   * The loop leaves (and the process pauses) exactly when no call failed and
   * both stdin and the socket delivered end-of-stream; until then it goes on
   * polling, or is still blocked in poll().
   */
  lemma PausedIffBothEof(env: Env)
    ensures var r := Run(env, Start);
      r.status == Paused <==>
        !r.status.Failed? && Read(Stdin, ReadData([])) in r.trace && Read(Socket, ReadData([])) in r.trace
  {
    InterestTracksEof(env, Start);
  }

  /**
   * A run stops at its first failing call: every call before the last one
   * succeeded, and the run failed exactly when its last call did, for the
   * same cause. So a failed poll, read or write, or a short write, is
   * followed by no further call.
   */
  lemma {:induction false} FailureIsLast(env: Env, s: Session)
    requires s.polls <= |env.polls|
    decreases |env.polls| - s.polls
    ensures var r := Run(env, s); SucceedsUntilLast(r.trace) && Abort(r.status) == Outcome(r.trace)
  {
    if !(s.stdinEvents == 0 && s.sockEvents == 0) && s.polls < |env.polls| {
      var it := Iteration(env, s);
      IterationSound(env, s);
      if it.status.Running? {
        FailureIsLast(env, it.next);
        OutcomeAppend(it.events, Run(env, it.next).trace);
      }
    }
  }

  /**
   * Over a whole run every successful stdin read is followed at once by one
   * write of the same bytes to the socket (a zero-byte write at
   * end-of-stream included), and nothing else is ever written: what the
   * socket delivers goes nowhere.
   */
  lemma {:induction false} RunPaired(env: Env, s: Session)
    requires s.polls <= |env.polls|
    decreases |env.polls| - s.polls
    ensures Paired(Run(env, s).trace)
  {
    if !(s.stdinEvents == 0 && s.sockEvents == 0) && s.polls < |env.polls| {
      var it := Iteration(env, s);
      IterationSound(env, s);
      if it.status.Running? {
        RunPaired(env, it.next);
        PairedAppend(it.events, Run(env, it.next).trace);
      }
    }
  }

  /** The bytes handed to write() over a run, in order, are the bytes read from stdin. */
  lemma RunForwardsStdin(env: Env, s: Session)
    requires s.polls <= |env.polls|
    ensures var t := Run(env, s).trace; Written(t) == StdinBytes(t)
  {
    RunPaired(env, s);
    PairedForwards(Run(env, s).trace);
  }

  /**
   * What dnc_connection returns when it returns: -1 after a failed call, and
   * 0 if the pause() it waits in ever returns. A Blocked run never returns.
   */
  function ReturnValue(st: Status): (rv: int)
    requires st.Failed? || st.Paused?
    ensures rv == -1 <==> st.Failed?
    ensures rv == 0 <==> st.Paused?
  {
    if st.Failed? then -1 else 0
  }

  /**
   * A run that returns gives -1 exactly when its last call failed, and 0
   * exactly when both directions delivered end-of-stream with no call
   * failing.
   */
  lemma ReturnValueOfRun(env: Env)
    ensures var r := Run(env, Start);
      r.status != Blocked ==>
        && (ReturnValue(r.status) == -1 <==> Outcome(r.trace) != Running)
        && (ReturnValue(r.status) == 0 <==>
              Outcome(r.trace) == Running && Read(Stdin, ReadData([])) in r.trace && Read(Socket, ReadData([])) in r.trace)
  {
    FailureIsLast(env, Start);
    PausedIffBothEof(env);
  }

  // ---------------------------------------------------------------------
  // Runs in fixed environments

  const ABC: seq<byte> := [0x61, 0x62, 0x63]

  /** stdin delivers "abc" and then end-of-stream; the socket stays silent. */
  const EchoEnv := Env([PollReply(1, POLLIN, 0), PollReply(1, POLLIN, 0)],
                       (k: nat) => if k == 0 then ReadData(ABC) else ReadData([]),
                       (k: nat) => ReadError,
                       (k: nat) => if k == 0 then 3 else 0)

  /**
   * "abc" is copied to the socket; end-of-stream on stdin clears only the
   * stdin interest, so the loop polls on for the socket, and a zero-byte
   * write goes out at end-of-stream.
   */
  lemma StdinEofKeepsPolling()
    ensures var r := Run(EchoEnv, Start);
      && r.status == Blocked
      && r.trace == [Poll(PollReply(1, POLLIN, 0)), Read(Stdin, ReadData(ABC)), Write(Socket, ABC, 3),
                     Poll(PollReply(1, POLLIN, 0)), Read(Stdin, ReadData([])), Write(Socket, [], 0)]
      && r.final.stdinEvents == 0 && r.final.sockEvents == POLLIN
  {
    var env := EchoEnv;
    var s1 := Session(POLLIN, POLLIN, 1, 1, 0, 1);
    var s2 := Session(0, POLLIN, 2, 2, 0, 2);
    assert Ready(POLLIN) && !Ready(0);
    assert Iteration(env, Start) ==
           Step(Running, [Poll(PollReply(1, POLLIN, 0)), Read(Stdin, ReadData(ABC)), Write(Socket, ABC, 3)], s1);
    assert Iteration(env, s1) ==
           Step(Running, [Poll(PollReply(1, POLLIN, 0)), Read(Stdin, ReadData([])), Write(Socket, [], 0)], s2);
    assert Run(env, s2) == Relayed(Blocked, [], s2);
  }

  /** Both fds report end-of-stream at the first poll. */
  const BothEofEnv := Env([PollReply(1, POLLIN, POLLIN)],
                          (k: nat) => ReadData([]), (k: nat) => ReadData([]), (k: nat) => 0)

  /** The relay writes zero bytes to the socket, reads the socket's end-of-stream, and pauses. */
  lemma BothEofPauses()
    ensures var r := Run(BothEofEnv, Start);
      && r.status == Paused
      && r.trace == [Poll(PollReply(1, POLLIN, POLLIN)), Read(Stdin, ReadData([])), Write(Socket, [], 0),
                     Read(Socket, ReadData([]))]
  {
    var env := BothEofEnv;
    var s1 := Session(0, 0, 1, 1, 1, 1);
    assert Ready(POLLIN);
    assert Iteration(env, Start) ==
           Step(Running, [Poll(PollReply(1, POLLIN, POLLIN)), Read(Stdin, ReadData([])), Write(Socket, [], 0),
                          Read(Socket, ReadData([]))], s1);
    assert Run(env, s1) == Relayed(Paused, [], s1);
  }

  /** stdin delivers "abc" but write() takes only one byte; the socket is ready too. */
  const ShortEnv := Env([PollReply(1, POLLIN, POLLIN)],
                        (k: nat) => ReadData(ABC), (k: nat) => ReadData([]), (k: nat) => 1)

  /** A short write ends the run at once: the ready socket is not read. */
  lemma ShortWriteStops()
    ensures var r := Run(ShortEnv, Start);
      && r.status == Failed(ShortWrite)
      && r.trace == [Poll(PollReply(1, POLLIN, POLLIN)), Read(Stdin, ReadData(ABC)), Write(Socket, ABC, 1)]
  {
    assert Ready(POLLIN);
    assert Iteration(ShortEnv, Start) ==
           Step(Failed(ShortWrite), [Poll(PollReply(1, POLLIN, POLLIN)), Read(Stdin, ReadData(ABC)), Write(Socket, ABC, 1)],
                Session(POLLIN, POLLIN, 1, 1, 0, 1));
  }

  /** stdin is at end-of-stream; the second poll reports only POLLHUP on it. */
  const HangupEnv := Env([PollReply(1, POLLIN, 0), PollReply(1, POLLHUP, 0)],
                         (k: nat) => ReadData([]), (k: nat) => ReadError, (k: nat) => 0)

  /**
   * Clearing the stdin interest does not stop the relay from reading stdin:
   * the read is guarded by revents, and POLLHUP there leads to a second
   * zero-byte read and a second zero-byte write.
   */
  lemma HangupReadsStdinAgain()
    ensures var r := Run(HangupEnv, Start);
      && r.status == Blocked
      && r.trace == [Poll(PollReply(1, POLLIN, 0)), Read(Stdin, ReadData([])), Write(Socket, [], 0),
                     Poll(PollReply(1, POLLHUP, 0)), Read(Stdin, ReadData([])), Write(Socket, [], 0)]
  {
    var env := HangupEnv;
    var s1 := Session(0, POLLIN, 1, 1, 0, 1);
    var s2 := Session(0, POLLIN, 2, 2, 0, 2);
    assert Ready(POLLIN) && Ready(POLLHUP) && !Ready(0);
    assert Iteration(env, Start) ==
           Step(Running, [Poll(PollReply(1, POLLIN, 0)), Read(Stdin, ReadData([])), Write(Socket, [], 0)], s1);
    assert Iteration(env, s1) ==
           Step(Running, [Poll(PollReply(1, POLLHUP, 0)), Read(Stdin, ReadData([])), Write(Socket, [], 0)], s2);
    assert Run(env, s2) == Relayed(Blocked, [], s2);
  }
}
