// The relay loop of dnc (dnc_connection): poll stdin and the socket, copy
// what stdin delivers to the socket, read and drop what the socket delivers,
// and stop polling an fd for good once a read on it returns zero bytes.
//
// poll(), read() and write() are replaced by an environment of oracle
// replies; the relay records every call it makes, with its reply, in a trace.

module Relay {

  type byte = bv8

  const BUF_SIZE: nat := 128
  const POLLIN: bv16 := 0x0001
  const POLLHUP: bv16 := 0x0010
  const STDIN_FILENO: int := 0

  datatype Fd = Stdin | Socket

  /** One return of poll(): its result and the revents it stores for stdin and for the socket. */
  datatype PollReply = PollReply(ret: int, stdinRevents: bv16, sockRevents: bv16)

  /** One return of read(): a negative count, or the bytes placed in the buffer (possibly none). */
  datatype ReadReply = ReadError | ReadData(data: seq<byte>)

  /**
   * The environment. The k-th poll() returns polls[k]; when the sequence is
   * used up, poll() never returns. The k-th read() on stdin or on the socket
   * and the k-th write() return what the three oracles give for k.
   */
  datatype Env = Env(polls: seq<PollReply>, stdinRead: nat -> ReadReply, sockRead: nat -> ReadReply, write: nat -> int)

  /** read() never returns more than the buffer it is given. */
  predicate FitsBuffer(r: ReadReply)
  {
    r.ReadData? ==> |r.data| <= BUF_SIZE
  }

  ghost predicate ReadsFitBuffer(env: Env)
  {
    && (forall k: nat :: FitsBuffer(env.stdinRead(k)))
    && (forall k: nat :: FitsBuffer(env.sockRead(k)))
  }

  /** The calls the relay makes, each with the reply it got. */
  datatype Event =
    | Poll(polled: PollReply)
    | Read(fd: Fd, reply: ReadReply)
    | Write(fd: Fd, data: seq<byte>, ret: int)

  datatype Cause = PollFailed | ReadFailed(fd: Fd) | WriteFailed | ShortWrite

  /**
   * Running: the loop goes on. Failed: dnc_connection returns -1. Paused:
   * both directions saw end-of-stream and the process waits in pause().
   * Blocked: poll() never returns.
   */
  datatype Status = Running | Failed(cause: Cause) | Paused | Blocked

  /**
   * The state the loop carries from one iteration to the next: the events
   * fields of pollfds[0] (stdin) and pollfds[1] (socket), and how many
   * replies of each oracle have been used.
   */
  datatype Session = Session(stdinEvents: bv16, sockEvents: bv16, polls: nat, stdinReads: nat, sockReads: nat, writes: nat)

  const Start: Session := Session(POLLIN, POLLIN, 0, 0, 0, 0)

  /** What one part of an iteration did: its status afterwards, the calls it made, the new state. */
  datatype Step = Step(status: Status, events: seq<Event>, next: Session)

  /** The relay reads an fd when poll reported POLLIN or POLLHUP for it, whatever its events field. */
  predicate Ready(revents: bv16)
  {
    revents & (POLLIN | POLLHUP) != 0
  }

  function RevFor(p: PollReply, fd: Fd): bv16
  {
    if fd == Stdin then p.stdinRevents else p.sockRevents
  }

  /**
   * The stdin half of an iteration, where ready says whether poll reported
   * POLLIN or POLLHUP on stdin: read, clear the interest on EOF, write what
   * was read to the socket.
   */
  function StdinTurn(env: Env, s: Session, ready: bool): (r: Step)
    ensures r.next == s.(stdinEvents := r.next.stdinEvents, stdinReads := r.next.stdinReads, writes := r.next.writes)
    ensures r.next.stdinEvents == s.stdinEvents || r.next.stdinEvents == 0
    ensures r.status.Running? || r.status == Failed(ReadFailed(Stdin)) || r.status == Failed(WriteFailed) ||
            r.status == Failed(ShortWrite)
  {
    if !ready then Step(Running, [], s)
    else
      var rd := env.stdinRead(s.stdinReads);
      var s1 := s.(stdinReads := s.stdinReads + 1);
      match rd
      case ReadError => Step(Failed(ReadFailed(Stdin)), [Read(Stdin, rd)], s1)
      case ReadData(d) =>
        var s2 := if |d| == 0 then s1.(stdinEvents := 0) else s1;
        var n := env.write(s.writes);
        var s3 := s2.(writes := s.writes + 1);
        var e := [Read(Stdin, rd), Write(Socket, d, n)];
        if n < 0 then Step(Failed(WriteFailed), e, s3)
        else if n != |d| then Step(Failed(ShortWrite), e, s3)
        else Step(Running, e, s3)
  }

  /** The socket half of an iteration: read when ready, clear the interest on EOF, and nothing else. */
  function SocketTurn(env: Env, s: Session, ready: bool): (r: Step)
    ensures r.next == s.(sockEvents := r.next.sockEvents, sockReads := r.next.sockReads)
    ensures r.next.sockEvents == s.sockEvents || r.next.sockEvents == 0
    ensures r.status.Running? || r.status == Failed(ReadFailed(Socket))
  {
    if !ready then Step(Running, [], s)
    else
      var rd := env.sockRead(s.sockReads);
      var s1 := s.(sockReads := s.sockReads + 1);
      match rd
      case ReadError => Step(Failed(ReadFailed(Socket)), [Read(Socket, rd)], s1)
      case ReadData(d) => Step(Running, [Read(Socket, rd)], if |d| == 0 then s1.(sockEvents := 0) else s1)
  }

  /** The status a call's reply puts the relay in: Failed for the replies dnc_connection gives up on. */
  function Verdict(e: Event): Status
  {
    match e
    case Poll(p) => if p.ret < 0 then Failed(PollFailed) else Running
    case Read(fd, r) => if r.ReadError? then Failed(ReadFailed(fd)) else Running
    case Write(_, d, n) => if n < 0 then Failed(WriteFailed) else if n != |d| then Failed(ShortWrite) else Running
  }

  /** The part of the loop body after a successful poll(): the stdin half, then the socket half unless the first failed. */
  function Turns(env: Env, s: Session, p: PollReply): (r: Step)
    ensures r.next.polls == s.polls
    ensures r.status.Running? || r.status.Failed?
    ensures r.status != Failed(PollFailed)
  {
    var a := StdinTurn(env, s, Ready(p.stdinRevents));
    if !a.status.Running? then a
    else
      var b := SocketTurn(env, a.next, Ready(p.sockRevents));
      Step(b.status, a.events + b.events, b.next)
  }

  /** One pass of the loop body, from poll() to the end of the socket half. */
  function Iteration(env: Env, s: Session): (r: Step)
    requires s.polls < |env.polls|
    ensures r.next.polls == s.polls + 1
    ensures r.status.Running? || r.status.Failed?
  {
    var p := env.polls[s.polls];
    var s1 := s.(polls := s.polls + 1);
    if p.ret < 0 then Step(Failed(PollFailed), [Poll(p)], s1)
    else
      var h := Turns(env, s1, p);
      Step(h.status, [Poll(p)] + h.events, h.next)
  }

  /** The calls of the stdin half: none when stdin is not ready, else the read, then at most the write. */
  lemma StdinTurnCalls(env: Env, s: Session, ready: bool)
    ensures var t := StdinTurn(env, s, ready).events;
      && (!ready ==> t == [])
      && (ready ==> 1 <= |t| <= 2 && t[0] == Read(Stdin, env.stdinRead(s.stdinReads)))
      && (|t| == 2 ==> t[1].Write?)
  {
  }

  /** The calls of the socket half: none when the socket is not ready, else the read. */
  lemma SocketTurnCalls(env: Env, s: Session, ready: bool)
    ensures SocketTurn(env, s, ready).events == if ready then [Read(Socket, env.sockRead(s.sockReads))] else []
  {
  }

  /** The calls of an iteration: poll(), the stdin half, and the socket half if the stdin half went well. */
  lemma IterationCalls(env: Env, s: Session)
    requires s.polls < |env.polls|
    ensures var p := env.polls[s.polls]; var s1 := s.(polls := s.polls + 1);
      var a := StdinTurn(env, s1, Ready(p.stdinRevents));
      Iteration(env, s).events ==
        if p.ret < 0 then [Poll(p)]
        else if !a.status.Running? then [Poll(p)] + a.events
        else [Poll(p)] + a.events + SocketTurn(env, a.next, Ready(p.sockRevents)).events
  {
  }

  /** Where the calls of an iteration sit: poll() first, a stdin read only second, a socket read only last. */
  lemma IterationPositions(env: Env, s: Session)
    requires s.polls < |env.polls|
    ensures var t := Iteration(env, s).events; var p := env.polls[s.polls];
      && t != [] && t[0] == Poll(p)
      && forall i :: 1 <= i < |t| ==>
           && !t[i].Poll?
           && (t[i].Read? ==> (i == 1 && t[i].fd == Stdin && Ready(p.stdinRevents)) ||
                              (i == |t| - 1 && t[i].fd == Socket && Ready(p.sockRevents)))
  {
    var p := env.polls[s.polls];
    var s1 := s.(polls := s.polls + 1);
    var t := Iteration(env, s).events;
    IterationCalls(env, s);
    if p.ret >= 0 {
      var a := StdinTurn(env, s1, Ready(p.stdinRevents));
      StdinTurnCalls(env, s1, Ready(p.stdinRevents));
      if a.status.Running? {
        SocketTurnCalls(env, a.next, Ready(p.sockRevents));
      }
      forall i | 1 <= i < |t|
        ensures !t[i].Poll?
        ensures t[i].Read? ==> (i == 1 && t[i].fd == Stdin && Ready(p.stdinRevents)) ||
                               (i == |t| - 1 && t[i].fd == Socket && Ready(p.sockRevents))
      {
        if a.status.Running? && i >= 1 + |a.events| {
          assert t[i] == SocketTurn(env, a.next, Ready(p.sockRevents)).events[i - 1 - |a.events|];
        } else {
          assert t[i] == a.events[i - 1];
        }
      }
    }
  }

  /**
   * Within one iteration: poll() comes first and only once; an fd is read
   * only when poll reported POLLIN or POLLHUP for it; stdin is read before
   * the socket and each at most once.
   */
  lemma IterationOrder(env: Env, s: Session)
    requires s.polls < |env.polls|
    ensures var r := Iteration(env, s); var p := env.polls[s.polls];
      && r.events != [] && r.events[0] == Poll(p)
      && (forall i :: 1 <= i < |r.events| ==> !r.events[i].Poll?)
      && (forall i :: 0 <= i < |r.events| && r.events[i].Read? ==> Ready(RevFor(p, r.events[i].fd)))
      && (forall i, j :: 0 <= i < j < |r.events| && r.events[i].Read? && r.events[j].Read? ==>
            r.events[i].fd == Stdin && r.events[j].fd == Socket)
  {
    IterationPositions(env, s);
  }

  /** A ready fd is read in the iteration unless an earlier call of the iteration failed. */
  lemma IterationReadsReady(env: Env, s: Session)
    requires s.polls < |env.polls|
    ensures var r := Iteration(env, s); var p := env.polls[s.polls];
      && (p.ret >= 0 && Ready(p.stdinRevents) ==> |r.events| > 1 && r.events[1] == Read(Stdin, env.stdinRead(s.stdinReads)))
      && (p.ret >= 0 && Ready(p.sockRevents) && StdinTurn(env, s.(polls := s.polls + 1), Ready(p.stdinRevents)).status.Running? ==>
            r.events[|r.events| - 1] == Read(Socket, env.sockRead(s.sockReads)))
  {
    var p := env.polls[s.polls];
    var s1 := s.(polls := s.polls + 1);
    IterationCalls(env, s);
    if p.ret >= 0 {
      var a := StdinTurn(env, s1, Ready(p.stdinRevents));
      StdinTurnCalls(env, s1, Ready(p.stdinRevents));
      if a.status.Running? {
        SocketTurnCalls(env, a.next, Ready(p.sockRevents));
      }
    }
  }

  /** The whole run of the loop from state s, and what follows it. */
  datatype Relayed = Relayed(status: Status, trace: seq<Event>, final: Session)

  function Resume(prefix: seq<Event>, r: Relayed): Relayed
  {
    Relayed(r.status, prefix + r.trace, r.final)
  }

  /**
   * The loop: it leaves when both events fields are 0; otherwise it polls,
   * and stops at the first failing call.
   */
  function Run(env: Env, s: Session): (r: Relayed)
    requires s.polls <= |env.polls|
    decreases |env.polls| - s.polls
    ensures r.status != Running
    ensures r.status == Paused ==> r.final.stdinEvents == 0 && r.final.sockEvents == 0
    ensures r.status == Blocked ==> !(r.final.stdinEvents == 0 && r.final.sockEvents == 0) && r.final.polls == |env.polls|
  {
    if s.stdinEvents == 0 && s.sockEvents == 0 then Relayed(Paused, [], s)
    else if s.polls == |env.polls| then Relayed(Blocked, [], s)
    else
      var st := Iteration(env, s);
      if st.status.Running? then Resume(st.events, Run(env, st.next))
      else Relayed(st.status, st.events, st.next)
  }

  /** One entry of the pollfds array: the fd, the events asked for, the revents poll() reported. */
  datatype PollFd = PollFd(fd: int, events: bv16, revents: bv16)

  /**
   * The stdin half of the loop body: when poll reported POLLIN or POLLHUP on
   * stdin, read into buf, clear the stdin interest on a zero-byte read, and
   * write the bytes read (even none) to the socket.
   */
  method StdinHalf(env: Env, pollfds: array<PollFd>, buf: array<byte>, ghost s: Session, ghost p: PollReply,
                   stdinReads: nat, writes: nat)
      returns (status: Status, events: seq<Event>, stdinReads': nat, writes': nat)
    requires pollfds.Length == 2 && buf.Length == BUF_SIZE && ReadsFitBuffer(env)
    requires pollfds[0].revents == p.stdinRevents
    requires s.stdinEvents == pollfds[0].events && s.stdinReads == stdinReads && s.writes == writes
    modifies pollfds, buf
    ensures pollfds[1] == old(pollfds[1])
    ensures pollfds[0] == old(pollfds[0]).(events := pollfds[0].events)
    ensures StdinTurn(env, s, Ready(p.stdinRevents)) ==
            Step(status, events, s.(stdinEvents := pollfds[0].events, stdinReads := stdinReads', writes := writes'))
  {
    status, events, stdinReads', writes' := Running, [], stdinReads, writes;
    if Ready(pollfds[0].revents) {
      var rd := env.stdinRead(stdinReads);
      stdinReads' := stdinReads + 1;
      events := [Read(Stdin, rd)];
      if rd.ReadError? {
        status := Failed(ReadFailed(Stdin));
        return;
      }
      var nread := |rd.data|;
      assert FitsBuffer(env.stdinRead(stdinReads));
      forall k | 0 <= k < nread {
        buf[k] := rd.data[k];
      }
      assert buf[..nread] == rd.data;
      if nread == 0 {
        pollfds[0] := pollfds[0].(events := 0);
      }
      var nwritten := env.write(writes);
      writes' := writes + 1;
      events := events + [Write(Socket, buf[..nread], nwritten)];
      if nwritten < 0 {
        status := Failed(WriteFailed);
        return;
      }
      if nwritten != nread {
        status := Failed(ShortWrite);
        return;
      }
    }
  }

  /**
   * The socket half of the loop body: when poll reported POLLIN or POLLHUP
   * on the socket, read into buf and clear the socket interest on a
   * zero-byte read. What was read goes nowhere.
   */
  method SocketHalf(env: Env, pollfds: array<PollFd>, buf: array<byte>, ghost s: Session, ghost p: PollReply,
                    sockReads: nat)
      returns (status: Status, events: seq<Event>, sockReads': nat)
    requires pollfds.Length == 2 && buf.Length == BUF_SIZE && ReadsFitBuffer(env)
    requires pollfds[1].revents == p.sockRevents
    requires s.sockEvents == pollfds[1].events && s.sockReads == sockReads
    modifies pollfds, buf
    ensures pollfds[0] == old(pollfds[0])
    ensures pollfds[1] == old(pollfds[1]).(events := pollfds[1].events)
    ensures SocketTurn(env, s, Ready(p.sockRevents)) ==
            Step(status, events, s.(sockEvents := pollfds[1].events, sockReads := sockReads'))
  {
    status, events, sockReads' := Running, [], sockReads;
    if Ready(pollfds[1].revents) {
      var rd := env.sockRead(sockReads);
      sockReads' := sockReads + 1;
      events := [Read(Socket, rd)];
      if rd.ReadError? {
        status := Failed(ReadFailed(Socket));
        return;
      }
      var nread := |rd.data|;
      assert FitsBuffer(env.sockRead(sockReads));
      forall k | 0 <= k < nread {
        buf[k] := rd.data[k];
      }
      if nread == 0 {
        pollfds[1] := pollfds[1].(events := 0);
      }
    }
  }

  /**
   * The loop body after poll() returned: the stdin half, then the socket
   * half unless the stdin half failed.
   */
  method BothHalves(env: Env, pollfds: array<PollFd>, buf: array<byte>, ghost s: Session, ghost p: PollReply,
                    stdinReads: nat, sockReads: nat, writes: nat)
      returns (status: Status, events: seq<Event>, stdinReads': nat, sockReads': nat, writes': nat)
    requires pollfds.Length == 2 && buf.Length == BUF_SIZE && ReadsFitBuffer(env)
    requires pollfds[0].revents == p.stdinRevents && pollfds[1].revents == p.sockRevents
    requires s.stdinEvents == pollfds[0].events && s.sockEvents == pollfds[1].events
    requires s.stdinReads == stdinReads && s.sockReads == sockReads && s.writes == writes
    modifies pollfds, buf
    ensures pollfds[0].fd == old(pollfds[0].fd) && pollfds[1].fd == old(pollfds[1].fd)
    ensures pollfds[0].revents == old(pollfds[0].revents) && pollfds[1].revents == old(pollfds[1].revents)
    ensures Turns(env, s, p) ==
            Step(status, events, s.(stdinEvents := pollfds[0].events, sockEvents := pollfds[1].events,
                                    stdinReads := stdinReads', sockReads := sockReads', writes := writes'))
  {
    sockReads' := sockReads;
    status, events, stdinReads', writes' := StdinHalf(env, pollfds, buf, s, p, stdinReads, writes);
    ghost var a := Step(status, events, s.(stdinEvents := pollfds[0].events, stdinReads := stdinReads', writes := writes'));
    if !status.Running? {
      return;
    }
    var more;
    status, more, sockReads' := SocketHalf(env, pollfds, buf, a.next, p, sockReads);
    events := events + more;
  }

  /**
   * One pass of the loop body once the loop has decided to poll: poll(),
   * then the two halves, stopping at the first call that fails.
   */
  method Iterate(env: Env, pollfds: array<PollFd>, buf: array<byte>, ghost s: Session,
                 polls: nat, stdinReads: nat, sockReads: nat, writes: nat)
      returns (status: Status, events: seq<Event>, polls': nat, stdinReads': nat, sockReads': nat, writes': nat)
    requires pollfds.Length == 2 && buf.Length == BUF_SIZE && ReadsFitBuffer(env)
    requires s == Session(pollfds[0].events, pollfds[1].events, polls, stdinReads, sockReads, writes)
    requires polls < |env.polls|
    modifies pollfds, buf
    ensures pollfds[0].fd == old(pollfds[0].fd) && pollfds[1].fd == old(pollfds[1].fd)
    ensures var p := env.polls[polls];
      p.ret >= 0 ==> pollfds[0].revents == p.stdinRevents && pollfds[1].revents == p.sockRevents
    ensures Iteration(env, s) ==
            Step(status, events, Session(pollfds[0].events, pollfds[1].events, polls', stdinReads', sockReads', writes'))
  {
    var p := env.polls[polls];
    polls', stdinReads', sockReads', writes' := polls + 1, stdinReads, sockReads, writes;
    if p.ret < 0 {
      status, events := Failed(PollFailed), [Poll(p)];
      return;
    }
    pollfds[0] := pollfds[0].(revents := p.stdinRevents);
    pollfds[1] := pollfds[1].(revents := p.sockRevents);
    var more;
    status, more, stdinReads', sockReads', writes' :=
      BothHalves(env, pollfds, buf, s.(polls := polls'), p, stdinReads, sockReads, writes);
    events := [Poll(p)] + more;
  }

  /**
   * dnc_connection(dncp, sock): the loop over pollfds[2] and buf[128]. It
   * returns the status it ends in and the calls it made.
   */
  method Connection(env: Env, sock: int) returns (status: Status, trace: seq<Event>)
    requires ReadsFitBuffer(env)
    ensures status == Run(env, Start).status && trace == Run(env, Start).trace
  {
    var pollfds := new PollFd[2];
    pollfds[0] := PollFd(STDIN_FILENO, POLLIN, 0);
    pollfds[1] := PollFd(sock, POLLIN, 0);
    var buf := new byte[BUF_SIZE];
    var polls, stdinReads, sockReads, writes := 0, 0, 0, 0;
    trace := [];
    while !(pollfds[0].events == 0 && pollfds[1].events == 0)
      invariant pollfds.Length == 2 && buf.Length == BUF_SIZE
      invariant polls <= |env.polls|
      invariant Run(env, Start) ==
                Resume(trace, Run(env, Session(pollfds[0].events, pollfds[1].events, polls, stdinReads, sockReads, writes)))
      decreases |env.polls| - polls
    {
      ghost var s := Session(pollfds[0].events, pollfds[1].events, polls, stdinReads, sockReads, writes);
      if polls == |env.polls| {
        // poll() does not return
        status := Blocked;
        return;
      }
      var events;
      status, events, polls, stdinReads, sockReads, writes :=
        Iterate(env, pollfds, buf, s, polls, stdinReads, sockReads, writes);
      RunAdvance(env, s, trace);
      trace := trace + events;
      if !status.Running? {
        return;
      }
    }
    status := Paused;
  }

  /** Run, advanced by one iteration, after a prefix of the trace. */
  lemma RunAdvance(env: Env, s: Session, before: seq<Event>)
    requires s.polls < |env.polls| && !(s.stdinEvents == 0 && s.sockEvents == 0)
    ensures var it := Iteration(env, s);
      if it.status.Running? then Resume(before, Run(env, s)) == Resume(before + it.events, Run(env, it.next))
      else Resume(before, Run(env, s)) == Relayed(it.status, before + it.events, it.next)
  {
    var it := Iteration(env, s);
    if it.status.Running? {
      var rest := Run(env, it.next);
      assert before + (it.events + rest.trace) == before + it.events + rest.trace;
    }
  }
}
