# dnc in Dafny

dnc is a minimal netcat: it either listens on a TCP port (`-l -p PORT`) or
connects to `HOST PORT`, then relays between stdin and the TCP stream until
both sides have delivered end-of-stream, and finally waits in `pause()`.
This project models three parts of `dnc.c` and proves what they guarantee.

- `port.dfy` (module `Port`). `dnc_port_parse` and the `strtol(3)`
  conversion it calls, for base 10 in the C locale on an LP64 target (64-bit
  `long`, so the result saturates at `LONG_MIN`/`LONG_MAX`).
  - `StrToL` returns the value and the index where conversion stopped.
  - `PortParse` returns the return code and the contents of `*portp`
    afterwards.
  - The lemmas characterise exactly which texts are accepted and with which
    value: white space, an optional sign, decimal digits and nothing else,
    with a value from 0 to 65535. They also cover the edge cases of the
    end check and the unsigned comparison: the empty string is port 0
    (strtol converts nothing and stops at the NUL), `"-0"` is port 0, and
    `"-1"` wraps to a huge unsigned value and is rejected.
- `relay.dfy` (module `Relay`). `dnc_connection`, the relay loop.
  - `poll()`, `read()` and `write()` are replaced by an environment of oracle
    replies (`Env`). The loop records every call it makes, with its reply,
    in a trace.
  - `Connection` is the imperative loop over `pollfds[2]` and `buf[128]`. It
    calls `Iterate`, `BothHalves`, `StdinHalf` and `SocketHalf`, and is
    proved equal to the functional specification `Run` (through `Iteration`,
    `Turns`, `StdinTurn` and `SocketTurn`).
  - The loop need not terminate, because the environment may never deliver
    end-of-stream. A run ends in `Failed` (return -1), `Paused` (both
    interests cleared) or `Blocked` (the `poll()` replies are used up, so
    `poll()` never returns).
- `relay_lemmas.dfy` (module `RelayLemmas`). What a whole run guarantees:
  - an interest is cleared exactly by a zero-byte read and never set again;
  - the loop leaves exactly when both sides delivered end-of-stream;
  - a run stops at its first failing call;
  - every stdin read is followed at once by one write of the same bytes to
    the socket, so the bytes written are exactly the bytes read from stdin;
  - socket data goes nowhere.

  Four small runs are worked out in full.
- `cli.dfy` (module `Cli`). `main`:
  - the `getopt` switch over `-l`, `-n` and `-p PORT`;
  - the checks on the operands left after the options, in listen mode and in
    connect mode;
  - the exit status: 2 from `dnc_usage`, and otherwise `main`'s return value
    modulo 256.

Where dnc's own description and its code differ, the model follows the code:

- The relay never writes what it reads from the socket. It only logs the
  count, at `dnc.c:351-365`. The socket-to-stdout direction exists only as
  the socket's end-of-stream flag.
- A zero-length read does not stop further reads from that fd.
  - Reads are guarded by `revents` (`dnc.c:319`, `dnc.c:351`), not by
    `events`.
  - `poll()` may report `POLLHUP` for an fd whose `events` is 0, and the fd
    is then read again (`RelayLemmas.HangupReadsStdinAgain`).
  - The model takes `revents` as an unconstrained oracle input.
- At end-of-stream on stdin a zero-byte `write()` to the socket is still
  issued (`dnc.c:327-337`).
- On a relay or setup failure `main` returns -1, so the process exits with
  status 255, not 1 (`dnc.c:144`, `Cli.RelayFailureExits255`).

## Model

| member | source | states |
|---|---|---|
| Port.StrToL | dnc.c:164 | the strtol result is within the range of a 64-bit long; without digits nothing is consumed and the value is 0; otherwise the conversion ends just after a digit and before a non-digit |
| Port.PortParse | dnc.c:158-171 | returns 0 or -1; returns 0 exactly when strtol stopped at the terminating NUL and the value lies in 0..UINT16_MAX (a negative long cast to unsigned long exceeds it), and then stores that value; on -1 `*portp` is unchanged |
| Port.StrToLShape | dnc.c:164 | on white space, a sign, a digit run and a non-digit rest, strtol gives the clamped signed value of the digits and ends right after them |
| Port.StrToLNoDigits | dnc.c:164 | with no digit after the white space and sign (including a sign followed by white space, as in "+ 80"), strtol converts nothing: value 0, end at the start; with StrToLShape this fixes StrToL for every input |
| Port.EmptyIsPortZero | dnc.c:164-170 | the empty string is accepted as port 0 |
| Port.PortParseAccepts | dnc.c:164-170 | white space, an optional sign and digits whose signed value is 0..65535 are accepted with that value |
| Port.PortParseRejectsRange | dnc.c:164-167 | the same shape with a value below 0 or above 65535 is rejected, and `*portp` is kept |
| Port.PortParseRejectsTrailing | dnc.c:164-167 | any non-NUL character after the digits ("80x", "80 ") makes the parse fail |
| Port.PortParseRejectsNoDigits | dnc.c:164-167 | a non-empty string with no digit after the white space and sign ("+", "x1", "+ 80") is rejected |
| Port.PortParseSound | dnc.c:164-170 | every accepted non-empty string is white space, sign and digits and nothing else, and the stored port is their signed value |
| Port.DecimalValueOfDecimal | dnc.c:164 | the digit value of the decimal rendering of n is n |
| Port.PortRoundTrip | dnc.c:164-170 | every port written in decimal parses back to itself; every larger number is rejected |
| Port.SignThenSpaceRejected | dnc.c:164-167 | "+ 80" converts nothing and is rejected with `*portp` kept |
| Port.NegativeZeroAndMinusOne | dnc.c:164-170 | "-0" is accepted as port 0, and "-1" is rejected with `*portp` kept |
| Relay.StdinTurn | dnc.c:319-349 | the stdin half touches only the stdin interest, the stdin read count and the write count; the interest is kept or cleared to 0; it ends running or failed on the stdin read, on the write or on a short write (StdinTurnSound adds that it clears exactly on a zero-byte read, stops at its first failure and writes exactly what it read) |
| Relay.SocketTurn | dnc.c:351-365 | the socket half touches only the socket interest and the socket read count; the interest is kept or cleared to 0; it ends running or failed on the socket read (SocketTurnSound adds that it clears exactly on a zero-byte read and writes nothing) |
| Relay.Turns | dnc.c:319-365 | after poll, the two halves never fail the poll and never use a poll reply; the status afterwards is running or failed |
| Relay.Iteration | dnc.c:304-366 | one pass of the loop body uses exactly one poll reply and ends running or failed |
| Relay.StdinTurnCalls | dnc.c:319-349 | the stdin half makes no call unless stdin is ready; otherwise it reads stdin first and makes at most one more call, a write |
| Relay.SocketTurnCalls | dnc.c:351-365 | the socket half makes exactly one call, a socket read, when the socket is ready, and none otherwise |
| Relay.IterationCalls | dnc.c:311-365 | the calls of a pass are the poll, then the stdin half's calls, then the socket half's calls only if the stdin half did not fail |
| Relay.IterationPositions | dnc.c:311-365 | in a pass the poll comes first and never again; a stdin read can only be the second call and a socket read only the last |
| Relay.IterationOrder | dnc.c:311-365 | in a pass, poll comes first and once; an fd is read only when poll reported POLLIN or POLLHUP for it; stdin is read before the socket |
| Relay.IterationReadsReady | dnc.c:319-353 | after a successful poll, a stdin reported POLLIN or POLLHUP is read right after the poll; a socket reported POLLIN or POLLHUP is read as the last call whenever the stdin half did not fail, even if that read fails |
| Relay.Run | dnc.c:304-373 | a run never ends running; when it pauses both interests are 0; when it blocks an interest is set and the poll replies are used up |
| Relay.StdinHalf | dnc.c:319-349 | the stdin half on pollfds and buf gives the status, calls and new state of StdinTurn and changes only the stdin events field |
| Relay.SocketHalf | dnc.c:351-365 | the socket half on pollfds and buf gives the status, calls and new state of SocketTurn and changes only the socket events field |
| Relay.BothHalves | dnc.c:319-365 | the two halves together give the status, calls and new state of Turns, and leave the fd and revents fields as they were |
| Relay.Iterate | dnc.c:311-365 | one pass of the loop body on pollfds and buf gives the status, calls and new state of Iteration; the fd fields stay, and after a successful poll the revents fields hold its reply |
| Relay.Connection | dnc.c:289-373 | dnc_connection's loop ends with the status and trace of Run from the initial state (both interests POLLIN) |
| Relay.RunAdvance | dnc.c:304-366 | one more pass extends the trace of the run by that pass's calls |
| RelayLemmas.OutcomeAppend | dnc.c:311-365 | appending a run of good calls to good calls keeps every call but the last successful |
| RelayLemmas.PairedAppend | dnc.c:337 | two traces that pair each stdin read with its write still do when joined |
| RelayLemmas.PairedForwards | dnc.c:321-337 | in a paired trace the bytes written are the bytes read from stdin, in order |
| RelayLemmas.StdinTurnSound | dnc.c:319-349 | the stdin half clears the stdin interest exactly on a zero-byte read, stops at its first failing call, and writes exactly what it read |
| RelayLemmas.SocketTurnSound | dnc.c:351-365 | the socket half clears the socket interest exactly on a zero-byte read, stops when its read fails, and writes nothing |
| RelayLemmas.SoundThen | dnc.c:319-365 | a successful step followed by another keeps interest tracking, stop-at-failure and pairing |
| RelayLemmas.TurnsSound | dnc.c:319-365 | the two halves together keep interest tracking, stop-at-failure and pairing |
| RelayLemmas.PollSound | dnc.c:311-315 | a step made of one poll call, whose status is that call's verdict (failed exactly on a negative return) and which keeps both interests, is Sound |
| RelayLemmas.IterationSound | dnc.c:304-366 | one pass clears an interest exactly on end-of-stream, stops at its first failing call, pairs each stdin read with its write, and makes at least the poll |
| RelayLemmas.InterestTracksEof | dnc.c:298-362 | at the end of a run an interest is 0 exactly when the trace holds a zero-byte read on that fd (or it was 0 already): cleared only on end-of-stream and never set again |
| RelayLemmas.PausedIffBothEof | dnc.c:307-372 | the loop is left and the process pauses exactly when no call failed and both stdin and the socket delivered end-of-stream |
| RelayLemmas.FailureIsLast | dnc.c:311-357 | every call before the last succeeded, and the run failed exactly when its last call failed, for that call's cause: no call follows a failure |
| RelayLemmas.RunPaired | dnc.c:319-365 | every successful stdin read is followed at once by a write of exactly those bytes to the socket, and no other write occurs, so socket data is never written |
| RelayLemmas.RunForwardsStdin | dnc.c:319-349 | the bytes handed to write() over a run are exactly the bytes read from stdin, in order |
| RelayLemmas.ReturnValueOfRun | dnc.c:311-372 | a returning run gives -1 exactly when its last call failed, and 0 exactly when nothing failed and both sides delivered end-of-stream |
| RelayLemmas.ReturnValue | dnc.c:314-372 | dnc_connection returns -1 exactly after a failure and 0 exactly after the pause (ReturnValueOfRun ties these to the trace) |
| RelayLemmas.StdinEofKeepsPolling | dnc.c:319-366 | "abc" then end-of-stream on stdin: "abc" is written, a zero-byte write follows, the stdin interest is cleared and the socket's kept, and the loop keeps polling |
| RelayLemmas.BothEofPauses | dnc.c:304-372 | end-of-stream on both fds at the first poll leads to a zero-byte write, the socket read and the pause |
| RelayLemmas.ShortWriteStops | dnc.c:343-347 | a short write ends the run at once, before the ready socket is read |
| RelayLemmas.HangupReadsStdinAgain | dnc.c:319-337 | POLLHUP on stdin after its end-of-stream leads to a second zero-byte read and write although its interest is 0 |
| Cli.ApplyOption | dnc.c:74-103 | one option is accepted exactly when it is -l, -n, or -p with a text dnc_port_parse accepts; an accepted -p sets the port dnc_port_parse gives, any other accepted option keeps it (ScanFlags and ScanLastPort lift this to the whole loop) |
| Cli.ScanOptions | dnc.c:73-104 | the option loop sends main to dnc_usage only for an invalid port, a missing option argument or an unrecognized option (ScanFlags, ScanAcceptsOnly, ScanLastPort and ScanAppend characterise its result) |
| Cli.Decide | dnc.c:106-142 | after the options, main listens only in listen mode with -p and no operand, on the kept port; it connects only in connect mode with two operands, the first an IPv4 address and the second a port dnc_port_parse accepts (ShapeRule gives the converse for the shape errors) |
| Cli.Launcher | dnc.c:73-142 | a rejected option always ends in dnc_usage; when main does not end in dnc_usage every option was accepted, and it listens exactly when -l was given (ListenLaunch and ConnectLaunch give the full conditions) |
| Cli.DncMain | dnc.c:73-142 | main's option loop and operand checks end exactly as Launcher says |
| Cli.ExitStatus | dnc.c:144-152 | the exit status is a byte: 2 for a usage error, otherwise main's return value modulo 256 |
| Cli.ShapeRule | dnc.c:106-152 | after the options, the operands are rejected for their shape exactly when listen mode lacks -p or has operands, or connect mode has other than two operands, and then the exit status is 2 |
| Cli.ListenLaunch | dnc.c:73-117 | main listens exactly when every option was accepted, -l and -p were among them, and no operand is left, and it listens on the port the option loop kept (the last -p's, by ScanLastPort) |
| Cli.ConnectLaunch | dnc.c:73-141 | main connects to (host, port) exactly when every option was accepted, -l was not among them, and the two operands are an IPv4 address and a text dnc_port_parse accepts as that port |
| Cli.PortParseIgnoresOld | dnc.c:164-170 | whether dnc_port_parse accepts a text, and the port it gives, do not depend on the old `*portp` |
| Cli.ScanAppend | dnc.c:73-104 | the option loop stops at the first option that leads to dnc_usage; later options are never looked at |
| Cli.ScanFlags | dnc.c:75-91 | after the loop, listen is set iff -l occurred, resolve is cleared iff -n occurred, and haveport is set iff -p occurred |
| Cli.ScanAcceptsOnly | dnc.c:83-102 | a loop that accepts every option saw only -l, -n and -p, and every -p carried a port dnc_port_parse accepts |
| Cli.ScanLastPort | dnc.c:83-91 | the port kept is that of the last -p, or the initial one when there is no -p |
| Cli.RelayFailureExits255 | dnc.c:243-247 | when dnc_connection fails, dnc_connect passes on -1 and the process exits with status 255 |

## Left out

- `dnc_listen` and `dnc_connect` (`dnc.c:183-248`): the socket, bind, listen, accept and connect calls are not modelled. `main` ends in `ListenOn(port)` or `ConnectTo(host, port)`. Only the way `dnc_connect` passes on dnc_connection's -1 is used, in `Cli.RelayFailureExits255`.
- `dnc_ipv4_parse` (`dnc.c:173-181`) wraps `inet_pton`, whose code is not available. It is the parameter `isIpv4`.
- `dnc_log` and `dnc_vlog` (`dnc.c:250-282`) are left out. They read the clock and write to stdout. Their only effect on control flow, exiting when `strftime` fails, is not modelled.
- `getopt` itself and `basename`: `main` is given the sequence of options getopt returns and the operands after them.
  - The loop compares `char c` with -1, so it ends only where `char` is signed. The model assumes that.
- The `-n` flag only changes the note printed with an invalid address (`InvalidAddress.hostnamesNote`).
- Warning and usage messages are not modelled; only the reason for each usage exit is kept.
- `htons` (`dnc.c:89`, `dnc.c:140`): ports are kept in host order.
- In listen mode the port comes from `dnc_addr` after `bzero`, and starts at 0. The local `port` in `main` is uninitialised, which never matters: it is read only after a successful `dnc_port_parse`.
- `pause()` and signals: `Paused` is a terminal state. `ReturnValue` gives 0 for it, the value `dnc.c:372` would return if `pause()` ever returned.
- `poll()`, `read()` and `write()` are oracles.
  - `Connection` requires that no read reply exceeds the 128-byte buffer (`ReadsFitBuffer`), as `read()` guarantees.
  - Write replies larger than the count asked for are treated like any other mismatch: a short write.
- Relay.Run: a run that never ends is represented by a finite sequence of `poll()` replies, after which `poll()` blocks (`Blocked`). Every finite prefix of an endless run is covered; the endless run itself is not.
- Port.StrToL: only base 10, the C locale and a 64-bit `long` are modelled. `errno` is not modelled.
- Cli.ExitStatus: states only that the status is a byte; the concrete statuses 2 and 255 are proved in `Cli.ShapeRule` and `Cli.RelayFailureExits255`.
