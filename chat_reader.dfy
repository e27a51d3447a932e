/**
 * The per-line loops of src-tauri/src/chat.rs: `start_twitch_chat_reader`, which relays
 * parsed chat lines to the speech queue, and `test_function`, which prints them.
 *
 * The socket is a sequence of `read_line` results; a read past the end of that sequence
 * is end of stream. What the loops cannot see ahead of time is given as oracles: the
 * value of the kill flag at each of its two checks for the line at a given index, whether
 * the send to the speech queue succeeds, and whether writing and flushing the PONG reply
 * succeeds.
 */
module ChatReader {
  import opened Wrappers
  import opened Text
  import opened ChatParse
  import opened ChatConnect

  /** One call of `read_line`: a line (with its terminator), 0 bytes, or an I/O error. */
  datatype ReadResult = Line(text: string) | Eof | ReadError

  /** `Relay` is `start_twitch_chat_reader`; `Echo` is `test_function`. */
  datatype Mode = Relay | Echo

  /**
   * The outside world, indexed by the position of the line in the input:
   * the kill flag as loaded before the read and after the PING test, whether the
   * send on the speech channel succeeds, and whether the PONG write and flush succeed.
   */
  datatype Env = Env(
    killBefore: nat -> bool,
    killAfter: nat -> bool,
    sendOk: nat -> bool,
    writeOk: nat -> bool)

  /** What one handled line led to. */
  datatype Action = Pong | Deliver(text: string) | Drop

  /** Why the loop ended. */
  datatype Stop = Killed | Closed | ReadFailed | SendFailed | WriteFailed

  datatype StepResult = Go(action: Action) | Halt(stop: Stop)

  /** The actions of the handled lines, in input order, and the reason the loop ended. */
  datatype Outcome = Outcome(actions: seq<Action>, stop: Stop)

  const PingPrefix: string := "PING"

  /** The keep-alive answer (section 3.7.2 of RFC 2812); the two loops word it differently. */
  function PongReply(mode: Mode): string {
    match mode
    case Relay => "PONG\r\n"
    case Echo => "PONG :tmi.twitch.tv\r\n"
  }

  /** The text sent to the speech queue, or printed to the console. */
  function Render(mode: Mode, m: ChatMessage): string {
    match mode
    case Relay => "user " + m.username + " said " + m.content
    case Echo => m.username + ": " + m.content
  }

  /** The `k`-th read: past the end of the input the stream is closed. */
  function ReadAt(input: seq<ReadResult>, k: nat): ReadResult {
    if k < |input| then input[k] else Eof
  }

  predicate IsPing(r: ReadResult) {
    r.Line? && StartsWith(r.text, PingPrefix)
  }

  /** One turn of the loop on the read result `r` of the line at index `k`. */
  function Step(mode: Mode, env: Env, r: ReadResult, k: nat): StepResult {
    if mode.Relay? && env.killBefore(k) then Halt(Killed)
    else
      match r
      case Eof => Halt(Closed)
      case ReadError => Halt(ReadFailed)
      case Line(t) =>
        if |t| == 0 then Halt(Closed)
        else if StartsWith(t, PingPrefix) then
          if env.writeOk(k) then Go(Pong) else Halt(WriteFailed)
        else if mode.Relay? && env.killAfter(k) then Halt(Killed)
        else
          match ParseMessage(t)
          case None => Go(Drop)
          case Some(m) =>
            if mode.Echo? || env.sendOk(k) then Go(Deliver(Render(mode, m))) else Halt(SendFailed)
  }

  /** The steps of the loop over `input`, numbered by line index. */
  function Steps(mode: Mode, env: Env, input: seq<ReadResult>): (step: nat -> StepResult)
    ensures forall k: nat :: |input| <= k ==> step(k).Halt?
  {
    (k: nat) => Step(mode, env, ReadAt(input, k), k)
  }

  /**
   * A loop that takes numbered steps from `k` on and ends at the first that halts;
   * every step from `bound` on halts.
   */
  function RunFrom(step: nat -> StepResult, k: nat, bound: nat): Outcome
    requires forall j: nat :: bound <= j ==> step(j).Halt?
    decreases bound - k
  {
    match step(k)
    case Halt(stop) => Outcome([], stop)
    case Go(a) =>
      var rest := RunFrom(step, k + 1, bound);
      Outcome([a] + rest.actions, rest.stop)
  }

  /** The whole loop over `input`. */
  function Run(mode: Mode, env: Env, input: seq<ReadResult>): Outcome {
    RunFrom(Steps(mode, env, input), 0, |input|)
  }

  /** The function returns `Ok(())` unless a PONG write failed (the `?` on the write). */
  predicate Succeeded(o: Outcome) {
    o.stop != WriteFailed
  }

  /** The PONG replies written for `acts`, in order. */
  function PongWrites(mode: Mode, acts: seq<Action>): seq<string> {
    if acts == [] then []
    else PongWrites(mode, acts[..|acts| - 1]) + (if acts[|acts| - 1].Pong? then [PongReply(mode)] else [])
  }

  /** The text delivered for one action, if any. */
  function DeliveredBy(a: Action): seq<string> {
    match a
    case Deliver(t) => [t]
    case _ => []
  }

  /** The texts delivered for `acts`, in order. */
  function Delivered(acts: seq<Action>): seq<string> {
    if acts == [] then [] else Delivered(acts[..|acts| - 1]) + DeliveredBy(acts[|acts| - 1])
  }

  /** The rendering of `r` if it is a non-empty, non-PING line that parses. */
  function AcceptedLine(mode: Mode, r: ReadResult): seq<string> {
    if r.Line? && |r.text| > 0 && !IsPing(r) && ParseMessage(r.text).Some?
    then [Render(mode, ParseMessage(r.text).value)]
    else []
  }

  /**
   * Reference definition of what reaches the speech queue or the console: the rendering
   * of every non-empty, non-PING line of `lines` that parses, in order.
   */
  function Accepted(mode: Mode, lines: seq<ReadResult>): seq<string> {
    if lines == [] then [] else Accepted(mode, lines[..|lines| - 1]) + AcceptedLine(mode, lines[|lines| - 1])
  }

  /** Reference definition of the keep-alive traffic: one reply per PING line of `lines`. */
  function PongsFor(mode: Mode, lines: seq<ReadResult>): seq<string> {
    if lines == [] then []
    else PongsFor(mode, lines[..|lines| - 1]) + (if IsPing(lines[|lines| - 1]) then [PongReply(mode)] else [])
  }

  /** The environment of `test_function`: no kill flag, and printing never fails. */
  function EchoEnv(writeOk: nat -> bool): Env {
    Env(_ => false, _ => false, _ => true, writeOk)
  }

  /**
   * A run is the sequence of steps up to the first that halts: every handled index
   * took a `Go` step with the recorded action, the index after them took the step that
   * halted with the recorded reason, and all handled indices lie below the bound.
   */
  lemma {:induction false} RunFromFollowsSteps(step: nat -> StepResult, k: nat, bound: nat)
    requires forall j: nat :: bound <= j ==> step(j).Halt?
    ensures var o := RunFrom(step, k, bound);
      (|o.actions| == 0 || k + |o.actions| <= bound)
      && (forall i :: 0 <= i < |o.actions| ==> step(k + i) == Go(o.actions[i]))
      && step(k + |o.actions|) == Halt(o.stop)
    decreases bound - k
  {
    var o := RunFrom(step, k, bound);
    if step(k).Go? {
      RunFromFollowsSteps(step, k + 1, bound);
      var rest := RunFrom(step, k + 1, bound);
      assert o.actions == [step(k).action] + rest.actions && o.stop == rest.stop;
      assert k + |o.actions| == (k + 1) + |rest.actions|;
      forall i | 0 <= i < |o.actions| ensures step(k + i) == Go(o.actions[i]) {
        if i > 0 {
          assert o.actions[i] == rest.actions[i - 1];
          assert k + i == (k + 1) + (i - 1);
        }
      }
    }
  }

  /**
   * The loop over `input` handles a prefix of it: each handled line took the step
   * recorded for it, and the next read is where it stopped, for the recorded reason.
   */
  lemma RunFollowsSteps(mode: Mode, env: Env, input: seq<ReadResult>)
    ensures var o := Run(mode, env, input);
      |o.actions| <= |input|
      && (forall i :: 0 <= i < |o.actions| ==>
            Step(mode, env, input[i], i) == Go(o.actions[i]))
      && Step(mode, env, ReadAt(input, |o.actions|), |o.actions|) == Halt(o.stop)
  {
    var step := Steps(mode, env, input);
    RunFromFollowsSteps(step, 0, |input|);
    var o := Run(mode, env, input);
    forall i | 0 <= i < |o.actions| ensures Step(mode, env, input[i], i) == Go(o.actions[i]) {
      assert step(0 + i) == Go(o.actions[i]);
    }
    assert step(0 + |o.actions|) == Halt(o.stop);
  }

  /**
   * A step that goes on answers exactly the PING lines with a PONG, and delivers exactly
   * the rendering of a non-PING line that parses; everything else is dropped.
   */
  lemma StepAction(mode: Mode, env: Env, r: ReadResult, k: nat)
    requires Step(mode, env, r, k).Go?
    ensures var a := Step(mode, env, r, k).action;
      (a.Pong? <==> IsPing(r)) && DeliveredBy(a) == AcceptedLine(mode, r)
  {
  }

  /** Handled lines and their actions agree, line by line, with the reference definitions. */
  lemma {:induction false} ActionsMatchLines(mode: Mode, env: Env, lines: seq<ReadResult>, acts: seq<Action>)
    requires |acts| == |lines|
    requires forall i :: 0 <= i < |acts| ==> Step(mode, env, lines[i], i) == Go(acts[i])
    ensures Delivered(acts) == Accepted(mode, lines)
    ensures PongWrites(mode, acts) == PongsFor(mode, lines)
  {
    if acts != [] {
      var n := |acts| - 1;
      ActionsMatchLines(mode, env, lines[..n], acts[..n]);
      StepAction(mode, env, lines[n], n);
    }
  }

  /**
   * What the loop delivers is, in input order, the rendering of every handled line that
   * is not a PING and parses; lines that do not parse are skipped silently. Its writes
   * after the handshake are one PONG per handled PING line.
   */
  lemma DeliveredInInputOrder(mode: Mode, env: Env, input: seq<ReadResult>)
    ensures var o := Run(mode, env, input);
      |o.actions| <= |input|
      && Delivered(o.actions) == Accepted(mode, input[..|o.actions|])
      && PongWrites(mode, o.actions) == PongsFor(mode, input[..|o.actions|])
  {
    var o := Run(mode, env, input);
    RunFollowsSteps(mode, env, input);
    ActionsMatchLines(mode, env, input[..|o.actions|], o.actions);
  }

  /**
   * A PING line is answered by exactly one PONG and never parsed: a handled line got a
   * PONG exactly when it is a PING, and a PING that was read but not handled ended the
   * loop because the flag was set before the read or the PONG write failed.
   */
  lemma PingAnswered(mode: Mode, env: Env, input: seq<ReadResult>)
    ensures var o := Run(mode, env, input);
      |o.actions| <= |input|
      && (forall i :: 0 <= i < |o.actions| ==> (o.actions[i] == Pong <==> IsPing(input[i])))
      && (IsPing(ReadAt(input, |o.actions|)) ==> o.stop == Killed || o.stop == WriteFailed)
  {
    var o := Run(mode, env, input);
    RunFollowsSteps(mode, env, input);
    forall i | 0 <= i < |o.actions| ensures o.actions[i] == Pong <==> IsPing(input[i]) {
      StepAction(mode, env, input[i], i);
    }
  }

  /**
   * In `start_twitch_chat_reader`, once the flag is seen set for the line at index `i`
   * (before its read, or after the PING test of a non-PING line), that line and all
   * later ones are never handled, so nothing from them is delivered.
   */
  lemma KillHonoured(env: Env, input: seq<ReadResult>, i: nat)
    requires env.killBefore(i)
      || (i < |input| && input[i].Line? && |input[i].text| > 0 && !IsPing(input[i]) && env.killAfter(i))
    ensures |Run(Relay, env, input).actions| <= i
  {
    RunFollowsSteps(Relay, env, input);
    if i < |input| {
      assert Step(Relay, env, input[i], i).Halt?;
    }
  }

  /**
   * The loop stops at the first read where one of these holds, and for that reason:
   * the flag was set (before the read, or after the PING test of a non-PING line);
   * the read gave 0 bytes; the read failed; a send failed; a PONG write failed.
   */
  lemma StopReason(mode: Mode, env: Env, input: seq<ReadResult>)
    ensures var o := Run(mode, env, input); var n := |o.actions|; var r := ReadAt(input, n);
      var killedBefore := mode.Relay? && env.killBefore(n);
      (o.stop == Killed <==>
        killedBefore || (mode.Relay? && r.Line? && |r.text| > 0 && !IsPing(r) && env.killAfter(n)))
      && (o.stop == Closed <==> !killedBefore && (r.Eof? || r == Line([])))
      && (o.stop == ReadFailed <==> !killedBefore && r.ReadError?)
      && (o.stop == SendFailed <==>
            mode.Relay? && !env.killBefore(n) && r.Line? && |r.text| > 0 && !IsPing(r)
            && !env.killAfter(n) && ParseMessage(r.text).Some? && !env.sendOk(n))
      && (o.stop == WriteFailed <==> !killedBefore && IsPing(r) && !env.writeOk(n))
  {
    RunFollowsSteps(mode, env, input);
  }

  /** `test_function` has no kill flag and cannot fail to print, so it stops only at the socket. */
  lemma EchoStopsOnlyAtSocket(writeOk: nat -> bool, input: seq<ReadResult>)
    ensures var o := Run(Echo, EchoEnv(writeOk), input);
      o.stop == Closed || o.stop == ReadFailed || o.stop == WriteFailed
  {
    RunFollowsSteps(Echo, EchoEnv(writeOk), input);
  }

  /** Handling one more line extends the writes and the deliveries by that line's share. */
  lemma RecordAction(mode: Mode, acts: seq<Action>, a: Action)
    ensures PongWrites(mode, acts + [a]) == PongWrites(mode, acts) + (if a.Pong? then [PongReply(mode)] else [])
    ensures Delivered(acts + [a]) == Delivered(acts) + DeliveredBy(a)
  {
    assert (acts + [a])[..|acts|] == acts;
  }

  /** One more `Go` step moves its action from the rest of the run to the handled prefix. */
  lemma AdvanceRun(step: nat -> StepResult, i: nat, bound: nat, acts: seq<Action>)
    requires forall j: nat :: bound <= j ==> step(j).Halt?
    requires step(i).Go?
    ensures var rest := RunFrom(step, i, bound); var next := RunFrom(step, i + 1, bound);
      acts + rest.actions == (acts + [step(i).action]) + next.actions && rest.stop == next.stop
  {
  }

  /** The loop's bookkeeping for one more `Go` step with action `a`. */
  lemma Advance(mode: Mode, step: nat -> StepResult, i: nat, bound: nat, acts: seq<Action>, a: Action, o: Outcome)
    requires forall j: nat :: bound <= j ==> step(j).Halt?
    requires step(i) == Go(a)
    requires o == Outcome(acts + RunFrom(step, i, bound).actions, RunFrom(step, i, bound).stop)
    ensures o == Outcome((acts + [a]) + RunFrom(step, i + 1, bound).actions, RunFrom(step, i + 1, bound).stop)
    ensures PongWrites(mode, acts + [a]) == PongWrites(mode, acts) + (if a.Pong? then [PongReply(mode)] else [])
    ensures Delivered(acts + [a]) == Delivered(acts) + DeliveredBy(a)
  {
    AdvanceRun(step, i, bound, acts);
    RecordAction(mode, acts, a);
  }

  /**
   * `start_twitch_chat_reader` after its connection: the handshake lines and then one
   * PONG per handled PING are written, the parsed lines are sent to the speech queue as
   * `user <name> said <content>`, and the result is `Ok(())` unless a PONG write failed.
   */
  method ReadChat(channel: string, input: seq<ReadResult>, env: Env)
    returns (writes: seq<string>, sent: seq<string>, stop: Stop, ok: bool)
    ensures var o := Run(Relay, env, input);
      writes == HandshakeLines(channel, None) + PongWrites(Relay, o.actions)
      && sent == Delivered(o.actions) && stop == o.stop && ok == Succeeded(o)
  {
    var replies: seq<string> := [];
    sent := [];
    ghost var step := Steps(Relay, env, input);
    ghost var acts: seq<Action> := [];
    var i := 0;
    while true
      invariant i <= |input| && i == |acts|
      invariant Run(Relay, env, input)
        == Outcome(acts + RunFrom(step, i, |input|).actions, RunFrom(step, i, |input|).stop)
      invariant replies == PongWrites(Relay, acts)
      invariant sent == Delivered(acts)
      decreases |input| - i
    {
      ghost var now := Step(Relay, env, ReadAt(input, i), i);
      assert step(i) == now;
      if env.killBefore(i) {
        assert now == Halt(Killed);
        stop := Killed;
        break;
      }
      var r := ReadAt(input, i);
      if r.ReadError? {
        assert now == Halt(ReadFailed);
        stop := ReadFailed;
        break;
      }
      if r.Eof? || |r.text| == 0 {
        assert now == Halt(Closed);
        stop := Closed;
        break;
      }
      var line := r.text;
      ghost var a: Action;
      if StartsWith(line, PingPrefix) {
        if !env.writeOk(i) {
          assert now == Halt(WriteFailed);
          stop := WriteFailed;
          break;
        }
        replies := replies + ["PONG\r\n"];
        a := Pong;
      } else {
        if env.killAfter(i) {
          assert now == Halt(Killed);
          stop := Killed;
          break;
        }
        var parsed := ParseMessage(line);
        a := Drop;
        if parsed.Some? {
          var text := "user " + parsed.value.username + " said " + parsed.value.content;
          if !env.sendOk(i) {
            assert now == Halt(SendFailed);
            stop := SendFailed;
            break;
          }
          sent := sent + [text];
          a := Deliver(text);
        }
      }
      assert now == Go(a);
      Advance(Relay, step, i, |input|, acts, a, Run(Relay, env, input));
      acts := acts + [a];
      i := i + 1;
    }
    assert step(i) == Halt(stop);
    assert RunFrom(step, i, |input|).actions == [];
    assert acts + [] == acts;
    writes := HandshakeLines(channel, None) + replies;
    ok := stop != WriteFailed;
  }

  /**
   * `test_function` after its connection: the same loop without a kill flag, answering
   * PINGs with `PONG :tmi.twitch.tv` and printing `<name>: <content>` for each parsed line.
   * `printed` is what it prints for chat lines.
   */
  method EchoChat(channel: string, input: seq<ReadResult>, writeOk: nat -> bool)
    returns (writes: seq<string>, printed: seq<string>, stop: Stop, ok: bool)
    ensures var o := Run(Echo, EchoEnv(writeOk), input);
      writes == HandshakeLines(channel, None) + PongWrites(Echo, o.actions)
      && printed == Delivered(o.actions) && stop == o.stop && ok == Succeeded(o)
  {
    var replies: seq<string> := [];
    printed := [];
    ghost var env := EchoEnv(writeOk);
    assert env.writeOk == writeOk;
    ghost var step := Steps(Echo, env, input);
    ghost var acts: seq<Action> := [];
    var i := 0;
    while true
      invariant i <= |input| && i == |acts|
      invariant Run(Echo, env, input)
        == Outcome(acts + RunFrom(step, i, |input|).actions, RunFrom(step, i, |input|).stop)
      invariant replies == PongWrites(Echo, acts)
      invariant printed == Delivered(acts)
      decreases |input| - i
    {
      ghost var now := Step(Echo, env, ReadAt(input, i), i);
      assert step(i) == now;
      var r := ReadAt(input, i);
      if r.ReadError? {
        assert now == Halt(ReadFailed);
        stop := ReadFailed;
        break;
      }
      if r.Eof? || |r.text| == 0 {
        assert now == Halt(Closed);
        stop := Closed;
        break;
      }
      var line := r.text;
      ghost var a: Action;
      if StartsWith(line, PingPrefix) {
        if !writeOk(i) {
          assert now == Halt(WriteFailed);
          stop := WriteFailed;
          break;
        }
        replies := replies + ["PONG :tmi.twitch.tv\r\n"];
        a := Pong;
      } else {
        var parsed := ParseMessage(line);
        a := Drop;
        if parsed.Some? {
          var text := parsed.value.username + ": " + parsed.value.content;
          printed := printed + [text];
          a := Deliver(text);
        }
      }
      assert now == Go(a);
      Advance(Echo, step, i, |input|, acts, a, Run(Echo, env, input));
      acts := acts + [a];
      i := i + 1;
    }
    assert step(i) == Halt(stop);
    assert RunFrom(step, i, |input|).actions == [];
    assert acts + [] == acts;
    writes := HandshakeLines(channel, None) + replies;
    ok := stop != WriteFailed;
  }
}
