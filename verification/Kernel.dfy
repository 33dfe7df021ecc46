/**
 The in-guest python kernel: the driver turns what the kernel publishes into
 lines, the agent turns lines into reply frames.  The kernel, the clock and
 the pipe between the two are adversarial.
 */
module KernelDriver {
  datatype Message =
    | Stream(name: string, text: string)
    | Display(isResult: bool, data: map<string, string>)
    | Failure(name: string, value: string, traceback: seq<string>)
    | Status(state: string)
    | OtherMessage

  // One turn of a polling loop: its time is up, or it polls.  `parent` is the
  // execution a message belongs to.  Each request and each drain has a deadline
  // of its own, so a turn that finds time up ends one loop only.
  datatype Poll = Got(parent: nat, message: Message) | Nothing(alive: bool)
  datatype Tick = Late | Turn(poll: Poll)

  datatype Line =
    | Ready
    | Text(stdout: bool, text: string)
    | Result(text: string, data: map<string, string>)
    | Error(name: string, value: string, traceback: seq<string>)
    | Done(ok: bool)

  // ------------------------------------------------------------ what is meant

  predicate Idle(m: Message) { m == Status("idle") }

  // The turn at which a loop for execution `id` ends.
  predicate Stops(id: nat, t: Tick) {
    || t.Late?
    || (t.poll.Nothing? && !t.poll.alive)
    || (t.poll.Got? && t.poll.parent == id && Idle(t.poll.message))
  }

  // How many turns pass before that one; all of them when they run out first.
  function EndOf(id: nat, ticks: seq<Tick>): (end: nat)
    ensures end <= |ticks|
  {
    if ticks == [] || Stops(id, ticks[0]) then 0 else 1 + EndOf(id, ticks[1..])
  }

  // The turns left once the loop has read the turn that ends it.
  function After(id: nat, ticks: seq<Tick>): seq<Tick> {
    var end := EndOf(id, ticks);
    if end < |ticks| then ticks[end + 1..] else []
  }

  lemma {:induction false} EndFound(id: nat, ticks: seq<Tick>, end: nat)
    requires end <= |ticks| && (forall i :: 0 <= i < end ==> !Stops(id, ticks[i]))
    requires end < |ticks| ==> Stops(id, ticks[end])
    ensures EndOf(id, ticks) == end && After(id, ticks) == if end < |ticks| then ticks[end + 1..] else []
    decreases end
  {
    if end > 0 { EndFound(id, ticks[1..], end - 1); }
  }

  lemma StopsExactly(id: nat, t: Tick)
    ensures Stops(id, t) <==> t == Late || t == Turn(Nothing(false)) || t == Turn(Got(id, Status("idle")))
  {
  }

  // The loop ends at the first turn that finds time up, a dead kernel or the
  // execution's own idle.
  lemma {:induction false} EndStops(id: nat, ticks: seq<Tick>)
    ensures forall i :: 0 <= i < EndOf(id, ticks) ==>
      ticks[i] != Late && ticks[i] != Turn(Nothing(false)) && ticks[i] != Turn(Got(id, Status("idle")))
    ensures EndOf(id, ticks) < |ticks| ==>
      ticks[EndOf(id, ticks)] in {Late, Turn(Nothing(false)), Turn(Got(id, Status("idle")))}
  {
    if ticks != [] {
      StopsExactly(id, ticks[0]);
      if !Stops(id, ticks[0]) { EndStops(id, ticks[1..]); }
    }
  }

  // What execution `id` published, in order.
  function Own(id: nat, ticks: seq<Tick>): seq<Message> {
    if ticks == [] then [] else Own(id, ticks[..|ticks| - 1]) + OwnIn(id, ticks[|ticks| - 1])
  }

  function OwnIn(id: nat, t: Tick): seq<Message> {
    if t.Turn? && t.poll.Got? && t.poll.parent == id then [t.poll.message] else []
  }

  lemma OwnStep(id: nat, ticks: seq<Tick>, end: nat)
    requires end < |ticks|
    ensures Own(id, ticks[..end + 1]) ==
      if ticks[end].Turn? && ticks[end].poll.Got? && ticks[end].poll.parent == id
      then Own(id, ticks[..end]) + [ticks[end].poll.message] else Own(id, ticks[..end])
  {
    assert ticks[..end + 1][..end] == ticks[..end];
  }

  function LineOf(m: Message): seq<Line> {
    match m
    case Stream(name, text) => [Text(name == "stdout", text)]
    case Display(isResult, data) => [Result(if isResult && "text/plain" in data then data["text/plain"] else "", data)]
    case Failure(name, value, traceback) => [Error(name, value, traceback)]
    case _ => []
  }

  function LinesOf(messages: seq<Message>): seq<Line> {
    if messages == [] then [] else LinesOf(messages[..|messages| - 1]) + LineOf(messages[|messages| - 1])
  }

  predicate Failed(messages: seq<Message>) { exists i :: 0 <= i < |messages| && messages[i].Failure? }

  lemma LinesStep(own: seq<Message>, m: Message)
    ensures LinesOf(own + [m]) == LinesOf(own) + LineOf(m)
    ensures Failed(own + [m]) <==> Failed(own) || m.Failure?
  {
  }

  datatype Ending = Finished | TimedOut | Died

  function EndingOf(id: nat, ticks: seq<Tick>): Ending {
    var end := EndOf(id, ticks);
    if end == |ticks| || ticks[end].Late? then TimedOut else if ticks[end].poll.Nothing? then Died else Finished
  }

  // One execution: its id, what it published before its end, and how it ended.
  datatype Cell = Cell(id: nat, own: seq<Message>, ending: Ending)

  function CellOf(id: nat, ticks: seq<Tick>): Cell {
    Cell(id, Own(id, ticks[..EndOf(id, ticks)]), EndingOf(id, ticks))
  }

  // How it ended, by the turn it ended at, and what it published before: its own
  // messages among the turns before that one.
  lemma CellExactly(id: nat, ticks: seq<Tick>, end: nat)
    requires end == EndOf(id, ticks)
    ensures CellOf(id, ticks).ending == Finished <==> end < |ticks| && ticks[end] == Turn(Got(id, Status("idle")))
    ensures CellOf(id, ticks).ending == Died <==> end < |ticks| && ticks[end] == Turn(Nothing(false))
    ensures CellOf(id, ticks).ending == TimedOut <==> end == |ticks| || ticks[end] == Late
    ensures forall m :: m in CellOf(id, ticks).own <==> exists i :: 0 <= i < end && ticks[i] == Turn(Got(id, m))
  {
    EndStops(id, ticks);
    forall m ensures m in Own(id, ticks[..end]) <==> exists i :: 0 <= i < end && ticks[i] == Turn(Got(id, m)) {
      OwnExactly(id, ticks, end, m);
    }
  }

  lemma {:induction false} OwnExactly(id: nat, ticks: seq<Tick>, end: nat, m: Message)
    requires end <= |ticks|
    ensures m in Own(id, ticks[..end]) <==> exists i :: 0 <= i < end && ticks[i] == Turn(Got(id, m))
  {
    if end > 0 {
      OwnExactly(id, ticks, end - 1, m);
      OwnStep(id, ticks, end - 1);
    }
  }

  // A timed-out execution is drained, which takes another loop of turns.
  function LeftOver(id: nat, ticks: seq<Tick>): seq<Tick> {
    if EndingOf(id, ticks) == TimedOut then After(id, After(id, ticks)) else After(id, ticks)
  }

  // What the loop has gathered when it ends at `end`.
  lemma CellFound(id: nat, ticks: seq<Tick>, end: nat, own: seq<Message>)
    requires end <= |ticks| && (forall i :: 0 <= i < end ==> !Stops(id, ticks[i]))
    requires (end < |ticks| ==> Stops(id, ticks[end])) && own == Own(id, ticks[..end])
    ensures CellOf(id, ticks).own == own && After(id, ticks) == if end < |ticks| then ticks[end + 1..] else []
    ensures EndingOf(id, ticks) ==
      if end == |ticks| || ticks[end].Late? then TimedOut else if ticks[end].poll.Nothing? then Died else Finished
  {
    EndFound(id, ticks, end);
  }

  const DIED := "the kernel terminated during execution"

  function EndLines(ending: Ending, failed: bool, note: string): seq<Line> {
    match ending
    case Finished => [Done(!failed)]
    case TimedOut => [Error("TimeoutError", note, []), Done(false)]
    case Died => [Error("KernelDied", DIED, []), Done(false)]
  }

  function CellLines(cell: Cell, note: string): seq<Line> {
    LinesOf(cell.own) + EndLines(cell.ending, Failed(cell.own), note)
  }

  lemma CellLinesEnd(cell: Cell, note: string, lines: seq<Line>, ok: bool)
    requires cell.ending == Finished ==> lines == LinesOf(cell.own) && ok == !Failed(cell.own)
    requires cell.ending == TimedOut ==> lines == LinesOf(cell.own) + [Error("TimeoutError", note, [])] && !ok
    requires cell.ending == Died ==> lines == LinesOf(cell.own) + [Error("KernelDied", DIED, [])] && !ok
    ensures lines + [Done(ok)] == CellLines(cell, note)
  {
  }

  // ------------------------------------------------------------- the driver

  class Driver {
    var nextId: nat
    var iopub: seq<Tick>  // the turns still to come; when they run out time has passed

    constructor (iopub: seq<Tick>)
      ensures this.iopub == iopub && nextId == 0
    {
      this.iopub, nextId := iopub, 0;
    }

    // Reads on after an interrupt until the cell is idle, so that the next
    // request starts on a quiet channel.  Nothing is emitted.
    method DrainToIdle(id: nat)
      modifies `iopub
      ensures iopub == After(id, old(iopub))
    {
      ghost var turns, end := iopub, 0;
      while iopub != []
        invariant end <= |turns| && iopub == turns[end..] && forall i :: 0 <= i < end ==> !Stops(id, turns[i])
        decreases |iopub|
      {
        var turn := iopub[0];
        iopub := iopub[1..];
        if turn.Late? || (turn.poll.Nothing? && !turn.poll.alive)
           || (turn.poll.Got? && turn.poll.parent == id && Idle(turn.poll.message)) {
          EndFound(id, turns, end);
          return;
        }
        end := end + 1;
      }
      EndFound(id, turns, end);
    }

    // The polling loop of one request: emits what its own execution publishes.
    method Poll(id: nat) returns (lines: seq<Line>, ok: bool, ending: Ending)
      modifies `iopub
      ensures iopub == After(id, old(iopub)) && ending == EndingOf(id, old(iopub))
      ensures var own := CellOf(id, old(iopub)).own; lines == LinesOf(own) && ok == !Failed(own)
    {
      ghost var turns, own, end := iopub, [], 0;
      lines, ok, ending := [], true, TimedOut;
      while iopub != []
        invariant end <= |turns| && iopub == turns[end..] && ending == TimedOut
        invariant forall i :: 0 <= i < end ==> !Stops(id, turns[i])
        invariant own == Own(id, turns[..end]) && lines == LinesOf(own) && ok == !Failed(own)
        decreases |iopub|
      {
        var turn := iopub[0];
        iopub := iopub[1..];
        if Stops(id, turn) {
          CellFound(id, turns, end, own);
          ending := if turn.Late? then TimedOut else if turn.poll.Nothing? then Died else Finished;
          return;
        }
        OwnStep(id, turns, end);
        if turn.poll.Got? && turn.poll.parent == id {
          lines, ok := Emit(lines, ok, turn.poll.message, own);
          own := own + [turn.poll.message];
        }
        end := end + 1;
      }
      CellFound(id, turns, end, own);
    }

    static method Emit(lines: seq<Line>, ok: bool, m: Message, ghost own: seq<Message>)
      returns (more: seq<Line>, ok': bool)
      requires lines == LinesOf(own) && ok == !Failed(own)
      ensures more == LinesOf(own + [m]) && ok' == !Failed(own + [m])
    {
      LinesStep(own, m);
      return lines + LineOf(m), ok && !m.Failure?;
    }

    // One request: what its own execution publishes up to the end of the loop,
    // in order, then what a timeout or a dead kernel adds, then exactly one done.
    method RunOne(note: string) returns (lines: seq<Line>)
      modifies this
      ensures nextId == old(nextId) + 1 && iopub == LeftOver(old(nextId), old(iopub))
      ensures lines == CellLines(CellOf(old(nextId), old(iopub)), note)
    {
      var id, ok, ending := nextId, true, Finished;
      nextId := nextId + 1;
      lines, ok, ending := Poll(id);
      if ending == TimedOut {
        DrainToIdle(id);
        lines, ok := lines + [Error("TimeoutError", note, [])], false;
      } else if ending == Died {
        lines, ok := lines + [Error("KernelDied", DIED, [])], false;
      }
      CellLinesEnd(CellOf(id, old(iopub)), note, lines, ok);
      lines := lines + [Done(ok)];
    }
  }
}

module KernelAgent {
  import opened Wrappers
  import opened KernelDriver

  datatype Frame =
    | Chunk(stdout: bool, text: string)
    | ResultFrame(text: string, data: map<string, string>)
    | ErrorFrame(name: string, value: string, traceback: seq<string>)
    | Exit(code: int)

  // What may go wrong below the agent while one request runs.
  datatype Fault = Closed | ReadError | Garbled
  datatype Cut = Cut(after: nat, fault: Fault)
  datatype Fate = Fate(startOk: bool, writeOk: bool, cut: Option<Cut>)

  datatype Request = Request(language: string, note: string, fate: Fate)

  predicate Python(r: Request) { r.language == "" || r.language == "python" }

  // ------------------------------------------------------------ what is meant

  // The frame a kernel message should become.
  function MessageFrames(m: Message): seq<Frame> {
    match m
    case Stream(name, text) => [Chunk(name == "stdout", text)]
    case Display(isResult, data) =>
      [ResultFrame(if isResult && "text/plain" in data then data["text/plain"] else "", data)]
    case Failure(name, value, traceback) => [ErrorFrame(name, value, traceback)]
    case _ => []
  }

  function CellFrames(own: seq<Message>): seq<Frame> {
    if own == [] then [] else CellFrames(own[..|own| - 1]) + MessageFrames(own[|own| - 1])
  }

  function EndFrames(ending: Ending, failed: bool, note: string): seq<Frame> {
    match ending
    case Finished => [Exit(if failed then 1 else 0)]
    case TimedOut => [ErrorFrame("TimeoutError", note, []), Exit(1)]
    case Died => [ErrorFrame("KernelDied", DIED, []), Exit(1)]
  }

  // All of an execution's frames, and the exit.
  function WholeFrames(cell: Cell, note: string): seq<Frame> {
    CellFrames(cell.own) + EndFrames(cell.ending, Failed(cell.own), note)
  }

  ghost predicate OneExitLast(frames: seq<Frame>) {
    && frames != [] && frames[|frames| - 1].Exit?
    && forall i :: 0 <= i < |frames| - 1 ==> !frames[i].Exit?
  }

  predicate Unavailable(frames: seq<Frame>) {
    |frames| == 2 && frames[0].ErrorFrame? && frames[0].name == "KernelUnavailable" && frames[1] == Exit(127)
  }

  const CLOSED := ErrorFrame("KernelUnavailable", "kernel exited unexpectedly", [])
  const STREAM_ERROR := ErrorFrame("KernelStreamError", "kernel stream", [])

  // An error of the protocol's own making; `note` is the request's timeout text.
  predicate Synthetic(f: Frame, note: string) {
    || f == ErrorFrame("TimeoutError", note, [])
    || f == ErrorFrame("KernelDied", DIED, [])
    || f == CLOSED
    || f == STREAM_ERROR
  }

  // Every frame is one of execution `id`'s own messages, or an error of the
  // protocol's own making, or the exit.
  ghost predicate FromCell(frames: seq<Frame>, id: nat, turns: seq<Tick>, note: string) {
    forall i :: 0 <= i < |frames| ==> FrameFromCell(frames[i], id, turns, note)
  }

  ghost predicate FrameFromCell(f: Frame, id: nat, turns: seq<Tick>, note: string) {
    f.Exit? || Synthetic(f, note) || Published(f, id, turns)
  }

  ghost predicate Published(f: Frame, id: nat, turns: seq<Tick>) {
    exists t :: PublishedAt(f, id, turns, t)
  }

  predicate PublishedAt(f: Frame, id: nat, turns: seq<Tick>, t: int) {
    && 0 <= t < |turns| && turns[t].Turn? && turns[t].poll.Got? && turns[t].poll.parent == id
    && MessageFrames(turns[t].poll.message) == [f]
  }

  // ------------------------------------------------------------- translation

  function FrameOf(line: Line): seq<Frame> {
    match line
    case Ready => []
    case Text(stdout, text) => [Chunk(stdout, text)]
    case Result(text, data) => [ResultFrame(text, data)]
    case Error(name, value, traceback) => [ErrorFrame(name, value, traceback)]
    case Done(ok) => [Exit(if ok then 0 else 1)]
  }

  function FramesOf(lines: seq<Line>): seq<Frame> {
    if lines == [] then [] else FramesOf(lines[..|lines| - 1]) + FrameOf(lines[|lines| - 1])
  }

  lemma FramesStep(lines: seq<Line>, line: Line)
    ensures FramesOf(lines + [line]) == FramesOf(lines) + FrameOf(line)
  {
  }

  lemma FramesNext(lines: seq<Line>, n: nat)
    requires n < |lines|
    ensures FramesOf(lines[..n + 1]) == FramesOf(lines[..n]) + FrameOf(lines[n])
  {
    assert lines[..n + 1][..n] == lines[..n];
  }

  lemma Associative<T>(a: seq<T>, b: seq<T>, c: seq<T>)
    ensures (a + b) + c == a + (b + c)
  {
  }

  lemma FramesConcatStep(a: seq<Line>, b: seq<Line>, x: Line)
    requires FramesOf(a + b) == FramesOf(a) + FramesOf(b)
    ensures FramesOf(a + (b + [x])) == FramesOf(a) + FramesOf(b + [x])
  {
    Associative(a, b, [x]);
    FramesStep(a + b, x);
    FramesStep(b, x);
    Associative(FramesOf(a), FramesOf(b), FrameOf(x));
  }

  lemma LastApart<T>(s: seq<T>) returns (rest: seq<T>, x: T)
    requires s != []
    ensures s == rest + [x] && |rest| < |s|
  {
    rest, x := s[..|s| - 1], s[|s| - 1];
  }

  lemma {:induction false} FramesConcat(a: seq<Line>, b: seq<Line>)
    ensures FramesOf(a + b) == FramesOf(a) + FramesOf(b)
    decreases |b|
  {
    if b == [] {
      assert a + b == a;
    } else {
      var rest, x := LastApart(b);
      FramesConcat(a, rest);
      FramesConcatStep(a, rest, x);
    }
  }

  lemma FramesOfOne(x: Line)
    ensures FramesOf([x]) == FrameOf(x)
  {
  }

  lemma FramesOfTwo(x: Line, y: Line)
    ensures FramesOf([x, y]) == FrameOf(x) + FrameOf(y)
  {
    FramesOfOne(x);
    assert [x, y] == [x] + [y];
    FramesStep([x], y);
  }

  lemma MessageTranslates(m: Message)
    ensures FramesOf(LineOf(m)) == MessageFrames(m)
  {
  }

  // Driver and agent together turn a cell's messages into the frames meant.
  lemma {:induction false} CellTranslates(own: seq<Message>)
    ensures FramesOf(LinesOf(own)) == CellFrames(own)
  {
    if own != [] {
      var rest, m := own[..|own| - 1], own[|own| - 1];
      CellTranslates(rest);
      FramesConcat(LinesOf(rest), LineOf(m));
      MessageTranslates(m);
    }
  }

  lemma EndTranslates(ending: Ending, failed: bool, note: string)
    ensures FramesOf(EndLines(ending, failed, note)) == EndFrames(ending, failed, note)
  {
    match ending
    case Finished => FramesOfOne(Done(!failed));
    case TimedOut => FramesOfTwo(Error("TimeoutError", note, []), Done(false));
    case Died => FramesOfTwo(Error("KernelDied", DIED, []), Done(false));
  }

  lemma RunTranslates(cell: Cell, note: string)
    ensures FramesOf(CellLines(cell, note)) == WholeFrames(cell, note)
  {
    FramesConcat(LinesOf(cell.own), EndLines(cell.ending, Failed(cell.own), note));
    CellTranslates(cell.own);
    EndTranslates(cell.ending, Failed(cell.own), note);
  }

  // ---------------------------------------------------- done comes last, once

  ghost predicate NoDone(lines: seq<Line>) { forall i :: 0 <= i < |lines| ==> !lines[i].Done? }

  lemma {:induction false} OutputHasNoDone(own: seq<Message>)
    ensures NoDone(LinesOf(own))
  {
    if own != [] { OutputHasNoDone(own[..|own| - 1]); }
  }

  ghost predicate Complete(lines: seq<Line>) {
    lines != [] && lines[|lines| - 1].Done? && NoDone(lines[..|lines| - 1])
  }

  lemma DoneIsLast(lines: seq<Line>, n: nat)
    requires Complete(lines) && n < |lines| && lines[n].Done?
    ensures n + 1 == |lines| && lines[..n + 1] == lines
  {
    assert lines == lines[..|lines| - 1] + [lines[|lines| - 1]];
  }

  lemma DoneLast(cell: Cell, note: string)
    ensures Complete(CellLines(cell, note))
  {
    OutputHasNoDone(cell.own);
  }

  lemma {:induction false} NoDoneNoExit(lines: seq<Line>)
    requires NoDone(lines)
    ensures forall i :: 0 <= i < |FramesOf(lines)| ==> !FramesOf(lines)[i].Exit?
  {
    if lines != [] { NoDoneNoExit(lines[..|lines| - 1]); }
  }

  // --------------------------------------------------------------- the agent

  datatype Item = Good(line: Line) | Garbage

  function Items(lines: seq<Line>): seq<Item> { seq(|lines|, i requires 0 <= i < |lines| => Good(lines[i])) }

  // How many lines arrive whole; a fault after the last one is the next request's.
  function Arriving(lines: seq<Line>, cut: Option<Cut>): nat {
    if cut.Some? && cut.value.after < |lines| then cut.value.after else |lines|
  }

  function Broken(lines: seq<Line>, cut: Option<Cut>): Option<Fault> {
    if cut.Some? && cut.value.after < |lines| then Some(cut.value.fault) else None
  }

  predicate Unreadable(fault: Option<Fault>) { fault == Some(Garbled) || fault == Some(ReadError) }

  function ErrorFrames(message: string): (frames: seq<Frame>)
    ensures Unavailable(frames)
  {
    [ErrorFrame("KernelUnavailable", message, []), Exit(127)]
  }

  // What the agent makes of a request's lines when only some of them arrive.
  function ReadFrames(lines: seq<Line>, cut: Option<Cut>): seq<Frame> {
    FramesOf(lines[..Arriving(lines, cut)]) +
      if Broken(lines, cut) == Some(Closed) then [CLOSED, Exit(127)] else []
  }

  lemma ReadFramesCases(lines: seq<Line>, cut: Option<Cut>)
    ensures Broken(lines, cut).None? ==> ReadFrames(lines, cut) == FramesOf(lines)
    ensures Unreadable(Broken(lines, cut)) ==> ReadFrames(lines, cut) == FramesOf(lines[..Arriving(lines, cut)])
  {
    assert lines[..|lines|] == lines;
  }

  class KernelManager {
    const driver: Driver
    var started: bool
    var dead: bool
    var pipe: seq<Item>   // lines of the driver not yet read
    var closed: bool      // the stream has ended
    var readError: bool   // ... with an error

    // Until the kernel is dead nothing is left unread between requests.
    ghost predicate Valid()
      reads this
    {
      !dead ==> pipe == [] && !closed
    }

    constructor (driver: Driver)
      ensures Valid() && this.driver == driver && !started && !dead
    {
      this.driver, started, dead, pipe, closed, readError := driver, false, false, [], false, false;
    }

    method EnsureStarted(startOk: bool) returns (ok: bool)
      modifies `started
      ensures ok == (!dead && (old(started) || startOk)) && started == (old(started) || ok)
    {
      if dead { return false; }
      if started { return true; }
      if !startOk { return false; }
      started := true;
      return true;
    }

    method Deliver(lines: seq<Line>, cut: Option<Cut>)
      requires pipe == [] && !closed
      modifies `pipe, `closed, `readError
      ensures pipe ==
        Items(lines[..Arriving(lines, cut)]) + if Broken(lines, cut) == Some(Garbled) then [Garbage] else []
      ensures closed == (Broken(lines, cut) == Some(Closed) || Broken(lines, cut) == Some(ReadError))
      ensures closed ==> readError == (Broken(lines, cut) == Some(ReadError))
    {
      pipe := Items(lines[..Arriving(lines, cut)]);
      match Broken(lines, cut)
      case None =>
      case Some(Garbled) => pipe := pipe + [Garbage];
      case Some(fault) => closed, readError := true, fault == ReadError;
    }

    // The scan loop: stops at the first done, at a line it cannot decode, or
    // when the stream ends.
    method Read(ghost lines: seq<Line>, ghost cut: Option<Cut>) returns (frames: seq<Frame>, err: bool)
      requires Complete(lines) && !dead
      requires pipe ==
        Items(lines[..Arriving(lines, cut)]) + if Broken(lines, cut) == Some(Garbled) then [Garbage] else []
      requires closed == (Broken(lines, cut) == Some(Closed) || Broken(lines, cut) == Some(ReadError))
      requires closed ==> readError == (Broken(lines, cut) == Some(ReadError))
      modifies `pipe, `dead
      ensures frames == ReadFrames(lines, cut) && Valid()
      ensures dead == Broken(lines, cut).Some?
      ensures err == Unreadable(Broken(lines, cut))
    {
      frames := [];
      ReadFramesCases(lines, cut);
      ghost var n, all, m := 0, pipe, Arriving(lines, cut);
      ghost var garbled := Broken(lines, cut) == Some(Garbled);
      assert |all| == m + (if garbled then 1 else 0);
      while pipe != []
        invariant n <= m && n < |lines| && |pipe| == |all| - n && pipe == all[n..] && !dead
        invariant frames == FramesOf(lines[..n])
        decreases |pipe|
      {
        var item := pipe[0];
        assert item == if n < m then Good(lines[n]) else Garbage;
        pipe := pipe[1..];
        if item == Garbage {
          dead := true;
          return frames, true;
        }
        FramesNext(lines, n);
        frames := frames + FrameOf(item.line);
        if item.line.Done? {
          DoneIsLast(lines, n);
          return frames, false;
        }
        n := n + 1;
      }
      assert n == m && !garbled;
      assert closed by { assert Broken(lines, cut).Some? && (cut.value.fault.Closed? || cut.value.fault.ReadError?); }
      dead := true;
      if readError { return frames, true; }
      frames := frames + ErrorFrames("kernel exited unexpectedly");
      return frames, false;
    }

    function State(): Progress
      reads this, driver
    {
      Progress(driver.iopub, driver.nextId, started, dead)
    }

    method Run(r: Request) returns (frames: seq<Frame>, err: bool)
      requires Valid()
      modifies this, driver
      ensures Valid() && State() == Next(r, old(State()))
      ensures if Runs(r, old(State())) then frames == ReadFrames(LinesFor(r, old(State())), r.fate.cut)
                                            && err == Unreadable(Broken(LinesFor(r, old(State())), r.fate.cut))
              else frames == Refusal(r, old(State())) && !err
    {
      if r.language != "" && r.language != "python" {
        return ErrorFrames("unsupported language"), false;
      }
      var ok := EnsureStarted(r.fate.startOk);
      if !ok { return ErrorFrames("kernel unavailable"), false; }
      if !r.fate.writeOk {
        dead := true;
        return ErrorFrames("write to kernel"), false;
      }
      frames, err := RunCell(r.note, r.fate.cut);
    }

    // The driver runs the request's code and the agent reads what arrives.
    method RunCell(note: string, cut: Option<Cut>) returns (frames: seq<Frame>, err: bool)
      requires Valid() && !dead
      modifies `pipe, `closed, `readError, `dead, driver
      ensures Valid() && driver.nextId == old(driver.nextId) + 1
      ensures driver.iopub == LeftOver(old(driver.nextId), old(driver.iopub))
      ensures var lines := CellLines(CellOf(old(driver.nextId), old(driver.iopub)), note);
        frames == ReadFrames(lines, cut) && dead == Broken(lines, cut).Some? && err == Unreadable(Broken(lines, cut))
    {
      DoneLast(CellOf(driver.nextId, driver.iopub), note);
      var lines := driver.RunOne(note);
      Deliver(lines, cut);
      frames, err := Read(lines, cut);
    }

    // handleRunCodeStream: a transport failure becomes an error and an exit too.
    method Handle(r: Request) returns (frames: seq<Frame>)
      requires Valid()
      modifies this, driver
      ensures Valid() && State() == Next(r, old(State())) && frames == Reply(r, old(State()))
    {
      var err;
      frames, err := Run(r);
      if err { frames := frames + [STREAM_ERROR, Exit(1)]; }
    }
  }

  // ------------------------------------------------------- what one request does

  // The turns to come, the next execution's id, and whether the driver was
  // started and has died.
  datatype Progress = Progress(turns: seq<Tick>, nextId: nat, started: bool, dead: bool)

  predicate Runs(r: Request, s: Progress) {
    Python(r) && !s.dead && (s.started || r.fate.startOk) && r.fate.writeOk
  }

  function LinesFor(r: Request, s: Progress): seq<Line> { CellLines(CellOf(s.nextId, s.turns), r.note) }

  function Refusal(r: Request, s: Progress): seq<Frame> {
    if !Python(r) then ErrorFrames("unsupported language")
    else if s.dead || !(s.started || r.fate.startOk) then ErrorFrames("kernel unavailable")
    else ErrorFrames("write to kernel")
  }

  function Next(r: Request, s: Progress): Progress {
    if !Python(r) || s.dead || !(s.started || r.fate.startOk) then s
    else if !r.fate.writeOk then s.(started := true, dead := true)
    else Progress(LeftOver(s.nextId, s.turns), s.nextId + 1, true, Broken(LinesFor(r, s), r.fate.cut).Some?)
  }

  function Reply(r: Request, s: Progress): seq<Frame> {
    if Runs(r, s) then CutReply(LinesFor(r, s), r.fate.cut) else Refusal(r, s)
  }

  // The reply made of what arrived and, after a transport failure, the two
  // frames added for it.
  function CutReply(lines: seq<Line>, cut: Option<Cut>): seq<Frame> {
    ReadFrames(lines, cut) + if Unreadable(Broken(lines, cut)) then [STREAM_ERROR, Exit(1)] else []
  }

  // ------------------------------------------------------- where frames come from

  lemma OwnFrames(id: nat, ticks: seq<Tick>)
    requires ticks != []
    ensures var own := OwnIn(id, ticks[|ticks| - 1]);
      CellFrames(Own(id, ticks)) ==
      CellFrames(Own(id, ticks[..|ticks| - 1])) + (if own == [] then [] else MessageFrames(own[0]))
  {
    var before, own := Own(id, ticks[..|ticks| - 1]), OwnIn(id, ticks[|ticks| - 1]);
    if own == [] {
      assert before + [] == before && CellFrames(before) + [] == CellFrames(before);
    } else {
      assert own == [own[0]] && (before + own)[..|before|] == before;
    }
  }

  lemma JoinFromCell(a: seq<Frame>, b: seq<Frame>, id: nat, turns: seq<Tick>, note: string)
    requires FromCell(a, id, turns, note) && FromCell(b, id, turns, note)
    ensures FromCell(a + b, id, turns, note)
  {
  }

  lemma FewerFromCell(a: seq<Frame>, b: seq<Frame>, id: nat, turns: seq<Tick>, note: string)
    requires FromCell(a + b, id, turns, note)
    ensures FromCell(a, id, turns, note)
  {
    forall i | 0 <= i < |a| ensures FrameFromCell(a[i], id, turns, note) {
      assert FrameFromCell((a + b)[i], id, turns, note);
    }
  }

  // Turns before or after do not matter.
  lemma FromMoreTurns(frames: seq<Frame>, id: nat, some: seq<Tick>, all: seq<Tick>, n: nat, note: string)
    requires FromCell(frames, id, some, note) && n + |some| <= |all| && some == all[n..n + |some|]
    ensures FromCell(frames, id, all, note)
  {
    forall i | 0 <= i < |frames| ensures FrameFromCell(frames[i], id, all, note) {
      if t :| PublishedAt(frames[i], id, some, t) {
        assert PublishedAt(frames[i], id, all, n + t);
      }
    }
  }

  lemma MessageFromCell(id: nat, ticks: seq<Tick>, note: string)
    requires ticks != [] && OwnIn(id, ticks[|ticks| - 1]) != []
    ensures FromCell(MessageFrames(OwnIn(id, ticks[|ticks| - 1])[0]), id, ticks, note)
  {
    var frames := MessageFrames(OwnIn(id, ticks[|ticks| - 1])[0]);
    if frames != [] { assert PublishedAt(frames[0], id, ticks, |ticks| - 1); }
  }

  lemma {:induction false} OwnFromCell(id: nat, ticks: seq<Tick>, note: string)
    ensures FromCell(CellFrames(Own(id, ticks)), id, ticks, note)
  {
    if ticks != [] {
      var rest, own := ticks[..|ticks| - 1], OwnIn(id, ticks[|ticks| - 1]);
      OwnFromCell(id, rest, note);
      FromMoreTurns(CellFrames(Own(id, rest)), id, rest, ticks, 0, note);
      OwnFrames(id, ticks);
      if own != [] { MessageFromCell(id, ticks, note); }
      JoinFromCell(CellFrames(Own(id, rest)), if own == [] then [] else MessageFrames(own[0]), id, ticks, note);
    }
  }

  // All frames of an execution's lines are its own or synthetic.
  lemma LinesFromCell(id: nat, turns: seq<Tick>, note: string)
    ensures FromCell(FramesOf(CellLines(CellOf(id, turns), note)), id, turns, note)
  {
    var cell, end := CellOf(id, turns), EndOf(id, turns);
    OwnFromCell(id, turns[..end], note);
    FromMoreTurns(CellFrames(cell.own), id, turns[..end], turns, 0, note);
    EndFromCell(cell.ending, Failed(cell.own), note, id, turns);
    JoinFromCell(CellFrames(cell.own), EndFrames(cell.ending, Failed(cell.own), note), id, turns, note);
    RunTranslates(cell, note);
  }

  lemma EndFromCell(ending: Ending, failed: bool, note: string, id: nat, turns: seq<Tick>)
    ensures FromCell(EndFrames(ending, failed, note), id, turns, note)
  {
  }

  lemma PrefixFromCell(lines: seq<Line>, n: nat, id: nat, turns: seq<Tick>, note: string)
    requires n <= |lines| && FromCell(FramesOf(lines), id, turns, note)
    ensures FromCell(FramesOf(lines[..n]), id, turns, note)
  {
    FramesConcat(lines[..n], lines[n..]);
    assert lines[..n] + lines[n..] == lines;
    FewerFromCell(FramesOf(lines[..n]), FramesOf(lines[n..]), id, turns, note);
  }

  // ----------------------------------------------------------- shape of a reply

  // The two frames a failure ends with.
  lemma FailureEnds(frames: seq<Frame>, error: Frame, code: int, id: nat, turns: seq<Tick>, note: string)
    requires forall i :: 0 <= i < |frames| ==> !frames[i].Exit?
    requires (error == CLOSED || error == STREAM_ERROR) && FromCell(frames, id, turns, note)
    ensures OneExitLast(frames + [error, Exit(code)]) && FromCell(frames + [error, Exit(code)], id, turns, note)
  {
  }

  lemma WholeReply(lines: seq<Line>)
    requires Complete(lines)
    ensures OneExitLast(FramesOf(lines))
  {
    var rest := lines[..|lines| - 1];
    NoDoneNoExit(rest);
    FramesStep(rest, lines[|lines| - 1]);
    assert rest + [lines[|lines| - 1]] == lines;
  }

  lemma BrokenReply(lines: seq<Line>, cut: Option<Cut>, id: nat, turns: seq<Tick>, note: string)
    requires Complete(lines) && Broken(lines, cut).Some? && FromCell(FramesOf(lines), id, turns, note)
    ensures OneExitLast(CutReply(lines, cut)) && FromCell(CutReply(lines, cut), id, turns, note)
  {
    var n := Arriving(lines, cut);
    var read := FramesOf(lines[..n]);
    assert lines[..n] == lines[..|lines| - 1][..n];
    NoDoneNoExit(lines[..n]);
    PrefixFromCell(lines, n, id, turns, note);
    if Broken(lines, cut) == Some(Closed) {
      FailureEnds(read, CLOSED, 127, id, turns, note);
      assert CutReply(lines, cut) == read + [CLOSED, Exit(127)];
    } else {
      assert Unreadable(Broken(lines, cut)) by { assert cut.value.fault.Garbled? || cut.value.fault.ReadError?; }
      FailureEnds(read, STREAM_ERROR, 1, id, turns, note);
      assert read + [] == read;
    }
  }

  // A request that runs gets frames of its own execution only, all of them
  // unless the kernel is dead afterwards; one exit frame in any case, last.
  lemma ReplyShape(r: Request, s: Progress)
    ensures OneExitLast(Reply(r, s))
    ensures if Runs(r, s) then FromCell(Reply(r, s), s.nextId, s.turns, r.note) else Unavailable(Reply(r, s))
    ensures Runs(r, s) && !Next(r, s).dead ==> Reply(r, s) == WholeFrames(CellOf(s.nextId, s.turns), r.note)
  {
    if Runs(r, s) {
      var cell, lines := CellOf(s.nextId, s.turns), LinesFor(r, s);
      DoneLast(cell, r.note);
      LinesFromCell(s.nextId, s.turns, r.note);
      if Broken(lines, r.fate.cut).None? {
        ReadFramesCases(lines, r.fate.cut);
        assert FramesOf(lines) + [] == FramesOf(lines);
        WholeReply(lines);
        RunTranslates(cell, r.note);
      } else {
        BrokenReply(lines, r.fate.cut, s.nextId, s.turns, r.note);
      }
    }
  }

  // ------------------------------------------------------------ any session

  // The status before request i of a session.
  function At(turns: seq<Tick>, requests: seq<Request>, i: nat): Progress
    requires i <= |requests|
  {
    if i == 0 then Progress(turns, 0, false, false) else Next(requests[i - 1], At(turns, requests, i - 1))
  }

  function ReplyAt(turns: seq<Tick>, requests: seq<Request>, i: nat): seq<Frame>
    requires i < |requests|
  {
    Reply(requests[i], At(turns, requests, i))
  }

  lemma AfterIsLater(id: nat, turns: seq<Tick>) returns (n: nat)
    ensures n <= |turns| && After(id, turns) == turns[n..]
  {
    n := if EndOf(id, turns) < |turns| then EndOf(id, turns) + 1 else |turns|;
  }

  lemma LeftOverIsLater(id: nat, turns: seq<Tick>) returns (n: nat)
    ensures n <= |turns| && LeftOver(id, turns) == turns[n..]
  {
    n := AfterIsLater(id, turns);
    if EndingOf(id, turns) == TimedOut {
      var m := AfterIsLater(id, turns[n..]);
      SuffixTwice(turns, n, m);
      n := n + m;
    }
  }

  lemma SuffixTwice<T>(s: seq<T>, n: nat, m: nat)
    requires n <= |s| && m <= |s| - n
    ensures s[n..][m..] == s[n + m..]
  {
  }

  lemma NextTurns(r: Request, s: Progress)
    ensures Next(r, s).turns == if Runs(r, s) then LeftOver(s.nextId, s.turns) else s.turns
  {
  }

  lemma LeftOverInStream(id: nat, turns: seq<Tick>, n: nat) returns (m: nat)
    requires n <= |turns|
    ensures m <= |turns| && LeftOver(id, turns[n..]) == turns[m..]
  {
    var k := LeftOverIsLater(id, turns[n..]);
    SuffixTwice(turns, n, k);
    m := n + k;
  }

  lemma TurnsMove(turns: seq<Tick>, r: Request, s: Progress, n: nat) returns (m: nat)
    requires n <= |turns| && s.turns == turns[n..]
    ensures m <= |turns| && Next(r, s).turns == turns[m..]
  {
    NextTurns(r, s);
    m := n;
    if Runs(r, s) { m := LeftOverInStream(s.nextId, turns, n); }
  }

  // A session reads on in one stream of turns.
  lemma {:induction false} TurnsRemain(turns: seq<Tick>, requests: seq<Request>, i: nat) returns (n: nat)
    requires i <= |requests|
    ensures n <= |turns| && At(turns, requests, i).turns == turns[n..]
  {
    n := 0;
    assert turns[0..] == turns;
    if i > 0 {
      n := TurnsRemain(turns, requests, i - 1);
      n := TurnsMove(turns, requests[i - 1], At(turns, requests, i - 1), n);
    }
  }

  // Ids only grow, past each execution, and death is for ever.
  lemma {:induction false} StatusMoves(turns: seq<Tick>, requests: seq<Request>, i: nat, j: nat)
    requires i < j <= |requests|
    ensures Later(Next(requests[i], At(turns, requests, i)), At(turns, requests, j))
    decreases j
  {
    if i < j - 1 {
      StatusMoves(turns, requests, i, j - 1);
      LaterNext(Next(requests[i], At(turns, requests, i)), At(turns, requests, j - 1), requests[j - 1]);
    }
  }

  lemma LaterNext(s: Progress, t: Progress, r: Request)
    requires Later(s, t)
    ensures Later(s, Next(r, t))
  {
    NextMoves(r, t);
  }

  predicate Later(s: Progress, t: Progress) { s.nextId <= t.nextId && (s.dead ==> t.dead) }

  lemma NextMoves(r: Request, s: Progress)
    ensures Later(s, Next(r, s)) && (Runs(r, s) ==> s.nextId < Next(r, s).nextId)
  {
  }

  // Over any sequence of requests, whatever the kernel, the clock and the pipe
  // do: a request gets one exit frame and it is last; if it runs, every frame
  // comes from its own execution in the stream of turns, all of them while the
  // kernel lives; if not, it reports that the kernel is unavailable.
  lemma SessionReply(turns: seq<Tick>, requests: seq<Request>, i: nat)
    requires i < |requests|
    ensures WellAnswered(turns, requests[i], At(turns, requests, i))
  {
    var n := TurnsRemain(turns, requests, i);
    ReplyInStream(turns, n, requests[i], At(turns, requests, i));
  }

  ghost predicate WellAnswered(turns: seq<Tick>, r: Request, s: Progress) {
    && OneExitLast(Reply(r, s))
    && (if Runs(r, s) then FromCell(Reply(r, s), s.nextId, turns, r.note) else Unavailable(Reply(r, s)))
    && (Runs(r, s) && !Next(r, s).dead ==> Reply(r, s) == WholeFrames(CellOf(s.nextId, s.turns), r.note))
  }

  lemma ReplyInStream(turns: seq<Tick>, n: nat, r: Request, s: Progress)
    requires n <= |turns| && s.turns == turns[n..]
    ensures WellAnswered(turns, r, s)
  {
    ReplyShape(r, s);
    if Runs(r, s) { FromMoreTurns(Reply(r, s), s.nextId, s.turns, turns, n, r.note); }
  }

  // No two requests share an execution, and once the kernel is dead every later
  // request is refused.
  lemma SessionApart(turns: seq<Tick>, requests: seq<Request>, i: nat, j: nat)
    requires i < j < |requests|
    ensures var s, t := At(turns, requests, i), At(turns, requests, j);
      && (Runs(requests[i], s) && Runs(requests[j], t) ==> s.nextId != t.nextId)
      && (Next(requests[i], s).dead ==> !Runs(requests[j], t) && Unavailable(Reply(requests[j], t)))
  {
    StatusMoves(turns, requests, i, j);
    NextMoves(requests[i], At(turns, requests, i));
    SessionReply(turns, requests, j);
  }

  // The agent and the driver answer every session so.
  method Serve(turns: seq<Tick>, requests: seq<Request>) returns (replies: seq<seq<Frame>>)
    ensures |replies| == |requests| && Answered(turns, requests, replies) && EachEnds(replies)
  {
    var driver := new Driver(turns);
    var kernel := new KernelManager(driver);
    replies := [];
    for n := 0 to |requests|
      invariant |replies| == n && kernel.Valid() && kernel.driver == driver && fresh(kernel) && fresh(driver)
      invariant kernel.State() == At(turns, requests, n)
      invariant Answered(turns, requests, replies) && EachEnds(replies)
    {
      var reply := kernel.Handle(requests[n]);
      ReplyEnds(turns, requests, n);
      EndsMore(replies, reply);
      AnsweredMore(turns, requests, replies, reply);
      replies := replies + [reply];
    }
  }

  ghost predicate Answered(turns: seq<Tick>, requests: seq<Request>, replies: seq<seq<Frame>>) {
    |replies| <= |requests| && forall i :: 0 <= i < |replies| ==> replies[i] == ReplyAt(turns, requests, i)
  }

  ghost predicate EachEnds(replies: seq<seq<Frame>>) { forall i :: 0 <= i < |replies| ==> OneExitLast(replies[i]) }

  lemma ReplyEnds(turns: seq<Tick>, requests: seq<Request>, i: nat)
    requires i < |requests|
    ensures OneExitLast(ReplyAt(turns, requests, i))
  {
    ReplyShape(requests[i], At(turns, requests, i));
  }

  lemma EndsMore(replies: seq<seq<Frame>>, reply: seq<Frame>)
    requires EachEnds(replies) && OneExitLast(reply)
    ensures EachEnds(replies + [reply])
  {
  }

  lemma AnsweredMore(turns: seq<Tick>, requests: seq<Request>, replies: seq<seq<Frame>>, reply: seq<Frame>)
    requires Answered(turns, requests, replies)
    requires |replies| < |requests| && reply == ReplyAt(turns, requests, |replies|)
    ensures Answered(turns, requests, replies + [reply])
  {
  }

  // A request in another language runs nothing; one that reaches a live kernel
  // over a sound pipe gets all its frames.
  lemma ServesPythonOnly(r: Request, s: Progress)
    ensures r.language != "" && r.language != "python" ==> Next(r, s) == s && Unavailable(Reply(r, s))
    ensures s.dead ==> Next(r, s) == s && Unavailable(Reply(r, s))
    ensures (r.language == "" || r.language == "python") && !s.dead && r.fate == Fate(true, true, None) ==>
      && Reply(r, s) == WholeFrames(CellOf(s.nextId, s.turns), r.note)
      && Next(r, s) == Progress(LeftOver(s.nextId, s.turns), s.nextId + 1, true, false)
  {
    ReplyShape(r, s);
  }

  // When the pipe fails after some of the lines: their frames, an error and an
  // exit, 127 if the driver went away and 1 if it could not be read.
  lemma FaultsWrittenOut(r: Request, s: Progress, cut: Cut)
    requires Runs(r, s) && r.fate.cut == Some(cut) && cut.after < |LinesFor(r, s)|
    ensures Next(r, s).dead
    ensures cut.fault == Closed ==>
      Reply(r, s) == FramesOf(LinesFor(r, s)[..cut.after]) +
                     [ErrorFrame("KernelUnavailable", "kernel exited unexpectedly", []), Exit(127)]
    ensures cut.fault == ReadError || cut.fault == Garbled ==>
      Reply(r, s) == FramesOf(LinesFor(r, s)[..cut.after]) +
                     [ErrorFrame("KernelStreamError", "kernel stream", []), Exit(1)]
  {
    var read := FramesOf(LinesFor(r, s)[..cut.after]);
    assert read + [] == read;
  }

  // One message of each kind, and the frames they become.
  lemma EveryKind(out: string, err: string, data: map<string, string>, name: string, value: string, trace: seq<string>)
    ensures MessageFrames(Stream("stdout", out)) == [Chunk(true, out)]
    ensures MessageFrames(Stream("stderr", err)) == [Chunk(false, err)]
    ensures MessageFrames(Display(false, data)) == [ResultFrame("", data)]
    ensures MessageFrames(Display(true, data["text/plain" := out])) == [ResultFrame(out, data["text/plain" := out])]
    ensures "text/plain" !in data ==> MessageFrames(Display(true, data)) == [ResultFrame("", data)]
    ensures MessageFrames(Failure(name, value, trace)) == [ErrorFrame(name, value, trace)]
    ensures MessageFrames(Status("busy")) == [] && MessageFrames(OtherMessage) == []
  {
  }

  // A cell that writes, fails and is idle, and one whose kernel dies.
  lemma FailingCell(note: string, out: string, value: string)
    ensures WholeFrames(Cell(0, [Stream("stderr", out), Failure("E", value, [])], Finished), note) ==
      [Chunk(false, out), ErrorFrame("E", value, []), Exit(1)]
    ensures WholeFrames(Cell(0, [], Died), note) ==
      [ErrorFrame("KernelDied", "the kernel terminated during execution", []), Exit(1)]
  {
    var own := [Stream("stderr", out), Failure("E", value, [])];
    assert own[..1] == [own[0]] && own[..1][..0] == [];
    assert own[1].Failure?;
    assert CellFrames(own[..1]) == [Chunk(false, out)];
    assert CellFrames(own) == [Chunk(false, out), ErrorFrame("E", value, [])];
  }

  const FIRST := Turn(Got(0, Stream("stdout", "first")))
  const SECOND := Turn(Got(1, Stream("stdout", "second")))
  const IDLE := Turn(Got(1, Status("idle")))

  lemma SecondCell()
    ensures CellOf(1, [FIRST, SECOND, IDLE]) == Cell(1, [Stream("stdout", "second")], Finished)
  {
    var turns := [FIRST, SECOND, IDLE];
    EndFound(1, turns, 2);
    assert Own(1, turns[..0]) == [];
    OwnStep(1, turns, 0);
    OwnStep(1, turns, 1);
  }

  lemma SecondFrames(note: string)
    ensures WholeFrames(Cell(1, [Stream("stdout", "second")], Finished), note) == [Chunk(true, "second"), Exit(0)]
  {
    var own := [Stream("stdout", "second")];
    assert own[..0] == [] && CellFrames(own) == CellFrames([]) + MessageFrames(own[0]);
  }

  lemma TimesOutAtOnce(rest: seq<Tick>)
    ensures CellOf(0, [Late, Late] + rest) == Cell(0, [], TimedOut) && LeftOver(0, [Late, Late] + rest) == rest
  {
    var turns := [Late, Late] + rest;
    EndFound(0, turns, 0);
    assert turns[..0] == [] && turns[1..] == [Late] + rest;
    EndFound(0, turns[1..], 0);
    assert turns[1..][1..] == rest;
  }

  // A cell times out and its output arrives during the next one, which outputs
  // too: each reply holds its own cell's frames.
  lemma LeftoversAfterTimeout(note: string)
    ensures var fine := Request("python", note, Fate(true, true, None));
      var turns := [Late, Late] + [FIRST, SECOND, IDLE];
      && Reply(fine, At(turns, [fine, fine], 0)) == [ErrorFrame("TimeoutError", note, []), Exit(1)]
      && Reply(fine, At(turns, [fine, fine], 1)) == [Chunk(true, "second"), Exit(0)]
  {
    var fine := Request("python", note, Fate(true, true, None));
    var turns := [Late, Late] + [FIRST, SECOND, IDLE];
    TimesOutAtOnce([FIRST, SECOND, IDLE]);
    ReplyShape(fine, At(turns, [fine, fine], 0));
    SecondCell();
    SecondFrames(note);
    ReplyShape(fine, At(turns, [fine, fine], 1));
  }
}
