/**
  The run session and its child streams as interleaved atomic steps (run_session.cpp, `start`,
  `stop`, `kill`, `waitForUpdate`; child_stream.cpp, the POSIX `start`, `readLoop`,
  `readStderrLoop`, `join`, `requestStop` and `kill`).

  Threads are any number of request threads, and per child a reader and a stderr reader. The
  session mutex and each child's platform mutex are held across steps wherever the code waits
  for something else while holding them. Pipes carry whole lines (see LineSplitter).
*/
module RunSession {
  import opened Optional

  datatype Actor = Request(id: nat) | Reader(g: nat) | StderrReader(g: nat)

  datatype Entry = Entry(stderr: bool, text: string)

  /** Where a request thread is inside `start`, `stop` or `kill`. */
  datatype Call =
    | Idle
    | StartWait                // wants the session mutex
    | StartJoin(previous: nat)      // holds it; destroying the previous stream joins its reader
    | StartSpawn               // holds it; about to fork
    | StopWait
    | StopLock(g: nat)         // holds it; wants the platform mutex
    | StopWrite(g: nat)        // holds both
    | KillWait
    | KillLock(g: nat)
    | KillSignal(g: nat)       // holds both; about to check Reaped and signal
    | KillAwait                // waits on the condition variable, which released the session mutex
  {
    predicate WantsSession() { StartWait? || StopWait? || KillWait? || KillAwait? }
    predicate HoldsSession() { Starting() || StopLock? || StopWrite? || KillLock? || KillSignal? }
    predicate Starting() { StartJoin? || StartSpawn? }
    predicate HoldsPlatform(g: nat) { this == StopWrite(g) || this == KillSignal(g) }
    predicate UsesChild(g: nat) { HoldsPlatform(g) || this == StopLock(g) || this == KillLock(g) }
  }

  /** Where a child's stdout reader is in `readLoop`. */
  datatype ReaderAt =
    | Reading
    | Pushing(line: string)    // in OnLine: wants the session mutex
    | ClosingStdin             // wants the platform mutex
    | JoiningStderr
    | Waiting                  // polling waitpid under the platform mutex
    | Marking                  // holds it: the pid is gone, Reaped not yet set
    | Exiting                  // in OnExit: wants the session mutex
    | Returning
    | Done
  {
    predicate PastEof() { !Reading? && !Pushing? }
    predicate PastStderr() { Waiting? || Marking? || PastReap() }
    predicate PastReap() { Exiting? || PastExit() }
    predicate PastExit() { Returning? || Done? }
    function InFlight(): seq<string> { if Pushing? then [line] else [] }
  }

  datatype StderrAt = ErrReading | ErrPushing(line: string) | ErrDone {
    function InFlight(): seq<string> { if ErrPushing? then [line] else [] }
  }

  datatype Pipe = Pipe(open: bool, queue: seq<string>, written: seq<string>)

  datatype Child = Child(
    out: Pipe, err: Pipe, alive: bool,
    pidGone: bool,             // waitpid has collected it: the pid may name another process
    reaped: bool,              // the Reaped flag
    stdinOpen: bool,
    platform: Option<Actor>,   // holder of the platform mutex
    reader: ReaderAt, stderrReader: StderrAt,
    exits: nat,                // how often OnExit was called
    destroyed: bool)

  /** One browser connection following a run from its beginning. */
  datatype View = View(run: nat, next: nat, got: seq<Entry>, ended: bool)

  datatype State = State(
    session: Option<Actor>,    // holder of the session mutex
    active: bool, lines: seq<Entry>, child: Option<nat>,
    children: seq<Child>, calls: map<nat, Call>, views: map<nat, View>,
    run: nat)                  // how many runs have begun
  {
    function At(id: nat): Call { if id in calls then calls[id] else Idle }
    function To(id: nat, c: Call): State { this.(calls := calls[id := c]) }
    function With(g: nat, c: Child): State
      requires g < |children|
    {
      this.(children := children[g := c])
    }
    predicate Starting() { session.Some? && session.value.Request? && At(session.value.id).Starting() }
  }

  const INITIAL: State := State(None, false, [], None, [], map[], map[], 0)

  const NEWBORN: Child :=
    Child(Pipe(true, [], []), Pipe(true, [], []), true, false, false, true, None, Reading, ErrReading, 0, false)

  // ---------------------------------------------------------------- steps

  /** Steps of a child's readers and process that touch nothing outside the stream. */
  datatype StreamStep =
    | Read | Eof | CloseStdin | JoinStderr | Collect | MarkReaped | Return
    | ErrRead | ErrEof
    | WriteOut(text: string) | WriteErr(text: string) | CloseOut | CloseErr | Die

  datatype Step =
    | Begin(id: nat, call: Call)
    | Acquire(id: nat)
    | JoinOld(id: nat)
    | Spawn(id: nat, ok: bool)
    | LockPlatform(id: nat)
    | WriteStop(id: nat)
    | Signal(id: nat)
    | Wake(id: nat)
    | Open(view: nat)
    | Poll(view: nat)
    | Stream(g: nat, step: StreamStep)
    | Push(g: nat)             // OnLine
    | ErrPush(g: nat)          // OnStderrLine
    | Exit(g: nat)             // OnExit

  predicate CanStream(c: Child, e: StreamStep) {
    match e
    case Read => c.reader.Reading? && c.out.queue != []
    case Eof => c.reader.Reading? && c.out.queue == [] && !c.out.open
    case CloseStdin => c.reader.ClosingStdin? && c.platform.None?
    case JoinStderr => c.reader.JoiningStderr? && c.stderrReader.ErrDone?
    case Collect => c.reader.Waiting? && c.platform.None? && !c.alive
    case MarkReaped => c.reader.Marking?
    case Return => c.reader.Returning?
    case ErrRead => c.stderrReader.ErrReading? && c.err.queue != []
    case ErrEof => c.stderrReader.ErrReading? && c.err.queue == [] && !c.err.open
    case WriteOut(_) => c.out.open
    case WriteErr(_) => c.err.open
    case CloseOut => true
    case CloseErr => true
    case Die => true
  }

  function Streamed(c: Child, g: nat, e: StreamStep): Child
    requires CanStream(c, e)
  {
    match e
    case Read => c.(out := c.out.(queue := c.out.queue[1..]), reader := Pushing(c.out.queue[0]))
    case Eof => c.(reader := ClosingStdin)
    case CloseStdin => c.(stdinOpen := false, reader := JoiningStderr)
    case JoinStderr => c.(reader := Waiting)
    case Collect => c.(pidGone := true, platform := Some(Reader(g)), reader := Marking)
    case MarkReaped => c.(reaped := true, platform := None, reader := Exiting)
    case Return => c.(reader := Done)
    case ErrRead => c.(err := c.err.(queue := c.err.queue[1..]), stderrReader := ErrPushing(c.err.queue[0]))
    case ErrEof => c.(stderrReader := ErrDone)
    case WriteOut(text) => c.(out := Written(c.out, text))
    case WriteErr(text) => c.(err := Written(c.err, text))
    case CloseOut => c.(out := c.out.(open := false))
    case CloseErr => c.(err := c.err.(open := false))
    case Die => c.(alive := false)
  }

  function Written(p: Pipe, text: string): Pipe {
    p.(queue := p.queue + [text], written := p.written + [text])
  }

  predicate Can(s: State, e: Step) {
    match e
    case Begin(id, call) => s.At(id).Idle? && (call.StartWait? || call.StopWait? || call.KillWait?)
    case Acquire(id) => s.session.None? && s.At(id).WantsSession() && !s.At(id).KillAwait?
    case JoinOld(id) =>
      s.At(id).StartJoin? && s.At(id).previous < |s.children| && s.children[s.At(id).previous].reader.Done?
    case Spawn(id, _) => s.At(id).StartSpawn?
    case LockPlatform(id) =>
      var c := s.At(id);
      (c.StopLock? || c.KillLock?) && c.g < |s.children| && s.children[c.g].platform.None?
    case WriteStop(id) => s.At(id).StopWrite? && s.At(id).g < |s.children|
    case Signal(id) => s.At(id).KillSignal? && s.At(id).g < |s.children|
    case Wake(id) => s.At(id).KillAwait? && s.session.None?
    case Open(v) => v !in s.views
    case Poll(v) => v in s.views && s.session.None?
    case Stream(g, step) => g < |s.children| && CanStream(s.children[g], step)
    case Push(g) => g < |s.children| && s.children[g].reader.Pushing? && s.session.None?
    case ErrPush(g) => g < |s.children| && s.children[g].stderrReader.ErrPushing? && s.session.None?
    case Exit(g) => g < |s.children| && s.children[g].reader.Exiting? && s.session.None?
  }

  function Release(s: State, id: nat, c: Call): State {
    s.To(id, c).(session := None)
  }

  /** What a thread does on getting the session mutex. */
  function Entered(s: State, id: nat): State
    requires s.session.None?
  {
    var held := s.(session := Some(Request(id)));
    if s.At(id).StartWait? then
      if s.active then s.To(id, Idle)
      else
        var cleared := held.(lines := [], active := true, run := s.run + 1);
        cleared.To(id, if s.child.Some? then StartJoin(s.child.value) else StartSpawn)
    else if !s.active || s.child.None? then s.To(id, Idle)
    else if s.At(id).StopWait? then held.To(id, StopLock(s.child.value))
    else held.To(id, KillLock(s.child.value))
  }

  function After(s: State, e: Step): State
    requires Can(s, e)
  {
    match e
    case Begin(id, call) => s.To(id, call)
    case Acquire(id) => Entered(s, id)
    case JoinOld(id) =>
      var g := s.At(id).previous;
      s.With(g, s.children[g].(destroyed := true)).(child := None).To(id, StartSpawn)
    case Spawn(id, ok) =>
      if ok then Release(s, id, Idle).(children := s.children + [NEWBORN], child := Some(|s.children|))
      else Release(s, id, Idle).(active := false)
    case LockPlatform(id) =>
      var g := s.At(id).g;
      var locked := s.With(g, s.children[g].(platform := Some(Request(id))));
      locked.To(id, if s.At(id).StopLock? then StopWrite(g) else KillSignal(g))
    case WriteStop(id) =>
      var g := s.At(id).g;
      Release(s.With(g, s.children[g].(platform := None)), id, Idle)
    case Signal(id) =>
      var g := s.At(id).g;
      Release(s.With(g, s.children[g].(platform := None)), id, if s.children[g].reaped then Idle else KillAwait)
    case Wake(id) => s.To(id, Idle)
    case Open(v) => s.(views := s.views[v := View(s.run, 0, [], false)])
    case Poll(v) =>
      var w := s.views[v];
      var news := if w.next < |s.lines| then s.lines[w.next..] else [];
      s.(views := s.views[v := View(w.run, |s.lines|, w.got + news, !s.active)])
    case Stream(g, step) => s.With(g, Streamed(s.children[g], g, step))
    case Push(g) =>
      s.With(g, s.children[g].(reader := Reading)).(lines := s.lines + [Entry(false, s.children[g].reader.line)])
    case ErrPush(g) =>
      s.With(g, s.children[g].(stderrReader := ErrReading))
       .(lines := s.lines + [Entry(true, s.children[g].stderrReader.line)])
    case Exit(g) => s.With(g, s.children[g].(reader := Returning, exits := s.children[g].exits + 1)).(active := false)
  }

  // ---------------------------------------------------------------- the invariant

  /** The texts of one stream's lines, in order. */
  function Only(lines: seq<Entry>, stderr: bool): seq<string> {
    if lines == [] then []
    else
      var last := lines[|lines| - 1];
      Only(lines[..|lines| - 1], stderr) + (if last.stderr == stderr then [last.text] else [])
  }

  /** What holds of every child stream, wherever its threads are. */
  ghost predicate ChildOk(c: Child, g: nat) {
    && (c.reader.PastEof() ==> !c.out.open && c.out.queue == [])
    && (c.stderrReader.ErrDone? ==> !c.err.open && c.err.queue == [])
    && (c.reader.PastStderr() ==> c.stderrReader.ErrDone?)
    && (c.pidGone <==> c.reader.Marking? || c.reader.PastReap())
    && (c.reaped <==> c.reader.PastReap())
    && (c.stdinOpen <==> !c.reader.PastEof() || c.reader.ClosingStdin?)
    && (c.reader.Marking? <==> c.platform == Some(Reader(g)))
    && (c.platform.Some? ==> c.platform.value.Request? || c.platform.value == Reader(g))
    && c.exits == (if c.reader.PastExit() then 1 else 0)
    && (c.destroyed ==> c.reader.Done?)
  }

  ghost predicate PlatformOk(c: Child, g: nat, calls: map<nat, Call>) {
    match c.platform
    case Some(Request(id)) => id in calls && calls[id].HoldsPlatform(g)
    case _ => forall id :: id in calls ==> !calls[id].HoldsPlatform(g)
  }

  ghost predicate ChildrenOk(children: seq<Child>, calls: map<nat, Call>) {
    forall g :: 0 <= g < |children| ==> ChildOk(children[g], g) && PlatformOk(children[g], g, calls)
  }

  /** The session mutex is held by the one request thread inside a held section, and by no other. */
  ghost predicate SessionOk(session: Option<Actor>, calls: map<nat, Call>, child: Option<nat>) {
    && (session.Some? ==> session.value.Request? && session.value.id in calls && calls[session.value.id].HoldsSession())
    && (forall id :: id in calls && calls[id].HoldsSession() ==> session == Some(Request(id)))
    && (forall id, g: nat :: id in calls && calls[id].UsesChild(g) ==> child == Some(g))
    && (forall id :: id in calls && calls[id].StartJoin? ==> child == Some(calls[id].previous))
    && (forall id :: id in calls && calls[id].StartSpawn? ==> child == None)
  }

  /** Only the newest child can still be running; the session is active exactly while one is, or is being started. */
  ghost predicate RunOk(starting: bool, active: bool, child: Option<nat>, children: seq<Child>) {
    && (forall g :: 0 <= g < |children| && child != Some(g) ==> children[g].destroyed)
    && (child.Some? ==> child.value == |children| - 1 && !children[child.value].destroyed)
    && (starting ==> active && (child.Some? ==> children[child.value].reader.PastExit()))
    && (!starting ==> (active <==> child.Some? && !children[child.value].reader.PastExit()))
  }

  /** Lines are conserved: in the session, in a reader's hands or in the pipe, in the order written. */
  ghost predicate LinesOk(starting: bool, child: Option<nat>, children: seq<Child>, lines: seq<Entry>) {
    if starting || child.None? then lines == []
    else child.value < |children| && Conserved(children[child.value], lines)
  }

  predicate Conserved(c: Child, lines: seq<Entry>) {
    && Only(lines, false) + c.reader.InFlight() + c.out.queue == c.out.written
    && Only(lines, true) + c.stderrReader.InFlight() + c.err.queue == c.err.written
  }

  /** A viewer still in its run holds exactly the lines before its position. */
  predicate ViewOk(w: View, run: nat, active: bool, lines: seq<Entry>) {
    && w.run <= run
    && (w.run == run ==> w.next <= |lines| && w.got == lines[..w.next])
    && (w.run == run && w.ended ==> !active && w.next == |lines|)
  }

  ghost predicate ViewsOk(views: map<nat, View>, run: nat, active: bool, lines: seq<Entry>) {
    forall v :: v in views ==> ViewOk(views[v], run, active, lines)
  }

  ghost predicate Inv(s: State) {
    && ChildrenOk(s.children, s.calls)
    && SessionOk(s.session, s.calls, s.child)
    && RunOk(s.Starting(), s.active, s.child, s.children)
    && LinesOk(s.Starting(), s.child, s.children, s.lines)
    && ViewsOk(s.views, s.run, s.active, s.lines)
  }

  lemma InitialOk()
    ensures Inv(INITIAL)
  {}

  // ---------------------------------------------------------------- every step keeps it

  /** A stream step keeps the stream's own invariant and only extends what is conserved. */
  lemma StreamStepOk(c: Child, g: nat, e: StreamStep)
    requires ChildOk(c, g) && CanStream(c, e)
    ensures
      var d := Streamed(c, g, e);
      var out, err := if e.WriteOut? then [e.text] else [], if e.WriteErr? then [e.text] else [];
      && ChildOk(d, g) && d.destroyed == c.destroyed && d.reader.PastExit() == c.reader.PastExit()
      && (d.platform == c.platform || e.Collect? || e.MarkReaped?)
      && d.reader.InFlight() + d.out.queue == c.reader.InFlight() + c.out.queue + out
      && d.out.written == c.out.written + out
      && d.stderrReader.InFlight() + d.err.queue == c.stderrReader.InFlight() + c.err.queue + err
      && d.err.written == c.err.written + err
  {
    match e
    case Read => assert [c.out.queue[0]] + c.out.queue[1..] == c.out.queue;
    case ErrRead => assert [c.err.queue[0]] + c.err.queue[1..] == c.err.queue;
    case WriteOut(text) =>
      assert c.reader.InFlight() + (c.out.queue + [text]) == c.reader.InFlight() + c.out.queue + [text];
    case WriteErr(text) =>
      assert c.stderrReader.InFlight() + (c.err.queue + [text]) == c.stderrReader.InFlight() + c.err.queue + [text];
    case _ =>
  }

  lemma Carry(before: seq<string>, a: seq<string>, b: seq<string>, c: seq<string>, d: seq<string>, more: seq<string>)
    requires c + d == a + b + more
    ensures before + c + d == before + a + b + more
  {
    assert before + c + d == before + (c + d);
    assert before + a + b + more == before + (a + b + more);
  }

  lemma StreamKeepsChildren(children: seq<Child>, calls: map<nat, Call>, g: nat, e: StreamStep)
    requires ChildrenOk(children, calls) && g < |children| && CanStream(children[g], e)
    ensures ChildrenOk(children[g := Streamed(children[g], g, e)], calls)
  {
    assert ChildOk(children[g], g) && PlatformOk(children[g], g, calls);
    StreamStepOk(children[g], g, e);
    hide Streamed, CanStream;
  }

  lemma RunUnmoved(starting: bool, active: bool, child: Option<nat>, children: seq<Child>, g: nat, c: Child)
    requires RunOk(starting, active, child, children) && g < |children|
    requires c.destroyed == children[g].destroyed && c.reader.PastExit() == children[g].reader.PastExit()
    ensures RunOk(starting, active, child, children[g := c])
  {}

  lemma StreamKeepsLines(starting: bool, child: Option<nat>, children: seq<Child>, lines: seq<Entry>, g: nat, e: StreamStep)
    requires LinesOk(starting, child, children, lines)
    requires g < |children| && ChildOk(children[g], g) && CanStream(children[g], e)
    ensures LinesOk(starting, child, children[g := Streamed(children[g], g, e)], lines)
  {
    hide Streamed, CanStream, ChildOk, Conserved;
    if !starting && child == Some(g) {
      StreamConserves(children[g], g, e, lines);
    }
  }

  lemma StreamKeeps(s: State, g: nat, e: StreamStep)
    requires Inv(s) && Can(s, Stream(g, e))
    ensures Inv(After(s, Stream(g, e)))
  {
    var b := s.children[g];
    assert ChildOk(b, g);
    StreamStepOk(b, g, e);
    hide Streamed, CanStream, ChildOk, SessionOk, RunOk, LinesOk, ViewsOk;
    StreamKeepsChildren(s.children, s.calls, g, e);
    RunUnmoved(s.Starting(), s.active, s.child, s.children, g, Streamed(b, g, e));
    StreamKeepsLines(s.Starting(), s.child, s.children, s.lines, g, e);
    hide ChildrenOk;
  }

  lemma StreamConserves(b: Child, g: nat, e: StreamStep, lines: seq<Entry>)
    requires ChildOk(b, g) && CanStream(b, e) && Conserved(b, lines)
    ensures Conserved(Streamed(b, g, e), lines)
  {
    StreamStepOk(b, g, e);
    var c := Streamed(b, g, e);
    hide Streamed, CanStream, ChildOk, Only;
    var out, err := if e.WriteOut? then [e.text] else [], if e.WriteErr? then [e.text] else [];
    Carry(Only(lines, false), b.reader.InFlight(), b.out.queue, c.reader.InFlight(), c.out.queue, out);
    Carry(Only(lines, true), b.stderrReader.InFlight(), b.err.queue, c.stderrReader.InFlight(), c.err.queue, err);
  }

  // The other steps, one by one.

  /** A request thread that enters, leaves or stays in a held section, perhaps changing the child. */
  lemma CallMoves(s: State, id: nat, c: Call, session: Option<Actor>, child: Option<nat>)
    requires SessionOk(s.session, s.calls, s.child)
    requires s.session.None? || s.session == Some(Request(id)) || (!c.HoldsSession() && child == s.child)
    requires session == if c.HoldsSession() then Some(Request(id))
                        else if s.session == Some(Request(id)) then None else s.session
    requires child != s.child ==> s.session == Some(Request(id))
    requires forall g: nat :: c.UsesChild(g) ==> child == Some(g)
    requires c.StartJoin? ==> child == Some(c.previous)
    requires c.StartSpawn? ==> child == None
    ensures SessionOk(session, s.calls[id := c], child)
  {}

  lemma CallLeavesPlatforms(children: seq<Child>, calls: map<nat, Call>, id: nat, c: Call)
    requires ChildrenOk(children, calls)
    requires !c.StopWrite? && !c.KillSignal?
    requires id in calls ==> !calls[id].StopWrite? && !calls[id].KillSignal?
    ensures ChildrenOk(children, calls[id := c])
  {
    hide ChildOk;
  }

  /** Taking or releasing a platform mutex changes its holder and nothing else of the stream. */
  lemma PlatformMoves(s: State, g: nat, id: nat, p: Option<Actor>, c: Call)
    requires ChildrenOk(s.children, s.calls) && SessionOk(s.session, s.calls, s.child)
    requires g < |s.children| && s.session == Some(Request(id)) && s.At(id).UsesChild(g)
    requires s.children[g].platform.None? || s.children[g].platform == Some(Request(id))
    requires if c.HoldsPlatform(g) then p == Some(Request(id)) else p.None? && !c.StopWrite? && !c.KillSignal?
    ensures ChildrenOk(s.children[g := s.children[g].(platform := p)], s.calls[id := c])
  {
    assert ChildOk(s.children[g], g) && PlatformOk(s.children[g], g, s.calls);
  }

  lemma PlatformIsPrivate(s: State, g: nat, p: Option<Actor>)
    requires RunOk(s.Starting(), s.active, s.child, s.children) && g < |s.children|
    requires LinesOk(s.Starting(), s.child, s.children, s.lines)
    ensures var t := s.children[g := s.children[g].(platform := p)];
            RunOk(s.Starting(), s.active, s.child, t) && LinesOk(s.Starting(), s.child, t, s.lines)
  {
    hide Only;
  }

  lemma BeginKeeps(s: State, id: nat, call: Call)
    requires Inv(s) && Can(s, Begin(id, call))
    ensures Inv(After(s, Begin(id, call)))
  {
    CallMoves(s, id, call, s.session, s.child);
    CallLeavesPlatforms(s.children, s.calls, id, call);
    assert After(s, Begin(id, call)).Starting() == s.Starting();
    hide ChildrenOk, SessionOk, RunOk, LinesOk, ViewsOk;
  }

  lemma EnterKeeps(s: State, id: nat)
    requires Inv(s) && Can(s, Acquire(id))
    ensures Inv(After(s, Acquire(id)))
  {
    var t := After(s, Acquire(id));
    CallMoves(s, id, t.At(id), t.session, s.child);
    CallLeavesPlatforms(s.children, s.calls, id, t.At(id));
    hide ChildrenOk, SessionOk;
    if t.Starting() {
      StartClears(s, id);
    } else {
      assert t.lines == s.lines && t.active == s.active;
    }
  }

  lemma StartClears(s: State, id: nat)
    requires Inv(s) && Can(s, Acquire(id)) && After(s, Acquire(id)).Starting()
    ensures var t := After(s, Acquire(id));
            && s.At(id).StartWait? && !s.active && t.lines == [] && t.active && t.run == s.run + 1
            && RunOk(true, t.active, t.child, t.children) && LinesOk(true, t.child, t.children, t.lines)
            && ViewsOk(t.views, t.run, t.active, t.lines)
  {
    hide ChildrenOk;
  }

  lemma WakeKeeps(s: State, id: nat)
    requires Inv(s) && Can(s, Wake(id))
    ensures Inv(After(s, Wake(id)))
  {
    CallMoves(s, id, Idle, s.session, s.child);
    CallLeavesPlatforms(s.children, s.calls, id, Idle);
    assert After(s, Wake(id)).Starting() == s.Starting();
    hide ChildrenOk, SessionOk, RunOk, LinesOk, ViewsOk;
  }

  lemma HolderOf(s: State, id: nat)
    requires SessionOk(s.session, s.calls, s.child) && s.At(id).HoldsSession()
    ensures id in s.calls && s.session == Some(Request(id)) && s.Starting() == s.At(id).Starting()
  {}

  lemma JoinKeeps(s: State, id: nat)
    requires Inv(s) && Can(s, JoinOld(id))
    ensures Inv(After(s, JoinOld(id)))
  {
    HolderOf(s, id);
    CallMoves(s, id, StartSpawn, s.session, None);
    CallLeavesPlatforms(s.children, s.calls, id, StartSpawn);
    hide SessionOk, ViewsOk;
    assert s.child == Some(s.At(id).previous) by { JoinsItsChild(s, id); }
  }

  lemma JoinsItsChild(s: State, id: nat)
    requires SessionOk(s.session, s.calls, s.child) && s.At(id).StartJoin?
    ensures s.child == Some(s.At(id).previous)
  {}

  lemma SpawnKeeps(s: State, id: nat, ok: bool)
    requires Inv(s) && Can(s, Spawn(id, ok))
    ensures Inv(After(s, Spawn(id, ok)))
  {
    var t := After(s, Spawn(id, ok));
    HolderOf(s, id);
    CallMoves(s, id, Idle, None, t.child);
    CallLeavesPlatforms(s.children, s.calls, id, Idle);
    assert s.child.None? by { SpawnsAlone(s, id); }
    hide SessionOk;
    assert !t.Starting();
    if ok {
      assert Conserved(NEWBORN, []);
      NewbornJoins(s.children, t.calls);
    }
  }

  lemma SpawnsAlone(s: State, id: nat)
    requires SessionOk(s.session, s.calls, s.child) && s.At(id).StartSpawn?
    ensures s.child.None? && forall i :: i in s.calls && i != id ==> !s.calls[i].HoldsSession()
  {}

  lemma NewbornJoins(children: seq<Child>, calls: map<nat, Call>)
    requires ChildrenOk(children, calls) && forall i :: i in calls ==> !calls[i].HoldsSession()
    ensures ChildrenOk(children + [NEWBORN], calls)
  {
    assert ChildOk(NEWBORN, |children|) && PlatformOk(NEWBORN, |children|, calls);
  }

  lemma LockKeeps(s: State, id: nat)
    requires Inv(s) && Can(s, LockPlatform(id))
    ensures Inv(After(s, LockPlatform(id)))
  {
    var t, g := After(s, LockPlatform(id)), s.At(id).g;
    HolderOf(s, id);
    CallMoves(s, id, t.At(id), s.session, s.child);
    PlatformMoves(s, g, id, Some(Request(id)), t.At(id));
    PlatformIsPrivate(s, g, Some(Request(id)));
    assert t.Starting() == s.Starting();
    hide ChildrenOk, SessionOk, RunOk, LinesOk, ViewsOk;
  }

  lemma HoldsItsPlatform(s: State, id: nat, g: nat)
    requires Inv(s) && g < |s.children| && s.At(id).HoldsPlatform(g)
    ensures s.children[g].platform == Some(Request(id)) && s.child == Some(g)
  {
    assert ChildOk(s.children[g], g) && PlatformOk(s.children[g], g, s.calls);
  }

  lemma WriteStopKeeps(s: State, id: nat)
    requires Inv(s) && Can(s, WriteStop(id))
    ensures Inv(After(s, WriteStop(id)))
  {
    var t, g := After(s, WriteStop(id)), s.At(id).g;
    HolderOf(s, id);
    HoldsItsPlatform(s, id, g);
    CallMoves(s, id, Idle, None, s.child);
    PlatformMoves(s, g, id, None, Idle);
    PlatformIsPrivate(s, g, None);
    assert t.Starting() == s.Starting();
    hide ChildrenOk, SessionOk, RunOk, LinesOk, ViewsOk;
  }

  lemma SignalKeeps(s: State, id: nat)
    requires Inv(s) && Can(s, Signal(id))
    ensures Inv(After(s, Signal(id)))
  {
    var t, g := After(s, Signal(id)), s.At(id).g;
    HolderOf(s, id);
    HoldsItsPlatform(s, id, g);
    CallMoves(s, id, t.At(id), None, s.child);
    PlatformMoves(s, g, id, None, t.At(id));
    PlatformIsPrivate(s, g, None);
    assert t.Starting() == s.Starting();
    hide ChildrenOk, SessionOk, RunOk, LinesOk, ViewsOk;
  }

  lemma OpenKeeps(s: State, v: nat)
    requires Inv(s) && Can(s, Open(v))
    ensures Inv(After(s, Open(v)))
  {
    hide ChildrenOk, SessionOk, RunOk, LinesOk;
  }

  lemma PollKeeps(s: State, v: nat)
    requires Inv(s) && Can(s, Poll(v))
    ensures Inv(After(s, Poll(v)))
  {
    hide ChildrenOk, SessionOk, RunOk, LinesOk;
  }

  lemma PushKeeps(s: State, g: nat)
    requires Inv(s) && Can(s, Push(g))
    ensures Inv(After(s, Push(g)))
  {
    hide SessionOk;
    var t := After(s, Push(g));
    assert t.lines[..|t.lines| - 1] == s.lines;
    assert ChildOk(s.children[g], g) && PlatformOk(s.children[g], g, s.calls);
  }

  lemma ErrPushKeeps(s: State, g: nat)
    requires Inv(s) && Can(s, ErrPush(g))
    ensures Inv(After(s, ErrPush(g)))
  {
    hide SessionOk;
    var t := After(s, ErrPush(g));
    assert t.lines[..|t.lines| - 1] == s.lines;
    assert ChildOk(s.children[g], g) && PlatformOk(s.children[g], g, s.calls);
  }

  lemma ExitKeeps(s: State, g: nat)
    requires Inv(s) && Can(s, Exit(g))
    ensures Inv(After(s, Exit(g)))
  {
    hide SessionOk, Only;
    assert ChildOk(s.children[g], g) && PlatformOk(s.children[g], g, s.calls);
  }

  /** Every step of every thread, in any order, keeps the invariant. */
  lemma StepKeeps(s: State, e: Step)
    requires Inv(s) && Can(s, e)
    ensures Inv(After(s, e))
  {
    hide Inv, After, Can;
    match e
    case Begin(id, call) => BeginKeeps(s, id, call);
    case Acquire(id) => EnterKeeps(s, id);
    case JoinOld(id) => JoinKeeps(s, id);
    case Spawn(id, ok) => SpawnKeeps(s, id, ok);
    case LockPlatform(id) => LockKeeps(s, id);
    case WriteStop(id) => WriteStopKeeps(s, id);
    case Signal(id) => SignalKeeps(s, id);
    case Wake(id) => WakeKeeps(s, id);
    case Open(v) => OpenKeeps(s, v);
    case Poll(v) => PollKeeps(s, v);
    case Stream(g, step) => StreamKeeps(s, g, step);
    case Push(g) => PushKeeps(s, g);
    case ErrPush(g) => ErrPushKeeps(s, g);
    case Exit(g) => ExitKeeps(s, g);
  }

  // ---------------------------------------------------------------- runs of the system

  /** The state after a sequence of steps from the beginning, if each was possible in its turn. */
  function Reached(steps: seq<Step>): Option<State> {
    if steps == [] then Some(INITIAL)
    else
      match Reached(steps[..|steps| - 1])
      case None => None
      case Some(s) => var e := steps[|steps| - 1]; if Can(s, e) then Some(After(s, e)) else None
  }

  lemma {:induction false} EveryInterleavingIsOk(steps: seq<Step>)
    ensures Reached(steps).Some? ==> Inv(Reached(steps).value)
  {
    hide Inv, After, Can;
    if steps == [] {
      assert Inv(INITIAL) by { InitialOk(); }
    } else {
      EveryInterleavingIsOk(steps[..|steps| - 1]);
      var before := Reached(steps[..|steps| - 1]);
      if before.Some? && Can(before.value, steps[|steps| - 1]) {
        StepKeeps(before.value, steps[|steps| - 1]);
      }
    }
  }

  /** At no moment are two children not yet waited for. */
  lemma AtMostOneChildUnreaped(steps: seq<Step>, g: nat, h: nat)
    requires Reached(steps).Some?
    requires var c := Reached(steps).value.children; g < |c| && h < |c| && !c[g].pidGone && !c[h].pidGone
    ensures g == h
  {
    EveryInterleavingIsOk(steps);
    var s := Reached(steps).value;
    hide Reached, SessionOk, LinesOk, ViewsOk;
    assert ChildOk(s.children[g], g) && ChildOk(s.children[h], h);
  }

  /** A kill that signals hits the active run's own child, whose pid nobody has collected. */
  lemma SignalNeverHitsReapedPid(steps: seq<Step>, id: nat)
    requires Reached(steps).Some? && Can(Reached(steps).value, Signal(id))
    requires var s := Reached(steps).value; !s.children[s.At(id).g].reaped
    ensures
      var s := Reached(steps).value;
      && s.active && s.child == Some(s.At(id).g)
      && !s.children[s.At(id).g].pidGone && !s.children[s.At(id).g].destroyed
  {
    EveryInterleavingIsOk(steps);
    var s := Reached(steps).value;
    hide Reached, LinesOk, ViewsOk;
    var g := s.At(id).g;
    HolderOf(s, id);
    HoldsItsPlatform(s, id, g);
    assert ChildOk(s.children[g], g);
  }

  /**
    OnExit is called at most once per child, and only after every line the child wrote to either
    stream has been delivered and neither stream can bring another.
  */
  lemma ExitIsLastAndOnce(steps: seq<Step>, g: nat)
    requires Reached(steps).Some? && g < |Reached(steps).value.children|
    ensures
      var s := Reached(steps).value;
      var c := s.children[g];
      && c.exits <= 1
      && (c.destroyed ==> c.exits == 1)
      && (Can(s, Exit(g)) ==>
            && c.exits == 0 && s.active && s.child == Some(g) && !c.out.open && !c.err.open
            && Only(s.lines, false) == c.out.written && Only(s.lines, true) == c.err.written)
  {
    EveryInterleavingIsOk(steps);
    var s := Reached(steps).value;
    hide Reached, SessionOk, ViewsOk, Only;
    assert ChildOk(s.children[g], g);
    if Can(s, Exit(g)) {
      var c := s.children[g];
      assert Conserved(c, s.lines);
      assert Only(s.lines, false) + [] + [] == Only(s.lines, false);
      assert Only(s.lines, true) + [] + [] == Only(s.lines, true);
    }
  }

  /** The join inside `start`, with the session mutex held, only ever meets a reader on its way out. */
  lemma StartJoinsAFinishedReader(steps: seq<Step>, id: nat)
    requires Reached(steps).Some? && Reached(steps).value.At(id).StartJoin?
    ensures
      var s := Reached(steps).value;
      var g := s.At(id).previous;
      g < |s.children| && (Can(s, JoinOld(id)) || Can(s, Stream(g, Return)))
  {
    EveryInterleavingIsOk(steps);
    var s := Reached(steps).value;
    hide Reached, LinesOk, ViewsOk;
    HolderOf(s, id);
    JoinsItsChild(s, id);
  }

  /**
    A viewer that has stayed within one run holds exactly the lines before its position; once it
    is told the run is over it holds all of them, every line the child wrote.
  */
  lemma ViewerMissesNothing(steps: seq<Step>, v: nat)
    requires Reached(steps).Some? && v in Reached(steps).value.views
    requires var s := Reached(steps).value; s.views[v].run == s.run
    ensures
      var s := Reached(steps).value;
      var w := s.views[v];
      && w.next <= |s.lines| && w.got == s.lines[..w.next]
      && (w.ended ==> w.got == s.lines)
      && (w.ended && s.child.Some? ==>
            && s.child.value < |s.children|
            && var c := s.children[s.child.value];
            && Only(w.got, false) == c.out.written && Only(w.got, true) == c.err.written
            && !c.out.open && !c.err.open)
  {
    EveryInterleavingIsOk(steps);
    var s := Reached(steps).value;
    hide Reached, SessionOk, Only;
    var w := s.views[v];
    assert ViewOk(w, s.run, s.active, s.lines);
    if w.ended {
      assert s.lines[..|s.lines|] == s.lines;
      if s.child.Some? {
        var c := s.children[s.child.value];
        assert ChildOk(c, s.child.value);
        assert Only(s.lines, false) + [] + [] == Only(s.lines, false);
        assert Only(s.lines, true) + [] + [] == Only(s.lines, true);
      }
    }
  }

  // ---------------------------------------------------------------- who asked for what

  /** What request thread `id` last came in for. */
  function LastBegin(steps: seq<Step>, id: nat): Option<Call> {
    if steps == [] then None
    else
      var last := steps[|steps| - 1];
      if last.Begin? && last.id == id then Some(last.call) else LastBegin(steps[..|steps| - 1], id)
  }

  /** Where a thread is inside `start`, `stop` or `kill` belongs to the one of them it came in for. */
  predicate BelongsTo(at: Call, begun: Option<Call>) {
    match at
    case Idle => true
    case StartWait => begun == Some(StartWait)
    case StartJoin(_) => begun == Some(StartWait)
    case StartSpawn => begun == Some(StartWait)
    case StopWait => begun == Some(StopWait)
    case StopLock(_) => begun == Some(StopWait)
    case StopWrite(_) => begun == Some(StopWait)
    case KillWait => begun == Some(KillWait)
    case KillLock(_) => begun == Some(KillWait)
    case KillSignal(_) => begun == Some(KillWait)
    case KillAwait => begun == Some(KillWait)
  }

  lemma StepStaysWithin(s: State, e: Step, id: nat, begun: Option<Call>)
    requires Can(s, e) && BelongsTo(s.At(id), begun)
    ensures BelongsTo(After(s, e).At(id), if e.Begin? && e.id == id then Some(e.call) else begun)
  {}

  /** Only a kill signals and only a stop asks, whatever the interleaving. */
  lemma {:induction false} PhaseIsOfItsCall(steps: seq<Step>, id: nat)
    requires Reached(steps).Some?
    ensures BelongsTo(Reached(steps).value.At(id), LastBegin(steps, id))
  {
    hide Can, After, BelongsTo;
    if steps != [] {
      var before := steps[..|steps| - 1];
      PhaseIsOfItsCall(before, id);
      StepStaysWithin(Reached(before).value, steps[|steps| - 1], id, LastBegin(before, id));
    } else {
      NoPhaseYet(id);
    }
  }

  lemma NoPhaseYet(id: nat)
    ensures BelongsTo(INITIAL.At(id), None)
  {}

  /** On an active run with a child a stop or a kill goes for that child's lock, and on any other it does nothing. */
  lemma AcquiringEnters(s: State, id: nat)
    requires Can(s, Acquire(id))
    ensures
      var at, t := s.At(id), After(s, Acquire(id));
      && (at == StartWait && s.active ==> t == s.To(id, Idle))
      && (at == StartWait && !s.active ==>
            && t.session == Some(Request(id)) && t.active && t.lines == [] && t.run == s.run + 1
            && t.At(id) == (if s.child.Some? then StartJoin(s.child.value) else StartSpawn)
            && t.children == s.children && t.child == s.child && t.views == s.views)
      && (at != StartWait && !(s.active && s.child.Some?) ==> t == s.To(id, Idle))
      && (at != StartWait && s.active && s.child.Some? ==>
            && t.session == Some(Request(id)) && t.lines == s.lines && t.children == s.children && t.active
            && (at == StopWait ==> t.At(id) == StopLock(s.child.value))
            && (at == KillWait ==> t.At(id) == KillLock(s.child.value)))
  {}

  /** At its `n`-th step thread `id` signalled a child nobody had collected. */
  predicate Signals(steps: seq<Step>, id: nat, n: nat) {
    && n < |steps| && steps[n] == Signal(id) && Reached(steps[..n]).Some?
    && var s := Reached(steps[..n]).value;
      s.At(id).KillSignal? && s.At(id).g < |s.children| && !s.children[s.At(id).g].reaped
  }

  /** A kill waits for the exit only after a signal it sent itself. */
  lemma {:induction false} AwaitsWhatItSignalled(steps: seq<Step>, id: nat)
    requires Reached(steps).Some? && Reached(steps).value.At(id) == KillAwait
    ensures exists n: nat :: Signals(steps, id, n)
  {
    hide Can, After;
    if steps == [] {
      NoPhaseYet(id);
    } else {
      var k := |steps| - 1;
      var before, e := steps[..k], steps[k];
      var s := Reached(before).value;
      AwaitBegins(s, e, id);
      if s.At(id) == KillAwait {
        AwaitsWhatItSignalled(before, id);
        var n: nat :| Signals(before, id, n);
        assert steps[..n] == before[..n];
        assert Signals(steps, id, n);
      } else {
        assert Signals(steps, id, k);
      }
    }
  }

  lemma AwaitBegins(s: State, e: Step, id: nat)
    requires Can(s, e) && After(s, e).At(id) == KillAwait
    ensures s.At(id) == KillAwait || (e == Signal(id) && s.At(id).KillSignal? && s.At(id).g < |s.children|
                                      && !s.children[s.At(id).g].reaped)
  {}

  /** A signal that finds the child uncollected makes the kill wait for the exit, and one that does not ends it. */
  lemma SignalledExactly(s: State, id: nat)
    requires Can(s, Signal(id))
    ensures
      var g, t := s.At(id).g, After(s, Signal(id));
      && t.session.None? && t.children[g].platform.None?
      && t.At(id) == if s.children[g].reaped then Idle else KillAwait
  {}

  /** A poll leaves a viewer of the current run with every line there is, told it is over exactly when it is. */
  lemma PollCatchesUp(steps: seq<Step>, v: nat)
    requires Reached(steps).Some? && Can(Reached(steps).value, Poll(v))
    ensures
      var s := Reached(steps).value;
      var w := After(s, Poll(v)).views[v];
      && (w.ended <==> !s.active) && w.next == |s.lines|
      && (s.views[v].run == s.run ==> w.got == s.lines)
  {
    hide Reached, SessionOk, ChildrenOk, LinesOk, RunOk, After;
    EveryInterleavingIsOk(steps);
    var s := Reached(steps).value;
    assert ViewOk(s.views[v], s.run, s.active, s.lines);
    PolledView(s, v);
  }

  lemma PolledView(s: State, v: nat)
    requires Can(s, Poll(v)) && ViewOk(s.views[v], s.run, s.active, s.lines)
    ensures
      var w := After(s, Poll(v)).views[v];
      (w.ended <==> !s.active) && w.next == |s.lines| && (s.views[v].run == s.run ==> w.got == s.lines)
  {
    var w := s.views[v];
    if w.run == s.run && w.next < |s.lines| {
      assert s.lines[..w.next] + s.lines[w.next..] == s.lines;
    } else if w.run == s.run {
      assert s.lines[..w.next] + [] == s.lines;
    }
  }

  // ---------------------------------------------------------------- no thread is stuck

  /** Thread `a` can take its next step, or has none to take, or waits for the child itself. */
  predicate Moves(s: State, a: Actor) {
    match a
    case Request(id) =>
      (match s.At(id)
       case Idle => true
       case StartWait => Can(s, Acquire(id))
       case StopWait => Can(s, Acquire(id))
       case KillWait => Can(s, Acquire(id))
       case StartJoin(_) => Can(s, JoinOld(id))
       case StartSpawn => Can(s, Spawn(id, true)) && Can(s, Spawn(id, false))
       case StopLock(_) => Can(s, LockPlatform(id))
       case KillLock(_) => Can(s, LockPlatform(id))
       case StopWrite(_) => Can(s, WriteStop(id))
       case KillSignal(_) => Can(s, Signal(id))
       case KillAwait => Can(s, Wake(id)))
    case Reader(g) =>
      g < |s.children| ==>
      (match s.children[g].reader
       case Reading => Can(s, Stream(g, Read)) || Can(s, Stream(g, Eof)) || s.children[g].out.open
       case Pushing(_) => Can(s, Push(g))
       case ClosingStdin => Can(s, Stream(g, CloseStdin))
       case JoiningStderr => Can(s, Stream(g, JoinStderr))
       case Waiting => Can(s, Stream(g, Collect)) || s.children[g].alive
       case Marking => Can(s, Stream(g, MarkReaped))
       case Exiting => Can(s, Exit(g))
       case Returning => Can(s, Stream(g, Return))
       case Done => true)
    case StderrReader(g) =>
      g < |s.children| ==>
      (match s.children[g].stderrReader
       case ErrReading => Can(s, Stream(g, ErrRead)) || Can(s, Stream(g, ErrEof)) || s.children[g].err.open
       case ErrPushing(_) => Can(s, ErrPush(g))
       case ErrDone => true)
  }

  /** Who has what thread `a` wants next. */
  function Blocker(s: State, a: Actor): Actor {
    match a
    case Request(id) =>
      (match s.At(id)
       case StartJoin(g) => Reader(g)
       case StopLock(g) => PlatformHolder(s, g)
       case KillLock(g) => PlatformHolder(s, g)
       case _ => if s.session.Some? then s.session.value else a)
    case Reader(g) =>
      if g >= |s.children| then a
      else if s.children[g].reader.JoiningStderr? then StderrReader(g)
      else if s.children[g].reader.ClosingStdin? || s.children[g].reader.Waiting? then PlatformHolder(s, g)
      else if s.session.Some? then s.session.value else a
    case StderrReader(g) => if s.session.Some? then s.session.value else a
  }

  function PlatformHolder(s: State, g: nat): Actor {
    if g < |s.children| && s.children[g].platform.Some? then s.children[g].platform.value else Reader(g)
  }

  /** Every thread moves, or waits for the child, or waits for a thread that is or holds what it wants. */
  lemma EveryThreadMovesOrWaits(s: State, a: Actor)
    requires Inv(s)
    ensures Moves(s, a) || WaitsFor(s, a, Blocker(s, a))
  {
    match a
    case Request(id) => RequestMovesOrWaits(s, id);
    case Reader(g) => ReaderMovesOrWaits(s, g);
    case StderrReader(g) => StderrMovesOrWaits(s, g);
  }

  lemma RequestMovesOrWaits(s: State, id: nat)
    requires Inv(s)
    ensures Moves(s, Request(id)) || WaitsFor(s, Request(id), Blocker(s, Request(id)))
  {
    hide LinesOk, ViewsOk, ChildrenOk;
    var at := s.At(id);
    if at.HoldsSession() {
      HolderOf(s, id);
      if at.StartJoin? {
        JoinsItsChild(s, id);
      } else if !at.StartSpawn? {
        assert s.calls[id].UsesChild(at.g);
        assert s.child == Some(at.g) && at.g < |s.children|;
        assert at.StopLock? || at.KillLock? ==> Moves(s, Request(id)) || s.children[at.g].platform.Some?;
      }
    }
  }

  lemma ReaderMovesOrWaits(s: State, g: nat)
    requires Inv(s)
    ensures Moves(s, Reader(g)) || WaitsFor(s, Reader(g), Blocker(s, Reader(g)))
  {
    hide LinesOk, ViewsOk, SessionOk, RunOk, PlatformOk;
    if g < |s.children| {
      assert ChildOk(s.children[g], g);
    }
  }

  lemma StderrMovesOrWaits(s: State, g: nat)
    requires Inv(s)
    ensures Moves(s, StderrReader(g)) || WaitsFor(s, StderrReader(g), Blocker(s, StderrReader(g)))
  {
    hide Inv;
  }

  // ---------------------------------------------------------------- no wait goes round in a circle

  /** `a` cannot go on before `b` does: a mutex `b` holds, or a join of `b`. */
  predicate WaitsFor(s: State, a: Actor, b: Actor) {
    match a
    case Request(id) =>
      (match s.At(id)
       case StartJoin(g) => b == Reader(g) && g < |s.children| && !s.children[g].reader.Done?
       case StopLock(g) => g < |s.children| && s.children[g].platform == Some(b)
       case KillLock(g) => g < |s.children| && s.children[g].platform == Some(b)
       case c => c.WantsSession() && s.session == Some(b))
    case Reader(g) =>
      g < |s.children| &&
      (match s.children[g].reader
       case Pushing(_) => s.session == Some(b)
       case Exiting => s.session == Some(b)
       case ClosingStdin => s.children[g].platform == Some(b)
       case Waiting => s.children[g].platform == Some(b)
       case JoiningStderr => b == StderrReader(g) && !s.children[g].stderrReader.ErrDone?
       case _ => false)
    case StderrReader(g) => g < |s.children| && s.children[g].stderrReader.ErrPushing? && s.session == Some(b)
  }

  /** How far a thread is from the end of the longest chain of waits it can be in. */
  function Rank(s: State, a: Actor): nat {
    match a
    case Request(id) =>
      var c := s.At(id);
      if c.StartJoin? || c.StopLock? || c.KillLock? then 1 else if c.WantsSession() then 2 else 0
    case Reader(g) =>
      if g >= |s.children| then 0
      else
        (match s.children[g].reader
         case Pushing(_) => 2
         case Exiting => 2
         case ClosingStdin => 1
         case Waiting => 1
         case JoiningStderr => 3
         case _ => 0)
    case StderrReader(g) => if g < |s.children| && s.children[g].stderrReader.ErrPushing? then 2 else 0
  }

  lemma WaitsDescend(s: State, a: Actor, b: Actor)
    requires Inv(s) && WaitsFor(s, a, b)
    ensures Rank(s, b) < Rank(s, a)
  {
    hide LinesOk, ViewsOk;
    forall g | 0 <= g < |s.children| ensures ChildOk(s.children[g], g) && PlatformOk(s.children[g], g, s.calls) {}
    if s.session.Some? {
      HolderOf(s, s.session.value.id);
    }
    match a
    case Request(id) =>
      if s.At(id).HoldsSession() {
        HolderOf(s, id);
      }
    case _ =>
  }

  /** Whoever waits, waits in the end for a thread that moves, or that waits for the child alone. */
  lemma {:induction false} WaitEndsAtAMover(s: State, a: Actor) returns (mover: Actor)
    requires Inv(s)
    ensures Moves(s, mover) && (mover == a || Rank(s, mover) < Rank(s, a))
    decreases Rank(s, a)
  {
    hide Inv, Moves, WaitsFor, Rank, Blocker;
    mover := a;
    EveryThreadMovesOrWaits(s, a);
    if !Moves(s, a) {
      WaitsDescend(s, a, Blocker(s, a));
      mover := WaitEndsAtAMover(s, Blocker(s, a));
    }
  }

  ghost predicate WaitChain(s: State, chain: seq<Actor>) {
    forall i :: 0 < i < |chain| ==> WaitsFor(s, chain[i - 1], chain[i])
  }

  lemma {:induction false} ChainDescends(s: State, chain: seq<Actor>)
    requires Inv(s) && WaitChain(s, chain) && |chain| > 1
    ensures Rank(s, chain[|chain| - 1]) < Rank(s, chain[0])
  {
    hide Inv, WaitsFor, Rank;
    var n := |chain| - 1;
    WaitsDescend(s, chain[n - 1], chain[n]);
    if n > 1 {
      ChainDescends(s, chain[..n]);
    }
  }

  /** Deadlock is impossible: no reachable state has a cycle of lock and join waits. */
  lemma NoCycleOfWaits(steps: seq<Step>, chain: seq<Actor>)
    requires Reached(steps).Some? && |chain| > 1 && WaitChain(Reached(steps).value, chain)
    ensures chain[0] != chain[|chain| - 1]
  {
    EveryInterleavingIsOk(steps);
    ChainDescends(Reached(steps).value, chain);
  }
}
