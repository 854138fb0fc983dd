/** The state of the event loop, its invariant, and what each step does to it. */
module EventState {
  import opened Wrappers

  /** An address that malloc hands out for a command. It may be handed out again after free. */
  type Handle = nat

  datatype Id = ChildId(pid: nat) | CommandId(command: Handle, pid: nat)

  datatype Status = Exited(code: int) | Signaled(number: int)

  datatype Signal = NoSignal | SigTerm | SigKill

  datatype KillStatus = Terminated | Termed | Killed | SignalOther

  /** What a command's callback is told. */
  datatype Call = Call(status: Status, killed: KillStatus, out: string, err: string)

  /** A watched child. The serial numbers the registrations and is used in specifications only. */
  datatype Child = Child(pid: nat, owner: Option<Handle>, status: Status, ghost serial: nat)

  /** A command. The flags input, output and error say that the buffer is still open. */
  datatype Command = Command(pid: nat, child: Id, running: bool, status: Status, signal: Signal,
                             input: bool, output: bool, error: bool, out: string, err: string,
                             ghost serial: nat)

  /** All that ever happened to one registration. */
  datatype Record = Record(id: Id, out: Option<string>, err: Option<string>, signal: Signal,
                           exit: Option<Status>, reported: bool, posted: nat, calls: seq<Call>)

  /** The tables and the queue, the children not yet waited for, and what the specification remembers. */
  datatype World = World(children: seq<Child>, commands: seq<Handle>, memory: map<Handle, Command>,
                         pending: seq<Id>, alive: set<nat>, calling: set<Handle>, history: seq<Record>)

  function KillStatusOf(signal: Signal, status: Status): KillStatus {
    match signal
    case SigTerm => Termed
    case SigKill => Killed
    case NoSignal => if status.Signaled? then SignalOther else Terminated
  }

  /** Both outputs are gathered and the child is known to have ended. */
  predicate Complete(c: Command) {
    !c.output && !c.error && !c.running
  }

  /** The end of stdout, the end of stderr and the end of the child have happened. */
  predicate Happened(r: Record) {
    r.exit.Some? && r.out.Some? && r.err.Some?
  }

  /** What the callback of a registration must be told. */
  function Report(r: Record): Call
    requires Happened(r)
  {
    Call(r.exit.value, KillStatusOf(r.signal, r.exit.value), r.out.value, r.err.value)
  }

  /** The registration is over: the child was reported, and a command was called back, once, with the truth. */
  predicate Settled(r: Record) {
    && r.exit.Some? && r.reported
    && (r.id.CommandId? ==> Happened(r) && r.posted == 1 && r.calls == [Report(r)])
    && (r.id.ChildId? ==> r.posted == 0 && r.calls == [])
  }

  predicate Tracked(children: seq<Child>, pid: nat) {
    exists i :: 0 <= i < |children| && children[i].pid == pid
  }

  /** No entry appears twice, and the command table lists exactly the allocated commands. */
  ghost predicate TablesOk(w: World) {
    && (forall i, j :: 0 <= i < j < |w.commands| ==> w.commands[i] != w.commands[j])
    && (forall h :: h in w.commands <==> h in w.memory)
    && (forall i, j :: 0 <= i < j < |w.children| ==> w.children[i].pid != w.children[j].pid)
    && (forall i, j :: 0 <= i < j < |w.children| ==> w.children[i].serial != w.children[j].serial)
    && (forall i, j :: 0 <= i < j < |w.pending| ==> w.pending[i] != w.pending[j])
    && w.calling <= w.memory.Keys
  }

  /** A child is reaped exactly when its report is queued; a child of a command serves a running command. */
  ghost predicate ChildOk(w: World, c: Child) {
    && c.serial < |w.history|
    && var r := w.history[c.serial];
    && !r.reported
    && (c.pid in w.alive ==> r.exit == None && ChildId(c.pid) !in w.pending)
    && (c.pid !in w.alive ==> r.exit == Some(c.status) && ChildId(c.pid) in w.pending)
    && (c.owner.None? ==> r.id == ChildId(c.pid) && r.posted == 0 && r.calls == [])
    && (c.owner.Some? ==>
          && c.owner.value in w.memory
          && var d := w.memory[c.owner.value];
          d.running && d.pid == c.pid && d.serial == c.serial)
  }

  predicate Serves(children: seq<Child>, i: nat, h: Handle) {
    i < |children| && children[i].owner == Some(h)
  }

  /** The fields of a command tell its history; it is queued exactly when complete and not yet called. */
  ghost predicate CommandOk(w: World, h: Handle) {
    && h in w.memory
    && var c := w.memory[h];
    && c.child == ChildId(c.pid)
    && c.serial < |w.history|
    && (c.running ==> exists i: nat :: Serves(w.children, i, h))
    && var r := w.history[c.serial];
    && r.id == CommandId(h, c.pid)
    && r.out == (if c.output then None else Some(c.out))
    && r.err == (if c.error then None else Some(c.err))
    && r.signal == c.signal
    && r.reported == !c.running
    && (!c.running ==> r.exit == Some(c.status))
    && r.posted == (if Complete(c) then 1 else 0)
    && (h in w.calling ==> Complete(c) && r.calls == [Report(r)])
    && (h !in w.calling ==> r.calls == [])
    && (CommandId(h, c.pid) in w.pending <==> Complete(c) && h !in w.calling)
  }

  /** Whatever is queued is still in its table. */
  predicate PendingOk(w: World, id: Id) {
    match id
    case ChildId(pid) => Tracked(w.children, pid) && pid !in w.alive
    case CommandId(h, pid) => h in w.memory && w.memory[h].pid == pid
  }

  /** Entry i of the table is a child watched for its own sake, registered as n. */
  ghost predicate WatchedAs(children: seq<Child>, i: nat, n: nat) {
    i < |children| && children[i].owner.None? && children[i].serial == n
  }

  ghost predicate Held(w: World, n: nat) {
    (exists h :: h in w.memory && w.memory[h].serial == n) || (exists i: nat :: WatchedAs(w.children, i, n))
  }

  /** The invariant of the event loop. */
  ghost predicate Valid(w: World) {
    && TablesOk(w)
    && (forall c :: c in w.children ==> ChildOk(w, c))
    && (forall h :: h in w.memory ==> CommandOk(w, h))
    && (forall id :: id in w.pending ==> PendingOk(w, id))
    && (forall n: nat :: n < |w.history| ==> Settled(w.history[n]) || Held(w, n))
  }

  // ---------------------------------------------------------------------------------------------
  // What the invariant says
  // ---------------------------------------------------------------------------------------------

  /** Nobody is called twice, or before all three things have happened, or told anything else. */
  lemma CalledAtMostOnceAndLate(w: World, n: nat)
    requires Valid(w) && n < |w.history|
    ensures w.history[n].posted <= 1 && |w.history[n].calls| <= w.history[n].posted
    ensures w.history[n].calls != [] ==> Happened(w.history[n]) && w.history[n].calls == [Report(w.history[n])]
    ensures w.history[n].posted == 1 ==> Happened(w.history[n])
  {
    if !Settled(w.history[n]) {
      if h :| h in w.memory && w.memory[h].serial == n {
        assert CommandOk(w, h);
      } else {
        var i: nat :| WatchedAs(w.children, i, n);
        assert ChildOk(w, w.children[i]);
      }
    }
  }

  lemma RunningIsAwaited(w: World, h: Handle)
    requires Valid(w) && h in w.memory && w.memory[h].running
    ensures CommandOk(w, h)
    ensures w.pending == [] ==> w.history[w.memory[h].serial].exit == None
  {
    assert CommandOk(w, h);
    var i: nat :| Serves(w.children, i, h);
    assert ChildOk(w, w.children[i]);
  }

  lemma WatchedIsChild(w: World, n: nat)
    requires Valid(w) && n < |w.history|
    ensures (exists i: nat :: WatchedAs(w.children, i, n)) ==> w.history[n].id.ChildId?
  {
    if i: nat :| WatchedAs(w.children, i, n) {
      assert ChildOk(w, w.children[i]);
    }
  }

  /** Once the queue is empty, every command to which all three things happened has been called back. */
  lemma NobodyIsForgotten(w: World, n: nat)
    requires Valid(w) && w.pending == [] && n < |w.history|
    requires Happened(w.history[n]) && w.history[n].id.CommandId?
    ensures w.history[n].calls == [Report(w.history[n])]
  {
    WatchedIsChild(w, n);
    if !Settled(w.history[n]) {
      assert Held(w, n);
      var h :| h in w.memory && w.memory[h].serial == n;
      assert CommandOk(w, h);
      if w.memory[h].running {
        RunningIsAwaited(w, h);
      }
    }
  }

  // ---------------------------------------------------------------------------------------------
  // How histories grow
  // ---------------------------------------------------------------------------------------------

  ghost predicate Grows(r: Record, s: Record) {
    && s.id == r.id
    && (r.out.Some? ==> s.out == r.out)
    && (r.err.Some? ==> s.err == r.err)
    && (r.exit.Some? ==> s.exit == r.exit)
    && (r.reported ==> s.reported)
    && r.posted <= s.posted
    && r.calls <= s.calls
    && (Settled(r) ==> s == r)
  }

  /** Nothing that happened is undone, and the commands in the middle of their callback stay as they are. */
  ghost predicate Evolves(w: World, v: World) {
    && |w.history| <= |v.history|
    && (forall n :: 0 <= n < |w.history| ==> Grows(w.history[n], v.history[n]))
    && v.calling == w.calling
    && (forall h :: h in w.calling && h in w.memory ==>
          h in v.memory && v.memory[h] == w.memory[h].(input := v.memory[h].input))
  }

  lemma GrowsOn(r: Record, s: Record, t: Record)
    requires Grows(r, s) && Grows(s, t)
    ensures Grows(r, t)
  {
  }

  lemma EvolvesOn(w: World, v: World, u: World)
    requires Evolves(w, v) && Evolves(v, u)
    ensures Evolves(w, u)
  {
    forall n | 0 <= n < |w.history| ensures Grows(w.history[n], u.history[n]) {
      GrowsOn(w.history[n], v.history[n], u.history[n]);
    }
  }

  // ---------------------------------------------------------------------------------------------
  // Steps
  // ---------------------------------------------------------------------------------------------

  /** The world with another state of command h, and with its record. */
  ghost function With(w: World, h: Handle, c: Command, r: Record): World
    requires c.serial < |w.history|
  {
    w.(memory := w.memory[h := c], history := w.history[c.serial := r])
  }

  /** The check for completeness: the command is queued if all is there. */
  ghost function Checked(w: World, h: Handle): World
    requires h in w.memory && w.memory[h].serial < |w.history|
  {
    var c := w.memory[h];
    if !Complete(c) then w else
      w.(pending := w.pending + [CommandId(h, c.pid)],
         history := w.history[c.serial := w.history[c.serial].(posted := w.history[c.serial].posted + 1)])
  }

  ghost function OutputEnded(w: World, h: Handle, data: string): World
    requires CommandOk(w, h)
  {
    var c := w.memory[h];
    Checked(With(w, h, c.(output := false, out := data), w.history[c.serial].(out := Some(data))), h)
  }

  ghost function ErrorEnded(w: World, h: Handle, data: string): World
    requires CommandOk(w, h)
  {
    var c := w.memory[h];
    Checked(With(w, h, c.(error := false, err := data), w.history[c.serial].(err := Some(data))), h)
  }

  ghost function InputEnded(w: World, h: Handle): World
    requires CommandOk(w, h)
  {
    With(w, h, w.memory[h].(input := false), w.history[w.memory[h].serial])
  }

  ghost function Signalled(w: World, h: Handle, signal: Signal): World
    requires CommandOk(w, h)
  {
    var c := w.memory[h];
    if !c.running then w else
      With(w, h, c.(signal := signal), w.history[c.serial].(signal := signal))
  }

  /** Child i was waited for. */
  ghost function Reaped(w: World, i: nat, status: Status): World
    requires i < |w.children| && w.children[i].serial < |w.history|
  {
    var c := w.children[i];
    w.(children := w.children[i := c.(status := status)], alive := w.alive - {c.pid},
       pending := w.pending + [ChildId(c.pid)],
       history := w.history[c.serial := w.history[c.serial].(exit := Some(status))])
  }

  /** The two worlds differ in one command, in its record and possibly in its being queued. */
  ghost predicate Moved(w: World, v: World, h: Handle) {
    && h in w.memory && h in v.memory
    && v.children == w.children && v.commands == w.commands && v.alive == w.alive
    && v.memory == w.memory[h := v.memory[h]] && v.calling + {h} == w.calling + {h}
    && v.calling <= v.memory.Keys
    && var c, d := w.memory[h], v.memory[h];
    && d.pid == c.pid && d.running == c.running && d.serial == c.serial
    && c.serial < |w.history| == |v.history|
    && (forall m :: 0 <= m < |w.history| && m != c.serial ==> v.history[m] == w.history[m])
    && v.history[c.serial].exit == w.history[c.serial].exit
    && (v.pending == w.pending
        || (v.pending == w.pending + [CommandId(h, c.pid)] && CommandId(h, c.pid) !in w.pending)
        || (w.pending != [] && w.pending[0] == CommandId(h, c.pid) && v.pending == w.pending[1..]))
  }

  lemma ChildStays(w: World, v: World, h: Handle, c: Child)
    requires ChildOk(w, c) && CommandOk(w, h) && Moved(w, v, h) && CommandOk(v, h)
    ensures ChildOk(v, c)
  {
  }

  lemma CommandStays(w: World, v: World, h: Handle, g: Handle)
    requires CommandOk(w, g) && CommandOk(w, h) && Moved(w, v, h) && CommandOk(v, h)
    ensures CommandOk(v, g)
  {
  }

  lemma PendingStays(w: World, v: World, h: Handle, id: Id)
    requires id in w.pending ==> PendingOk(w, id)
    requires Moved(w, v, h) && CommandOk(v, h) && id in v.pending
    ensures PendingOk(v, id)
  {
  }

  lemma HeldStays(w: World, v: World, h: Handle, n: nat)
    requires Moved(w, v, h) && Held(w, n)
    ensures Held(v, n)
  {
    if g :| g in w.memory && w.memory[g].serial == n {
      assert g in v.memory && v.memory[g].serial == n;
    }
  }

  lemma TablesStay(w: World, v: World, h: Handle)
    requires TablesOk(w) && Moved(w, v, h)
    ensures TablesOk(v)
  {
  }

  /** A step of one command keeps the invariant if its record and its place in the queue are right again. */
  lemma CommandMoves(w: World, v: World, h: Handle)
    requires Valid(w) && Moved(w, v, h) && CommandOk(v, h)
    ensures Valid(v)
  {
    hide ChildOk, CommandOk, PendingOk, Held, Settled, TablesOk, Tracked;
    assert CommandOk(w, h);
    TablesStay(w, v, h);
    forall c | c in v.children ensures ChildOk(v, c) {
      ChildStays(w, v, h, c);
    }
    forall g | g in v.memory ensures CommandOk(v, g) {
      CommandStays(w, v, h, g);
    }
    forall id | id in v.pending ensures PendingOk(v, id) {
      PendingStays(w, v, h, id);
    }
    forall n: nat | n < |v.history| ensures Settled(v.history[n]) || Held(v, n) {
      if n == w.memory[h].serial {
        HeldStays(w, v, h, n) by { assert Held(w, n) by { HeldBy(w, h); } }
      } else if Held(w, n) {
        HeldStays(w, v, h, n);
      }
    }
  }

  lemma HeldBy(w: World, h: Handle)
    requires h in w.memory
    ensures Held(w, w.memory[h].serial)
  {
  }

  lemma OutputMoves(w: World, h: Handle, data: string)
    requires CommandOk(w, h) && w.calling <= w.memory.Keys && w.memory[h].output
    ensures Moved(w, OutputEnded(w, h, data), h) && CommandOk(OutputEnded(w, h, data), h)
    ensures Evolves(w, OutputEnded(w, h, data))
  {
  }

  lemma OutputKeeps(w: World, h: Handle, data: string)
    requires Valid(w) && CommandOk(w, h) && w.memory[h].output
    ensures Valid(OutputEnded(w, h, data)) && Evolves(w, OutputEnded(w, h, data))
  {
    hide CommandOk, Moved, Evolves, OutputEnded;
    OutputMoves(w, h, data);
    CommandMoves(w, OutputEnded(w, h, data), h);
  }

  lemma ErrorMoves(w: World, h: Handle, data: string)
    requires CommandOk(w, h) && w.calling <= w.memory.Keys && w.memory[h].error
    ensures Moved(w, ErrorEnded(w, h, data), h) && CommandOk(ErrorEnded(w, h, data), h)
    ensures Evolves(w, ErrorEnded(w, h, data))
  {
  }

  lemma ErrorKeeps(w: World, h: Handle, data: string)
    requires Valid(w) && CommandOk(w, h) && w.memory[h].error
    ensures Valid(ErrorEnded(w, h, data)) && Evolves(w, ErrorEnded(w, h, data))
  {
    hide CommandOk, Moved, Evolves, ErrorEnded;
    ErrorMoves(w, h, data);
    CommandMoves(w, ErrorEnded(w, h, data), h);
  }

  lemma InputMoves(w: World, h: Handle)
    requires CommandOk(w, h) && w.calling <= w.memory.Keys
    ensures Moved(w, InputEnded(w, h), h) && CommandOk(InputEnded(w, h), h)
    ensures Evolves(w, InputEnded(w, h))
  {
  }

  lemma InputKeeps(w: World, h: Handle)
    requires Valid(w) && CommandOk(w, h)
    ensures Valid(InputEnded(w, h)) && Evolves(w, InputEnded(w, h))
  {
    hide CommandOk, Moved, Evolves, InputEnded;
    InputMoves(w, h);
    CommandMoves(w, InputEnded(w, h), h);
  }

  lemma SignalMoves(w: World, h: Handle, signal: Signal)
    requires CommandOk(w, h) && w.calling <= w.memory.Keys
    ensures Moved(w, Signalled(w, h, signal), h) && CommandOk(Signalled(w, h, signal), h)
    ensures Evolves(w, Signalled(w, h, signal))
  {
  }

  lemma SignalKeeps(w: World, h: Handle, signal: Signal)
    requires Valid(w) && CommandOk(w, h)
    ensures Valid(Signalled(w, h, signal)) && Evolves(w, Signalled(w, h, signal))
  {
    hide CommandOk, Moved, Evolves, Signalled;
    SignalMoves(w, h, signal);
    CommandMoves(w, Signalled(w, h, signal), h);
  }

  lemma ChildAt(w: World, i: nat)
    requires Valid(w) && i < |w.children|
    ensures ChildOk(w, w.children[i])
  {
  }

  lemma ReapTables(w: World, i: nat, status: Status)
    requires TablesOk(w) && i < |w.children| && ChildOk(w, w.children[i]) && w.children[i].pid in w.alive
    ensures TablesOk(Reaped(w, i, status))
  {
  }

  lemma ReapChild(w: World, i: nat, status: Status, j: nat)
    requires TablesOk(w) && i < |w.children| && ChildOk(w, w.children[i]) && w.children[i].pid in w.alive
    requires j < |w.children| && ChildOk(w, w.children[j])
    ensures ChildOk(Reaped(w, i, status), Reaped(w, i, status).children[j])
  {
    assert j != i ==> w.children[j].pid != w.children[i].pid && w.children[j].serial != w.children[i].serial;
  }

  lemma ReapCommand(w: World, i: nat, status: Status, h: Handle)
    requires i < |w.children| && ChildOk(w, w.children[i]) && w.children[i].pid in w.alive && CommandOk(w, h)
    requires w.children[i].owner.Some? ==> CommandOk(w, w.children[i].owner.value)
    ensures CommandOk(Reaped(w, i, status), h)
  {
    var v := Reaped(w, i, status);
    if w.memory[h].running {
      var k: nat :| Serves(w.children, k, h);
      assert Serves(v.children, k, h);
    }
  }

  lemma ReapHeld(w: World, i: nat, status: Status, n: nat)
    requires i < |w.children| && ChildOk(w, w.children[i]) && Held(w, n)
    ensures Held(Reaped(w, i, status), n)
  {
    var v := Reaped(w, i, status);
    if k: nat :| WatchedAs(w.children, k, n) {
      assert WatchedAs(v.children, k, n);
    }
  }

  lemma ReapPending(w: World, i: nat, status: Status, id: Id)
    requires i < |w.children| && ChildOk(w, w.children[i]) && id in Reaped(w, i, status).pending
    requires id in w.pending ==> PendingOk(w, id)
    ensures PendingOk(Reaped(w, i, status), id)
  {
    var v := Reaped(w, i, status);
    assert v.children[i].pid == w.children[i].pid;
    if id in w.pending && id.ChildId? {
      var k :| 0 <= k < |w.children| && w.children[k].pid == id.pid;
      assert v.children[k].pid == id.pid;
    }
  }

  lemma ReapKeeps(w: World, i: nat, status: Status)
    requires Valid(w) && i < |w.children| && ChildOk(w, w.children[i]) && w.children[i].pid in w.alive
    ensures Valid(Reaped(w, i, status)) && Evolves(w, Reaped(w, i, status))
  {
    var v := Reaped(w, i, status);
    assert Evolves(w, v);
    hide CommandOk, PendingOk, Held, Settled, TablesOk;
    ReapTables(w, i, status);
    forall c | c in v.children ensures ChildOk(v, c) {
      var j: nat :| j < |v.children| && v.children[j] == c;
      ChildAt(w, j);
      ReapChild(w, i, status, j);
    }
    forall h | h in v.memory ensures CommandOk(v, h) {
      ReapCommand(w, i, status, h);
    }
    forall id | id in v.pending ensures PendingOk(v, id) {
      ReapPending(w, i, status, id);
    }
    forall n: nat | n < |v.history| ensures Settled(v.history[n]) || Held(v, n) {
      if n == w.children[i].serial {
        SerialIsHeld(w, i);
      }
      if Held(w, n) {
        ReapHeld(w, i, status, n);
      }
    }
  }

  lemma SerialIsHeld(w: World, i: nat)
    requires i < |w.children| && ChildOk(w, w.children[i])
    ensures Held(w, w.children[i].serial)
  {
    if w.children[i].owner.None? {
      assert WatchedAs(w.children, i, w.children[i].serial);
    }
  }

  // ---------------------------------------------------------------------------------------------
  // Registering
  // ---------------------------------------------------------------------------------------------

  ghost function Watched(w: World, pid: nat): World {
    w.(children := w.children + [Child(pid, None, Exited(0), |w.history|)], alive := w.alive + {pid},
       history := w.history + [Record(ChildId(pid), None, None, NoSignal, None, false, 0, [])])
  }

  ghost function Launched(w: World, h: Handle, pid: nat, input: bool): World {
    var n := |w.history|;
    w.(children := w.children + [Child(pid, Some(h), Exited(0), n)], alive := w.alive + {pid},
       commands := w.commands + [h],
       memory := w.memory[h := Command(pid, ChildId(pid), true, Exited(0), NoSignal, input, true, true, "", "", n)],
       history := w.history + [Record(CommandId(h, pid), None, None, NoSignal, None, false, 0, [])])
  }

  /** Two worlds that differ by one more registration. */
  ghost predicate Registered(w: World, v: World, pid: nat) {
    && !Tracked(w.children, pid) && pid !in w.alive
    && v.pending == w.pending && v.calling == w.calling && v.alive == w.alive + {pid}
    && |v.children| == |w.children| + 1 && v.children[..|w.children|] == w.children
    && v.children[|w.children|].pid == pid && v.children[|w.children|].serial == |w.history|
    && |v.history| == |w.history| + 1 && v.history[..|w.history|] == w.history
    && w.memory.Keys <= v.memory.Keys
    && (forall h :: h in w.memory ==> v.memory[h] == w.memory[h])
  }

  lemma RegisterChild(w: World, v: World, pid: nat, i: nat)
    requires Registered(w, v, pid) && i < |w.children| && ChildOk(w, w.children[i])
    ensures ChildOk(v, w.children[i])
  {
    assert w.children[i].pid != pid;
  }

  lemma RegisterCommand(w: World, v: World, pid: nat, h: Handle)
    requires Registered(w, v, pid) && CommandOk(w, h)
    ensures CommandOk(v, h)
  {
    if w.memory[h].running {
      var k: nat :| Serves(w.children, k, h);
      assert v.children[k] == v.children[..|w.children|][k];
      assert Serves(v.children, k, h);
    }
  }

  lemma RegisterPending(w: World, v: World, pid: nat, id: Id)
    requires Registered(w, v, pid) && PendingOk(w, id)
    ensures PendingOk(v, id)
  {
    if id.ChildId? {
      var k :| 0 <= k < |w.children| && w.children[k].pid == id.pid;
      assert v.children[k] == v.children[..|w.children|][k];
      assert v.children[k].pid == id.pid;
    }
  }

  lemma RegisterHeld(w: World, v: World, pid: nat, n: nat)
    requires Registered(w, v, pid) && Held(w, n)
    ensures Held(v, n)
  {
    if k: nat :| WatchedAs(w.children, k, n) {
      assert v.children[k] == v.children[..|w.children|][k];
      assert WatchedAs(v.children, k, n);
    } else {
      var h :| h in w.memory && w.memory[h].serial == n;
      assert h in v.memory && v.memory[h].serial == n;
    }
  }

  lemma RegisterEvolves(w: World, v: World, pid: nat)
    requires Registered(w, v, pid)
    ensures Evolves(w, v)
  {
    forall n | 0 <= n < |w.history| ensures Grows(w.history[n], v.history[n]) {
      assert v.history[n] == v.history[..|w.history|][n];
    }
  }

  /** Once the new entries are right, all of it is. */
  lemma RegisterKeeps(w: World, v: World, pid: nat)
    requires Valid(w) && Registered(w, v, pid) && TablesOk(v) && ChildOk(v, v.children[|w.children|])
    requires forall h :: h in v.memory && h !in w.memory ==> CommandOk(v, h)
    ensures Valid(v)
  {
    hide CommandOk, ChildOk, PendingOk, Held, Settled, TablesOk;
    forall c | c in v.children ensures ChildOk(v, c) {
      var j: nat :| j < |v.children| && v.children[j] == c;
      if j < |w.children| {
        assert c == v.children[..|w.children|][j];
        ChildAt(w, j);
        RegisterChild(w, v, pid, j);
      }
    }
    forall h | h in v.memory ensures CommandOk(v, h) {
      if h in w.memory {
        RegisterCommand(w, v, pid, h);
      }
    }
    forall id | id in v.pending ensures PendingOk(v, id) {
      RegisterPending(w, v, pid, id);
    }
    forall n: nat | n < |v.history| ensures Settled(v.history[n]) || Held(v, n) {
      if n == |w.history| {
        SerialIsHeld(v, |w.children|);
      } else {
        assert v.history[n] == v.history[..|w.history|][n];
        if Held(w, n) {
          RegisterHeld(w, v, pid, n);
        }
      }
    }
  }

  lemma SerialsAreOld(w: World)
    requires Valid(w)
    ensures forall i :: 0 <= i < |w.children| ==> w.children[i].serial < |w.history|
    ensures forall i :: 0 <= i < |w.children| && w.children[i].owner.Some? ==> w.children[i].owner.value in w.memory
    ensures forall id :: id in w.pending && id.ChildId? ==> Tracked(w.children, id.pid)
    ensures forall id :: id in w.pending && id.CommandId? ==> id.command in w.memory
  {
    forall i | 0 <= i < |w.children| ensures ChildOk(w, w.children[i]) {
      ChildAt(w, i);
    }
    forall id | id in w.pending ensures PendingOk(w, id) {
    }
  }

  lemma WatchKeeps(w: World, pid: nat)
    requires Valid(w) && !Tracked(w.children, pid) && pid !in w.alive
    ensures Valid(Watched(w, pid)) && Evolves(w, Watched(w, pid))
  {
    var v := Watched(w, pid);
    SerialsAreOld(w);
    assert Registered(w, v, pid);
    RegisterEvolves(w, v, pid);
    RegisterKeeps(w, v, pid);
  }

  lemma LaunchKeeps(w: World, h: Handle, pid: nat, input: bool)
    requires Valid(w) && !Tracked(w.children, pid) && pid !in w.alive && h !in w.memory
    ensures Valid(Launched(w, h, pid, input)) && Evolves(w, Launched(w, h, pid, input))
  {
    var v := Launched(w, h, pid, input);
    SerialsAreOld(w);
    assert Registered(w, v, pid);
    RegisterEvolves(w, v, pid);
    assert Serves(v.children, |w.children|, h);
    assert CommandOk(v, h);
    RegisterKeeps(w, v, pid);
  }

  /** Why a pid may not be watched twice: once a child was waited for, the system may use its pid again, but until its
      report is delivered the table still has it, and watching the new child runs into the assertion. */
  lemma PidStaysWatched(w: World, h: Handle, pid: nat, input: bool, status: Status)
    requires Valid(w) && !Tracked(w.children, pid) && pid !in w.alive && h !in w.memory
    ensures var v := Reaped(Launched(w, h, pid, input), |w.children|, status);
      Valid(v) && pid !in v.alive && Tracked(v.children, pid)
  {
    hide Valid;
    var u := Launched(w, h, pid, input);
    LaunchKeeps(w, h, pid, input);
    ChildAt(u, |w.children|);
    ReapKeeps(u, |w.children|, status);
    var v := Reaped(u, |w.children|, status);
    assert v.children[|w.children|].pid == pid;
  }

  /** A pid that no process has can be watched exactly if no report about it is waiting to be delivered. */
  lemma WatchableIff(w: World, pid: nat)
    requires Valid(w) && pid !in w.alive
    ensures !Tracked(w.children, pid) <==> ChildId(pid) !in w.pending
  {
    hide Valid;
    PendingAt(w, ChildId(pid));
    forall i | 0 <= i < |w.children| && w.children[i].pid == pid
      ensures ChildId(pid) in w.pending
    {
      ChildAt(w, i);
    }
  }

  lemma PendingAt(w: World, id: Id)
    requires Valid(w)
    ensures id in w.pending ==> PendingOk(w, id)
  {
  }

  // ---------------------------------------------------------------------------------------------
  // Delivering what was postponed
  // ---------------------------------------------------------------------------------------------

  /** Entry i is replaced by the last one, and the last one is dropped. */
  function SwapOut<T>(s: seq<T>, i: nat): (t: seq<T>)
    requires i < |s|
  {
    s[i := s[|s| - 1]][..|s| - 1]
  }

  lemma SwapOutKeepsOthers<T>(s: seq<T>, i: nat, j: nat) returns (k: nat)
    requires i < |s| && j < |s| && i != j
    ensures k < |s| - 1 && SwapOut(s, i)[k] == s[j]
  {
    k := if j == |s| - 1 then i else j;
  }

  lemma SwapOutTakesOthers<T>(s: seq<T>, i: nat, k: nat) returns (j: nat)
    requires i < |s| && k < |s| - 1
    ensures j < |s| && j != i && SwapOut(s, i)[k] == s[j]
  {
    j := if k == i then |s| - 1 else k;
  }

  /** The first entry of the queue is the report of child i: its callback runs, and it leaves the table. */
  ghost function Delivered(w: World, i: nat): World
    requires i < |w.children| && w.pending != [] && ChildOk(w, w.children[i])
    requires w.children[i].owner.Some? ==> CommandOk(w, w.children[i].owner.value)
  {
    var c := w.children[i];
    var r := w.history[c.serial].(reported := true);
    var t := w.(pending := w.pending[1..], history := w.history[c.serial := r]);
    var u :=
      match c.owner
      case None => t
      case Some(h) => Checked(With(t, h, t.memory[h].(running := false, status := c.status), r), h);
    u.(children := SwapOut(w.children, i))
  }

  ghost predicate AtHead(w: World, i: nat) {
    && i < |w.children| && w.pending != [] && w.pending[0] == ChildId(w.children[i].pid)
    && ChildOk(w, w.children[i])
    && (w.children[i].owner.Some? ==> CommandOk(w, w.children[i].owner.value))
  }

  lemma DeliverTables(w: World, i: nat)
    requires TablesOk(w) && AtHead(w, i)
    ensures TablesOk(Delivered(w, i))
  {
  }

  lemma OtherChild(w: World, i: nat, j: nat)
    requires TablesOk(w) && i < |w.children| && j < |w.children| && i != j
    ensures w.children[j].pid != w.children[i].pid && w.children[j].serial != w.children[i].serial
    ensures w.pending != [] ==> forall id :: id in w.pending && id != w.pending[0] ==> id in w.pending[1..]
  {
  }

  lemma DeliverChild(w: World, i: nat, j: nat)
    requires TablesOk(w) && AtHead(w, i) && j < |w.children| && j != i && ChildOk(w, w.children[j])
    ensures ChildOk(Delivered(w, i), w.children[j])
  {
    hide CommandOk, TablesOk;
    OtherChild(w, i, j);
  }

  lemma DeliverCommand(w: World, i: nat, h: Handle)
    requires AtHead(w, i) && CommandOk(w, h)
    ensures CommandOk(Delivered(w, i), h)
  {
    var v := Delivered(w, i);
    if w.memory[h].running && w.children[i].owner != Some(h) {
      var j: nat :| Serves(w.children, j, h);
      var k := SwapOutKeepsOthers(w.children, i, j);
      assert Serves(v.children, k, h);
    }
  }

  lemma DeliverPending(w: World, i: nat, id: Id)
    requires TablesOk(w) && AtHead(w, i) && id in Delivered(w, i).pending
    requires id in w.pending ==> PendingOk(w, id)
    ensures PendingOk(Delivered(w, i), id)
  {
    var v := Delivered(w, i);
    if id in w.pending[1..] && id.ChildId? {
      var j: nat :| j < |w.children| && w.children[j].pid == id.pid;
      assert j != i;
      var k := SwapOutKeepsOthers(w.children, i, j);
      assert v.children[k].pid == id.pid;
    }
  }

  lemma DeliverHeld(w: World, i: nat, n: nat)
    requires AtHead(w, i) && Held(w, n) && n < |w.history|
    ensures Held(Delivered(w, i), n) || Settled(Delivered(w, i).history[n])
  {
    var v := Delivered(w, i);
    if j: nat :| WatchedAs(w.children, j, n) {
      if j != i {
        var k := SwapOutKeepsOthers(w.children, i, j);
        assert WatchedAs(v.children, k, n);
      }
    } else {
      var h :| h in w.memory && w.memory[h].serial == n;
      assert h in v.memory && v.memory[h].serial == n;
    }
  }

  lemma DeliverEvolves(w: World, i: nat)
    requires AtHead(w, i) && w.calling <= w.memory.Keys
    requires forall h :: h in w.calling ==> CommandOk(w, h)
    ensures Evolves(w, Delivered(w, i))
  {
  }

  lemma DeliverShape(w: World, i: nat)
    requires AtHead(w, i)
    ensures Delivered(w, i).children == SwapOut(w.children, i)
    ensures Delivered(w, i).memory.Keys == w.memory.Keys
    ensures |Delivered(w, i).history| == |w.history|
    ensures forall n :: 0 <= n < |w.history| && n != w.children[i].serial ==> Delivered(w, i).history[n] == w.history[n]
  {
  }

  lemma DeliverChildren(w: World, i: nat)
    requires Valid(w) && AtHead(w, i)
    ensures forall c :: c in SwapOut(w.children, i) ==> ChildOk(Delivered(w, i), c)
  {
    hide CommandOk, ChildOk, PendingOk, Held, Settled, TablesOk, Delivered;
    var v := Delivered(w, i);
    var t := SwapOut(w.children, i);
    forall c | c in t ensures ChildOk(v, c) {
      var k: nat :| k < |t| && t[k] == c;
      var j := SwapOutTakesOthers(w.children, i, k);
      ChildAt(w, j);
      DeliverChild(w, i, j);
    }
  }

  lemma DeliverKeeps(w: World, i: nat)
    requires Valid(w) && AtHead(w, i)
    ensures Valid(Delivered(w, i)) && Evolves(w, Delivered(w, i))
  {
    hide CommandOk, ChildOk, PendingOk, Held, Settled, TablesOk, Delivered, Evolves, SwapOut;
    var v := Delivered(w, i);
    DeliverShape(w, i);
    Calling(w);
    DeliverEvolves(w, i);
    DeliverTables(w, i);
    DeliverChildren(w, i);
    forall h | h in v.memory ensures CommandOk(v, h) {
      DeliverCommand(w, i, h);
    }
    forall id | id in v.pending ensures PendingOk(v, id) {
      DeliverPending(w, i, id);
    }
    forall n: nat | n < |v.history| ensures Settled(v.history[n]) || Held(v, n) {
      if n == w.children[i].serial {
        SerialIsHeld(w, i);
      }
      if Held(w, n) {
        DeliverHeld(w, i, n);
      }
    }
  }

  lemma Calling(w: World)
    requires Valid(w)
    ensures w.calling <= w.memory.Keys
  {
  }

  /** A command leaves the queue and its callback starts. */
  ghost function Called(w: World, h: Handle): World
    requires CommandOk(w, h) && w.pending != []
  {
    var c := w.memory[h];
    var r := w.history[c.serial];
    var call := Call(c.status, KillStatusOf(c.signal, c.status), c.out, c.err);
    w.(pending := w.pending[1..], calling := w.calling + {h},
       history := w.history[c.serial := r.(calls := r.calls + [call])])
  }

  /** The callback of a command is over, and the command is freed. */
  ghost function Freed(w: World, h: Handle, i: nat): World
    requires i < |w.commands|
  {
    w.(commands := SwapOut(w.commands, i), memory := w.memory - {h}, calling := w.calling - {h})
  }

  lemma CallKeeps(w: World, h: Handle)
    requires Valid(w) && CommandOk(w, h) && w.pending != [] && w.pending[0] == CommandId(h, w.memory[h].pid)
    ensures Valid(Called(w, h)) && h in Called(w, h).calling && h !in w.calling
  {
    var v := Called(w, h);
    assert TablesOk(w);
    assert Moved(w, v, h) && CommandOk(v, h) by {
      hide Held, Settled, PendingOk, ChildOk;
    }
    CommandMoves(w, v, h);
  }

  lemma FreeTables(w: World, h: Handle, i: nat)
    requires TablesOk(w) && i < |w.commands| && w.commands[i] == h
    ensures TablesOk(Freed(w, h, i))
  {
    var v := Freed(w, h, i);
    forall g ensures g in v.commands <==> g in v.memory {
      if g in v.commands {
        var k: nat :| k < |v.commands| && v.commands[k] == g;
        var j := SwapOutTakesOthers(w.commands, i, k);
        assert w.commands[j] == g;
      }
      if g in v.memory {
        assert g in w.commands;
        var j: nat :| j < |w.commands| && w.commands[j] == g;
        var k := SwapOutKeepsOthers(w.commands, i, j);
        assert v.commands[k] == g;
      }
    }
  }

  lemma FreeChild(w: World, h: Handle, i: nat, c: Child)
    requires i < |w.commands| && CommandOk(w, h) && h in w.calling && ChildOk(w, c)
    ensures ChildOk(Freed(w, h, i), c)
  {
  }

  lemma FreeCommand(w: World, h: Handle, i: nat, g: Handle)
    requires i < |w.commands| && CommandOk(w, h) && h in w.calling && CommandOk(w, g) && g != h
    ensures CommandOk(Freed(w, h, i), g)
  {
  }

  lemma FreePending(w: World, h: Handle, i: nat, id: Id)
    requires i < |w.commands| && CommandOk(w, h) && h in w.calling && id in w.pending && PendingOk(w, id)
    ensures PendingOk(Freed(w, h, i), id)
  {
  }

  /** A freed command was called back, and told the truth. */
  lemma FreeHeld(w: World, h: Handle, i: nat, n: nat)
    requires i < |w.commands| && CommandOk(w, h) && h in w.calling && n < |w.history| && Held(w, n)
    ensures Held(Freed(w, h, i), n) || Settled(w.history[n])
  {
    var v := Freed(w, h, i);
    if k: nat :| WatchedAs(w.children, k, n) {
      assert WatchedAs(v.children, k, n);
    } else {
      var g :| g in w.memory && w.memory[g].serial == n;
      if g != h {
        assert g in v.memory && v.memory[g].serial == n;
      }
    }
  }

  lemma FreeKeeps(w: World, h: Handle, i: nat)
    requires Valid(w) && h in w.calling && i < |w.commands| && w.commands[i] == h
    ensures Valid(Freed(w, h, i))
  {
    var v := Freed(w, h, i);
    FreeTables(w, h, i);
    assert h in w.memory && CommandOk(w, h);
    hide CommandOk, ChildOk, PendingOk, Held, Settled;
    forall c | c in v.children ensures ChildOk(v, c) {
      FreeChild(w, h, i, c);
    }
    forall g | g in v.memory ensures CommandOk(v, g) {
      FreeCommand(w, h, i, g);
    }
    forall id | id in v.pending ensures PendingOk(v, id) {
      FreePending(w, h, i, id);
    }
    forall n: nat | n < |v.history| ensures Settled(v.history[n]) || Held(v, n) {
      if Held(w, n) {
        FreeHeld(w, h, i, n);
      }
    }
  }

  lemma QueuedIsNotCalled(w: World, h: Handle)
    requires CommandOk(w, h) && w.pending != [] && w.pending[0] == CommandId(h, w.memory[h].pid)
    ensures h !in w.calling && w.history[w.memory[h].serial].calls == []
  {
  }

  /** From before the callback, over whatever the callback does, to the command being freed. */
  lemma CallRoundEvolves(w: World, u: World, h: Handle, i: nat)
    requires Valid(w) && CommandOk(w, h) && w.pending != [] && w.pending[0] == CommandId(h, w.memory[h].pid)
    requires Evolves(Called(w, h), u) && i < |u.commands|
    ensures Evolves(w, Freed(u, h, i))
  {
    hide Valid;
    var t := Called(w, h);
    QueuedIsNotCalled(w, h);
    forall n | 0 <= n < |w.history| ensures Grows(w.history[n], u.history[n]) {
      assert Grows(w.history[n], t.history[n]);
      GrowsOn(w.history[n], t.history[n], u.history[n]);
    }
  }

  // ---------------------------------------------------------------------------------------------
  // Waiting
  // ---------------------------------------------------------------------------------------------

  /** Whatever had this id in the earlier world w is over in the later world v. */
  ghost predicate Over(w: World, v: World, id: Id) {
    && (forall h :: h in w.memory && id == CommandId(h, w.memory[h].pid) ==>
          w.memory[h].serial < |v.history| && Settled(v.history[w.memory[h].serial]))
    && (forall c :: c in w.children && id == ChildId(c.pid) ==>
          c.serial < |v.history| && v.history[c.serial].reported && v.history[c.serial].exit.Some?)
  }

  predicate Active(w: World, id: Id) {
    match id
    case ChildId(pid) => Tracked(w.children, pid)
    case CommandId(h, pid) => h in w.memory && w.memory[h].pid == pid
  }

  lemma SettledUnlessHeld(w: World, n: nat)
    requires Valid(w) && n < |w.history|
    ensures Settled(w.history[n])
         || (w.history[n].id.CommandId? && Active(w, w.history[n].id)
             && w.memory[w.history[n].id.command].serial == n)
         || (w.history[n].id.ChildId? && Active(w, w.history[n].id))
  {
    if !Settled(w.history[n]) {
      assert Held(w, n);
      if h :| h in w.memory && w.memory[h].serial == n {
        assert CommandOk(w, h);
      } else {
        var i: nat :| WatchedAs(w.children, i, n);
        assert ChildOk(w, w.children[i]);
      }
    }
  }

  /** An id that is no longer found names nothing that is still to come. */
  lemma InactiveIsOver(w: World, v: World, id: Id)
    requires Valid(w) && Valid(v) && Evolves(w, v) && !Active(v, id)
    ensures Over(w, v, id)
  {
    forall h | h in w.memory && id == CommandId(h, w.memory[h].pid)
      ensures w.memory[h].serial < |v.history| && Settled(v.history[w.memory[h].serial])
    {
      var n := w.memory[h].serial;
      assert CommandOk(w, h);
      assert Grows(w.history[n], v.history[n]);
      SettledUnlessHeld(v, n);
    }
    forall c | c in w.children && id == ChildId(c.pid)
      ensures c.serial < |v.history| && v.history[c.serial].reported && v.history[c.serial].exit.Some?
    {
      ChildIsOver(w, v, c);
    }
  }

  lemma ChildIsOver(w: World, v: World, c: Child)
    requires Valid(w) && Valid(v) && Evolves(w, v) && c in w.children && !Tracked(v.children, c.pid)
    ensures c.serial < |v.history| && v.history[c.serial].reported && v.history[c.serial].exit.Some?
  {
    assert ChildOk(w, c);
    var n := c.serial;
    assert Grows(w.history[n], v.history[n]);
    SettledUnlessHeld(v, n);
    if c.owner.Some? {
      var h := c.owner.value;
      assert CommandOk(w, h);
      if !Settled(v.history[n]) {
        assert CommandOk(v, h);
        RunningIsTracked(v, h);
      }
    }
  }

  lemma RunningIsTracked(w: World, h: Handle)
    requires Valid(w) && CommandOk(w, h)
    ensures w.memory[h].running ==> Tracked(w.children, w.memory[h].pid)
  {
    if w.memory[h].running {
      var i: nat :| Serves(w.children, i, h);
      assert ChildOk(w, w.children[i]);
    }
  }

  lemma OverStays(w: World, v: World, u: World, id: Id)
    requires Over(w, v, id) && Evolves(v, u)
    ensures Over(w, u, id)
  {
    forall n: nat | n < |v.history| ensures Grows(v.history[n], u.history[n]) {
    }
  }

  // ---------------------------------------------------------------------------------------------
  // What the rest of the world brings
  // ---------------------------------------------------------------------------------------------

  datatype Buffer = InputBuffer | OutputBuffer | ErrorBuffer

  /** A process that ended, as waitpid tells of it. */
  datatype Zombie = Zombie(pid: nat, status: Status)

  /** What one pass of the underlying loop may bring. */
  datatype Event =
    | Closed(command: Handle, buffer: Buffer, data: string)
    | Written(command: Handle)
    | ChildSignal(zombies: seq<Zombie>)
    | TermTimeout(command: Handle)
    | KillTimeout(command: Handle)

  /** What the rest of the world does next: one pass of the loop, or one action of the callback that runs. */
  datatype Step =
    | Pass(events: seq<Event>)
    | Launch(command: Handle, pid: nat, input: bool)
    | Watch(pid: nat)
    | WaitFor(ids: seq<Id>)
    | Return

  lemma DropFirst<T>(s: seq<T>, t: seq<T>)
    requires |s| == |t| + 1 && (t == [] || t == [s[|t|]] + s[1..|t|])
    ensures forall x :: x in s && x != s[0] ==> x in t
  {
    forall x | x in s && x != s[0] ensures x in t {
      var k :| 0 <= k < |s| && s[k] == x;
      assert if k == |t| then t[0] == x else t[k] == x;
    }
  }

  lemma QueuedIsKnown(w: World)
    requires Valid(w)
    ensures forall g :: g in w.commands <==> g in w.memory
    ensures w.pending != [] && w.pending[0].ChildId? ==> Tracked(w.children, w.pending[0].pid)
    ensures w.pending != [] && w.pending[0].CommandId? ==>
              Active(w, w.pending[0]) && CommandOk(w, w.pending[0].command)
  {
    assert w.pending != [] ==> PendingOk(w, w.pending[0]);
  }

  lemma EvolvesAtOnce(w: World)
    ensures Evolves(w, w)
  {
  }

  lemma HeadIsReport(w: World, i: nat)
    requires Valid(w) && i < |w.children| && w.pending != [] && w.pending[0] == ChildId(w.children[i].pid)
    ensures AtHead(w, i)
    ensures w.children[i].owner.Some? ==>
              && w.memory[w.children[i].owner.value].pid == w.children[i].pid
              && w.memory[w.children[i].owner.value].child == w.pending[0]
  {
    ChildAt(w, i);
    if w.children[i].owner.Some? {
      assert CommandOk(w, w.children[i].owner.value);
    }
  }

  lemma StillInCallback(w: World, u: World, h: Handle)
    requires Valid(u) && Evolves(w, u) && h in w.calling
    ensures h in u.calling && CommandOk(u, h) && !u.memory[h].running && h in u.commands
  {
    assert h in u.memory;
  }

  lemma ClosedKeeps(w: World, h: Handle, buffer: Buffer, data: string)
    requires Valid(w) && CommandOk(w, h)
    requires buffer.OutputBuffer? ==> w.memory[h].output
    requires buffer.ErrorBuffer? ==> w.memory[h].error
    ensures
      var v := match buffer
        case InputBuffer => InputEnded(w, h)
        case OutputBuffer => OutputEnded(w, h, data)
        case ErrorBuffer => ErrorEnded(w, h, data);
      Valid(v) && Evolves(w, v)
  {
    match buffer {
      case InputBuffer => InputKeeps(w, h);
      case OutputBuffer => OutputKeeps(w, h, data);
      case ErrorBuffer => ErrorKeeps(w, h, data);
    }
  }
}
