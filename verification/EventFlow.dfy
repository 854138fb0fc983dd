/** What loop passes bring to whom: each registration learns of its own events, and of no others. */
module EventFlow {
  import opened Wrappers
  import opened EventState

  function Or<T>(a: Option<T>, b: Option<T>): Option<T> {
    if a.Some? then a else b
  }

  /** The status of the first of these processes with the pid. */
  function ExitAmong(zombies: seq<Zombie>, pid: nat): Option<Status> {
    if zombies == [] then None
    else Or(if zombies[0].pid == pid then Some(zombies[0].status) else None, ExitAmong(zombies[1..], pid))
  }

  /** How the process first ended. */
  function ExitIn(events: seq<Event>, pid: nat): Option<Status> {
    if events == [] then None
    else Or(if events[0].ChildSignal? then ExitAmong(events[0].zombies, pid) else None, ExitIn(events[1..], pid))
  }

  /** What the output of the command gave when it first ended. */
  function DataIn(events: seq<Event>, h: Handle, buffer: Buffer): Option<string> {
    if events == [] then None
    else
      var e := events[0];
      Or(if e.Closed? && e.command == h && e.buffer == buffer then Some(e.data) else None, DataIn(events[1..], h, buffer))
  }

  function DataOf(events: seq<Event>, id: Id, buffer: Buffer): Option<string> {
    if id.CommandId? then DataIn(events, id.command, buffer) else None
  }

  /** The signal that the last timeout of the command sent. */
  function SignalIn(events: seq<Event>, h: Handle, signal: Signal): Signal {
    if events == [] then signal
    else
      match events[|events| - 1]
      case TermTimeout(g) => if g == h then SigTerm else SignalIn(events[..|events| - 1], h, signal)
      case KillTimeout(g) => if g == h then SigKill else SignalIn(events[..|events| - 1], h, signal)
      case _ => SignalIn(events[..|events| - 1], h, signal)
  }

  // ---------------------------------------------------------------------------------------------
  // One pass
  // ---------------------------------------------------------------------------------------------

  /** What a registration knows after the events: the first end of each kind, and, unless its end was reported before, the
      last signal sent. */
  ghost predicate Takes(r: Record, s: Record, events: seq<Event>) {
    && s.id == r.id && s.reported == r.reported
    && s.out == Or(r.out, DataOf(events, r.id, OutputBuffer))
    && s.err == Or(r.err, DataOf(events, r.id, ErrorBuffer))
    && s.exit == Or(r.exit, ExitIn(events, r.id.pid))
    && s.signal == (if r.id.CommandId? && !r.reported then SignalIn(events, r.id.command, r.signal) else r.signal)
  }

  ghost predicate Felt(w: World, v: World, events: seq<Event>) {
    |v.history| == |w.history| && forall n :: 0 <= n < |w.history| ==> Takes(w.history[n], v.history[n], events)
  }

  lemma {:induction false} ExitInBoth(a: seq<Event>, b: seq<Event>, pid: nat)
    ensures ExitIn(a + b, pid) == Or(ExitIn(a, pid), ExitIn(b, pid))
  {
    if a == [] {
      assert a + b == b;
    } else {
      assert (a + b)[1..] == a[1..] + b;
      ExitInBoth(a[1..], b, pid);
    }
  }

  lemma {:induction false} DataInBoth(a: seq<Event>, b: seq<Event>, h: Handle, buffer: Buffer)
    ensures DataIn(a + b, h, buffer) == Or(DataIn(a, h, buffer), DataIn(b, h, buffer))
  {
    if a == [] {
      assert a + b == b;
    } else {
      assert (a + b)[1..] == a[1..] + b;
      DataInBoth(a[1..], b, h, buffer);
    }
  }

  lemma {:induction false} SignalInBoth(a: seq<Event>, b: seq<Event>, h: Handle, signal: Signal)
    ensures SignalIn(a + b, h, signal) == SignalIn(b, h, SignalIn(a, h, signal))
    decreases |b|
  {
    if b == [] {
      assert a + b == a;
    } else {
      assert (a + b)[..|a + b| - 1] == a + b[..|b| - 1];
      SignalInBoth(a, b[..|b| - 1], h, signal);
    }
  }

  lemma {:induction false} ExitAmongBoth(a: seq<Zombie>, b: seq<Zombie>, pid: nat)
    ensures ExitAmong(a + b, pid) == Or(ExitAmong(a, pid), ExitAmong(b, pid))
  {
    if a == [] {
      assert a + b == b;
    } else {
      assert (a + b)[1..] == a[1..] + b;
      ExitAmongBoth(a[1..], b, pid);
    }
  }

  lemma TakesBoth(r: Record, s: Record, t: Record, a: seq<Event>, b: seq<Event>)
    requires Takes(r, s, a) && Takes(s, t, b)
    ensures Takes(r, t, a + b)
  {
    hide DataIn, ExitIn, SignalIn;
    ExitInBoth(a, b, r.id.pid);
    if r.id.CommandId? {
      DataInBoth(a, b, r.id.command, OutputBuffer);
      DataInBoth(a, b, r.id.command, ErrorBuffer);
      SignalInBoth(a, b, r.id.command, r.signal);
    }
  }

  lemma FeltBoth(w: World, v: World, u: World, a: seq<Event>, b: seq<Event>)
    requires Felt(w, v, a) && Felt(v, u, b)
    ensures Felt(w, u, a + b)
  {
    hide Takes;
    forall n | 0 <= n < |w.history|
      ensures Takes(w.history[n], u.history[n], a + b)
    {
      TakesBoth(w.history[n], v.history[n], u.history[n], a, b);
    }
  }

  lemma FeltNothing(w: World)
    ensures Felt(w, w, [])
  {
  }

  /** A registration that lacks something is still in the tables, waiting for just that. */
  lemma LackingIsHeld(w: World, n: nat, h: Handle)
    requires Valid(w) && n < |w.history| && w.history[n].id.CommandId? && w.history[n].id.command == h
    ensures w.history[n].out.None? || w.history[n].err.None? || !w.history[n].reported ==>
      && h in w.memory && w.memory[h].serial == n && CommandOk(w, h)
      && (w.history[n].out.None? <==> w.memory[h].output) && (w.history[n].err.None? <==> w.memory[h].error)
      && (!w.history[n].reported <==> w.memory[h].running)
  {
    if w.history[n].out.None? || w.history[n].err.None? || !w.history[n].reported {
      SettledUnlessHeld(w, n);
      assert CommandOk(w, h);
    }
  }

  ghost predicate IsChildOf(w: World, i: nat, n: nat) {
    i < |w.children| && n < |w.history| && w.children[i].serial == n && w.children[i].pid == w.history[n].id.pid
    && w.children[i].pid in w.alive
  }

  lemma UnendedIsChild(w: World, n: nat)
    requires Valid(w) && n < |w.history| && w.history[n].exit.None?
    ensures exists i: nat :: IsChildOf(w, i, n)
  {
    assert !Settled(w.history[n]) && Held(w, n);
    if h :| h in w.memory && w.memory[h].serial == n {
      assert CommandOk(w, h);
      var i: nat :| Serves(w.children, i, h);
      ChildAt(w, i);
      assert IsChildOf(w, i, n);
    } else {
      var i: nat :| WatchedAs(w.children, i, n);
      ChildAt(w, i);
      assert IsChildOf(w, i, n);
    }
  }

  /** Events that concern nobody, or come too late. */
  lemma Unfelt(w: World, e: Event)
    requires Valid(w)
    requires
      match e
      case Closed(h, OutputBuffer, _) => h in w.memory ==> !w.memory[h].output
      case Closed(h, ErrorBuffer, _) => h in w.memory ==> !w.memory[h].error
      case Closed(h, InputBuffer, _) => true
      case Written(h) => true
      case ChildSignal(zombies) => forall z :: z in zombies ==> z.pid !in w.alive || !Tracked(w.children, z.pid)
      case TermTimeout(h) => h in w.memory ==> !w.memory[h].running
      case KillTimeout(h) => h in w.memory ==> !w.memory[h].running
    ensures Felt(w, w, [e])
  {
    hide Valid;
    forall n | 0 <= n < |w.history|
      ensures Takes(w.history[n], w.history[n], [e])
    {
      var r := w.history[n];
      if r.id.CommandId? {
        LackingIsHeld(w, n, r.id.command);
        One(e, r.id.command, r.signal);
      }
      OneExit(e, r.id.pid);
      if r.exit.None? {
        UnendedIsChild(w, n);
        if e.ChildSignal? {
          NobodyEnded(w, e.zombies, n);
        }
      }
    }
  }

  lemma {:induction false} NobodyEnded(w: World, zombies: seq<Zombie>, n: nat)
    requires forall z :: z in zombies ==> z.pid !in w.alive || !Tracked(w.children, z.pid)
    requires exists i: nat :: IsChildOf(w, i, n)
    ensures ExitAmong(zombies, w.history[n].id.pid) == None
  {
    if zombies != [] {
      var i: nat :| IsChildOf(w, i, n);
      assert Tracked(w.children, w.children[i].pid);
      assert zombies[0] in zombies;
      NobodyEnded(w, zombies[1..], n);
    }
  }

  lemma One(e: Event, h: Handle, signal: Signal)
    ensures DataIn([e], h, OutputBuffer) == if e.Closed? && e.command == h && e.buffer == OutputBuffer then Some(e.data) else None
    ensures DataIn([e], h, ErrorBuffer) == if e.Closed? && e.command == h && e.buffer == ErrorBuffer then Some(e.data) else None
    ensures SignalIn([e], h, signal) == (if e == TermTimeout(h) then SigTerm else if e == KillTimeout(h) then SigKill else signal)
  {
    assert [e][1..] == [] && [e][..0] == [];
  }

  lemma OneExit(e: Event, pid: nat)
    ensures ExitIn([e], pid) == if e.ChildSignal? then ExitAmong(e.zombies, pid) else None
  {
    assert [e][1..] == [];
  }

  /** Whatever happens to the record of one command, and to no other, is felt if that record takes it. */
  lemma CommandFelt(w: World, v: World, h: Handle, e: Event)
    requires Valid(w) && CommandOk(w, h) && |v.history| == |w.history| && !e.ChildSignal?
    requires e.Written? || e.command == h
    requires Takes(w.history[w.memory[h].serial], v.history[w.memory[h].serial], [e])
    requires forall n :: 0 <= n < |w.history| && n != w.memory[h].serial ==> v.history[n] == w.history[n]
    ensures Felt(w, v, [e])
  {
    hide Valid;
    forall n | 0 <= n < |w.history|
      ensures Takes(w.history[n], v.history[n], [e])
    {
      var r := w.history[n];
      if n != w.memory[h].serial {
        if r.id.CommandId? {
          LackingIsHeld(w, n, r.id.command);
          One(e, r.id.command, r.signal);
        }
        OneExit(e, r.id.pid);
      }
    }
  }

  lemma OutputFelt(w: World, h: Handle, data: string)
    requires Valid(w) && CommandOk(w, h) && w.memory[h].output
    ensures Felt(w, OutputEnded(w, h, data), [Closed(h, OutputBuffer, data)])
  {
    hide Valid;
    One(Closed(h, OutputBuffer, data), h, w.memory[h].signal);
    OneExit(Closed(h, OutputBuffer, data), w.memory[h].pid);
    CommandFelt(w, OutputEnded(w, h, data), h, Closed(h, OutputBuffer, data));
  }

  lemma ErrorFelt(w: World, h: Handle, data: string)
    requires Valid(w) && CommandOk(w, h) && w.memory[h].error
    ensures Felt(w, ErrorEnded(w, h, data), [Closed(h, ErrorBuffer, data)])
  {
    hide Valid;
    One(Closed(h, ErrorBuffer, data), h, w.memory[h].signal);
    OneExit(Closed(h, ErrorBuffer, data), w.memory[h].pid);
    CommandFelt(w, ErrorEnded(w, h, data), h, Closed(h, ErrorBuffer, data));
  }

  lemma InputFelt(w: World, h: Handle, e: Event)
    requires Valid(w) && CommandOk(w, h) && (e.Written? || (e.Closed? && e.buffer.InputBuffer?))
    ensures Felt(w, InputEnded(w, h), [e])
  {
    Unfelt(w, e);
  }

  lemma SignalFelt(w: World, h: Handle, signal: Signal, e: Event)
    requires Valid(w) && CommandOk(w, h)
    requires (signal.SigTerm? && e == TermTimeout(h)) || (signal.SigKill? && e == KillTimeout(h))
    ensures Felt(w, Signalled(w, h, signal), [e])
  {
    hide Valid;
    if w.memory[h].running {
      One(e, h, w.memory[h].signal);
      OneExit(e, w.memory[h].pid);
      CommandFelt(w, Signalled(w, h, signal), h, e);
    } else {
      Unfelt(w, e);
    }
  }

  /** The report of one process reaches the one registration that waits for it. */
  lemma ReapFelt(w: World, i: nat, z: Zombie)
    requires Valid(w) && i < |w.children| && ChildOk(w, w.children[i]) && w.children[i].pid in w.alive && w.children[i].pid == z.pid
    ensures Felt(w, Reaped(w, i, z.status), [ChildSignal([z])])
  {
    var v, e := Reaped(w, i, z.status), ChildSignal([z]);
    assert TablesOk(w);
    SerialPid(w, i);
    hide Valid, TablesOk;
    assert forall j :: 0 <= j < |w.children| && w.children[j].pid == z.pid ==> j == i by { OnePid(w, i); }
    forall n | 0 <= n < |w.history|
      ensures Takes(w.history[n], v.history[n], [e])
    {
      var r := w.history[n];
      if r.id.CommandId? {
        One(e, r.id.command, r.signal);
      }
      OneExit(e, r.id.pid);
      OneZombie(z, r.id.pid);
      if r.exit.None? {
        UnendedIsChild(w, n);
      }
    }
  }

  lemma OnePid(w: World, i: nat)
    requires TablesOk(w) && i < |w.children|
    ensures forall j :: 0 <= j < |w.children| && w.children[j].pid == w.children[i].pid ==> j == i
  {
  }

  lemma OneZombie(z: Zombie, pid: nat)
    ensures ExitAmong([z], pid) == if z.pid == pid then Some(z.status) else None
  {
    assert [z][1..] == [];
  }

  lemma SerialPid(w: World, i: nat)
    requires Valid(w) && i < |w.children|
    ensures w.children[i].serial < |w.history| && w.history[w.children[i].serial].id.pid == w.children[i].pid
  {
    ChildAt(w, i);
    if w.children[i].owner.Some? {
      assert CommandOk(w, w.children[i].owner.value);
    }
  }

  /** One process after the others. */
  lemma ZombiesFelt(w: World, v: World, u: World, zombies: seq<Zombie>, z: Zombie)
    requires Felt(w, v, [ChildSignal(zombies)]) && Felt(v, u, [ChildSignal([z])])
    ensures Felt(w, u, [ChildSignal(zombies + [z])])
  {
    FeltBoth(w, v, u, [ChildSignal(zombies)], [ChildSignal([z])]);
    var a, b := [ChildSignal(zombies)] + [ChildSignal([z])], [ChildSignal(zombies + [z])];
    forall n | 0 <= n < |w.history|
      ensures Takes(w.history[n], u.history[n], b)
    {
      var r := w.history[n];
      assert Takes(r, u.history[n], a);
      ExitInBoth([ChildSignal(zombies)], [ChildSignal([z])], r.id.pid);
      OneExit(ChildSignal(zombies), r.id.pid);
      OneExit(ChildSignal([z]), r.id.pid);
      OneExit(ChildSignal(zombies + [z]), r.id.pid);
      ExitAmongBoth(zombies, [z], r.id.pid);
      if r.id.CommandId? {
        DataInBoth([ChildSignal(zombies)], [ChildSignal([z])], r.id.command, OutputBuffer);
        DataInBoth([ChildSignal(zombies)], [ChildSignal([z])], r.id.command, ErrorBuffer);
        SignalInBoth([ChildSignal(zombies)], [ChildSignal([z])], r.id.command, r.signal);
        One(ChildSignal(zombies), r.id.command, r.signal);
        One(ChildSignal([z]), r.id.command, r.signal);
        One(ChildSignal(zombies + [z]), r.id.command, r.signal);
      }
    }
  }

  // ---------------------------------------------------------------------------------------------
  // Many passes, and what happens in between
  // ---------------------------------------------------------------------------------------------

  /** The events of all passes, in order. */
  function Fired(steps: seq<Step>): seq<Event> {
    if steps == [] then []
    else (if steps[0].Pass? then steps[0].events else []) + Fired(steps[1..])
  }

  lemma {:induction false} FiredBoth(a: seq<Step>, b: seq<Step>)
    ensures Fired(a + b) == Fired(a) + Fired(b)
  {
    if a == [] {
      assert a + b == b;
    } else {
      assert (a + b)[1..] == a[1..] + b;
      FiredBoth(a[1..], b);
    }
  }

  /** A signal was sent only if a timeout fired. */
  ghost predicate SignalFrom(r: Record, s: Record, events: seq<Event>) {
    || s.signal == r.signal
    || (r.id.CommandId? && s.signal == SigTerm && TermTimeout(r.id.command) in events)
    || (r.id.CommandId? && s.signal == SigKill && KillTimeout(r.id.command) in events)
  }

  /** What a registration knows after the events, apart from being called back. */
  ghost predicate Follows(r: Record, s: Record, events: seq<Event>) {
    && s.id == r.id
    && s.out == Or(r.out, DataOf(events, r.id, OutputBuffer))
    && s.err == Or(r.err, DataOf(events, r.id, ErrorBuffer))
    && s.exit == Or(r.exit, ExitIn(events, r.id.pid))
    && SignalFrom(r, s, events)
  }

  function NewRecord(id: Id): Record {
    Record(id, None, None, NoSignal, None, false, 0, [])
  }

  /** Step j - 1 registered it, and it knows what came after that. */
  ghost predicate Born(s: Record, steps: seq<Step>, j: nat) {
    && 0 < j <= |steps|
    && ((steps[j-1].Launch? && s.id == CommandId(steps[j-1].command, steps[j-1].pid))
        || (steps[j-1].Watch? && s.id == ChildId(steps[j-1].pid)))
    && Follows(NewRecord(s.id), s, Fired(steps[j..]))
  }

  ghost predicate IsNew(s: Record, steps: seq<Step>) {
    exists j: nat :: Born(s, steps, j)
  }

  /** Old registrations know what the steps brought, and new ones were made by the steps. */
  ghost predicate Told(w: World, v: World, steps: seq<Step>) {
    && |w.history| <= |v.history|
    && (forall n :: 0 <= n < |w.history| ==> Follows(w.history[n], v.history[n], Fired(steps)))
    && (forall n :: |w.history| <= n < |v.history| ==> IsNew(v.history[n], steps))
  }

  lemma FollowsBoth(r: Record, s: Record, t: Record, a: seq<Event>, b: seq<Event>)
    requires Follows(r, s, a) && Follows(s, t, b)
    ensures Follows(r, t, a + b)
  {
    hide DataIn, ExitIn;
    ExitInBoth(a, b, r.id.pid);
    if r.id.CommandId? {
      DataInBoth(a, b, r.id.command, OutputBuffer);
      DataInBoth(a, b, r.id.command, ErrorBuffer);
    }
  }

  lemma BornOn(s: Record, t: Record, a: seq<Step>, b: seq<Step>, j: nat)
    requires Born(s, a, j) && Follows(s, t, Fired(b))
    ensures Born(t, a + b, j)
  {
    hide Follows;
    FollowsId(s, t, Fired(b));
    FollowsBoth(NewRecord(s.id), s, t, Fired(a[j..]), Fired(b));
    FiredBoth(a[j..], b);
    assert (a + b)[j..] == a[j..] + b;
  }

  lemma FollowsId(s: Record, t: Record, events: seq<Event>)
    requires Follows(s, t, events)
    ensures t.id == s.id
  {
  }

  lemma BornLater(t: Record, a: seq<Step>, b: seq<Step>, j: nat)
    requires Born(t, b, j)
    ensures Born(t, a + b, |a| + j)
  {
    hide Follows;
    assert (a + b)[|a| + j..] == b[j..];
  }

  lemma ToldBoth(w: World, v: World, u: World, a: seq<Step>, b: seq<Step>)
    requires Told(w, v, a) && Told(v, u, b)
    ensures Told(w, u, a + b)
  {
    hide Follows, Born, Fired;
    FiredBoth(a, b);
    forall n | 0 <= n < |w.history|
      ensures Follows(w.history[n], u.history[n], Fired(a + b))
    {
      assert Follows(w.history[n], v.history[n], Fired(a)) && Follows(v.history[n], u.history[n], Fired(b));
      FollowsBoth(w.history[n], v.history[n], u.history[n], Fired(a), Fired(b));
    }
    forall n | |w.history| <= n < |u.history|
      ensures IsNew(u.history[n], a + b)
    {
      if n < |v.history| {
        var j: nat :| Born(v.history[n], a, j);
        BornOn(v.history[n], u.history[n], a, b, j);
      } else {
        var j: nat :| Born(u.history[n], b, j);
        BornLater(u.history[n], a, b, j);
      }
    }
  }

  /** Neither a delivery nor the start or end of a callback brings anything. */
  lemma ToldNothing(w: World, v: World)
    requires |v.history| == |w.history|
    requires forall n :: 0 <= n < |w.history| ==> v.history[n] == w.history[n].(reported := v.history[n].reported,
      posted := v.history[n].posted, calls := v.history[n].calls)
    ensures Told(w, v, [])
  {
  }

  lemma TakesFollows(r: Record, s: Record, events: seq<Event>)
    requires Takes(r, s, events)
    ensures Follows(r, s, events)
  {
    if r.id.CommandId? && !r.reported {
      SignalIsSent(events, r.id.command, r.signal);
    }
  }

  lemma {:induction false} SignalIsSent(events: seq<Event>, h: Handle, signal: Signal)
    ensures var s := SignalIn(events, h, signal);
      s == signal || (s == SigTerm && TermTimeout(h) in events) || (s == SigKill && KillTimeout(h) in events)
    decreases |events|
  {
    if events != [] {
      var front := events[..|events| - 1];
      SignalIsSent(front, h, signal);
      assert events == front + [events[|events| - 1]];
    }
  }

  lemma ToldOfPass(w: World, v: World, events: seq<Event>)
    requires Felt(w, v, events)
    ensures Told(w, v, [Pass(events)])
  {
    hide Takes, Follows;
    assert [Pass(events)][1..] == [];
    assert Fired([Pass(events)]) == events + [] == events;
    forall n | 0 <= n < |w.history|
      ensures Follows(w.history[n], v.history[n], events)
    {
      TakesFollows(w.history[n], v.history[n], events);
    }
  }

  lemma ToldOfStep(w: World, v: World, step: Step)
    requires !step.Pass? && |w.history| <= |v.history| <= |w.history| + 1 && v.history[..|w.history|] == w.history
    requires |v.history| > |w.history| ==> match step
      case Launch(h, pid, _) => v.history[|w.history|] == NewRecord(CommandId(h, pid))
      case Watch(pid) => v.history[|w.history|] == NewRecord(ChildId(pid))
      case _ => false
    ensures Told(w, v, [step])
  {
    assert [step][1..] == [] && Fired([step]) == [];
    forall n | 0 <= n < |w.history|
      ensures Follows(w.history[n], v.history[n], [])
    {
      assert v.history[n] == v.history[..|w.history|][n];
    }
    forall n | |w.history| <= n < |v.history|
      ensures IsNew(v.history[n], [step])
    {
      assert Born(v.history[n], [step], 1);
    }
  }

  /** What is left of a script, and what was done of it. */
  ghost predicate IsRest(before: seq<Step>, after: seq<Step>) {
    |after| <= |before| && after == before[|before| - |after|..]
  }

  ghost function Done(before: seq<Step>, after: seq<Step>): seq<Step>
    requires |after| <= |before|
  {
    before[..|before| - |after|]
  }

  /** From the world w with a script ahead to the world v with a rest of it. */
  ghost predicate Ran(w: World, v: World, before: seq<Step>, after: seq<Step>) {
    Evolves(w, v) && IsRest(before, after) && Told(w, v, Done(before, after))
  }

  lemma RanBoth(w: World, v: World, u: World, a: seq<Step>, b: seq<Step>, c: seq<Step>)
    requires Ran(w, v, a, b) && Ran(v, u, b, c)
    ensures Ran(w, u, a, c)
  {
    hide Evolves, Told;
    EvolvesOn(w, v, u);
    assert Done(a, c) == Done(a, b) + Done(b, c);
    ToldBoth(w, v, u, Done(a, b), Done(b, c));
  }

  lemma RanAtOnce(w: World, v: World, script: seq<Step>)
    requires Evolves(w, v) && Told(w, v, [])
    ensures Ran(w, v, script, script)
  {
    hide Evolves, Told;
    assert Done(script, script) == [];
  }

  lemma RanNothing(w: World, script: seq<Step>)
    ensures Ran(w, w, script, script)
  {
    hide Evolves, Told;
    EvolvesAtOnce(w);
    ToldNothing(w, w);
    RanAtOnce(w, w, script);
  }

  lemma RanOne(w: World, v: World, script: seq<Step>)
    requires script != [] && Evolves(w, v) && Told(w, v, [script[0]])
    ensures Ran(w, v, script, script[1..])
  {
    hide Evolves, Told;
    assert Done(script, script[1..]) == [script[0]];
  }

  lemma RanFacts(w: World, v: World, before: seq<Step>, after: seq<Step>)
    requires Ran(w, v, before, after)
    ensures Evolves(w, v) && IsRest(before, after) && |after| <= |before| && Told(w, v, Done(before, after))
  {
    hide Evolves, Told;
  }

  /** A callback runs until it returns, or has no more to do. */
  ghost predicate Returned(before: seq<Step>, after: seq<Step>) {
    && |after| <= |before|
    && (after == [] || after[0].Pass? || (|after| < |before| && before[|before| - |after| - 1].Return?))
  }

  lemma CommandAt(w: World, h: Handle)
    requires Valid(w) && h in w.memory
    ensures CommandOk(w, h)
  {
  }

  lemma DeliverTells(w: World, i: nat)
    requires AtHead(w, i)
    ensures Told(w, Delivered(w, i), [])
  {
    ToldNothing(w, Delivered(w, i));
  }

  lemma CallTells(w: World, h: Handle)
    requires CommandOk(w, h) && w.pending != []
    ensures Told(w, Called(w, h), [])
  {
    ToldNothing(w, Called(w, h));
  }

  /** From before the callback to the command being freed. */
  lemma CallRoundRan(w: World, u: World, h: Handle, i: nat, before: seq<Step>, after: seq<Step>)
    requires CommandOk(w, h) && w.pending != [] && i < |u.commands|
    requires Told(w, Called(w, h), []) && Ran(Called(w, h), u, before, after) && Evolves(w, Freed(u, h, i))
    ensures Ran(w, Freed(u, h, i), before, after)
  {
    hide Told, Evolves;
    ToldBoth(w, Called(w, h), u, [], Done(before, after));
    assert [] + Done(before, after) == Done(before, after);
    ToldSame(w, u, Freed(u, h, i), Done(before, after));
  }

  lemma ToldSame(w: World, u: World, v: World, steps: seq<Step>)
    requires Told(w, u, steps) && v.history == u.history
    ensures Told(w, v, steps)
  {
  }

  lemma TakenFrom<T>(s: seq<T>, t: seq<T>)
    requires |s| == |t| + 1 && (t == [] || t == [s[|t|]] + s[1..|t|])
    ensures forall x :: x in t ==> x in s
  {
  }

  // ---------------------------------------------------------------------------------------------
  // What that means
  // ---------------------------------------------------------------------------------------------

  /** A callback is told of a signal only if that timeout fired, and of none only if none did. */
  lemma KilledAsSent(w: World, v: World, steps: seq<Step>, n: nat)
    requires Valid(v) && Told(w, v, steps) && n < |w.history| && w.history[n].id.CommandId? && w.history[n].signal == NoSignal
    requires v.history[n].calls != []
    ensures |v.history[n].calls| == 1 && v.history[n].exit.Some?
    ensures var h, status, killed := w.history[n].id.command, v.history[n].exit.value, v.history[n].calls[0].killed;
      && (killed == Termed ==> TermTimeout(h) in Fired(steps))
      && (killed == Killed ==> KillTimeout(h) in Fired(steps))
      && (TermTimeout(h) !in Fired(steps) && KillTimeout(h) !in Fired(steps) ==>
            killed == if status.Signaled? then SignalOther else Terminated)
  {
    hide Valid, DataIn, ExitIn, Fired, Held;
    CalledAtMostOnceAndLate(v, n);
    assert Follows(w.history[n], v.history[n], Fired(steps));
  }

  /** Something that still keeps an id waiting: the end of the process or of an output has not come, or it is the
      command's own callback that waits. */
  ghost predicate Stuck(v: World, id: Id, n: nat) {
    && n < |v.history| && v.history[n].id.pid == id.pid
    && match id
       case ChildId(pid) => v.history[n].exit.None?
       case CommandId(h, pid) => v.history[n].id == id && (!Happened(v.history[n]) || h in v.calling)
  }

  ghost predicate IsStuck(v: World, id: Id) {
    exists n: nat :: Stuck(v, id, n)
  }

  lemma ActiveIsStuck(v: World, id: Id)
    requires Valid(v) && v.pending == [] && Active(v, id)
    ensures IsStuck(v, id)
  {
    match id {
      case ChildId(pid) =>
        var i: nat :| i < |v.children| && v.children[i].pid == pid;
        ChildAt(v, i);
        SerialPid(v, i);
        assert Stuck(v, id, v.children[i].serial);
      case CommandId(h, pid) =>
        var n := v.memory[h].serial;
        assert CommandOk(v, h);
        if v.memory[h].running {
          RunningIsAwaited(v, h);
        }
        assert Stuck(v, id, n);
    }
  }

  ghost predicate Missing(events: seq<Event>, id: Id) {
    || ExitIn(events, id.pid) == None
    || (id.CommandId? && (DataIn(events, id.command, OutputBuffer) == None || DataIn(events, id.command, ErrorBuffer) == None))
  }

  /** What keeps a registration waiting is in none of the passes that it was there for. */
  lemma StuckMeansMissing(w: World, v: World, steps: seq<Step>, id: Id, n: nat)
    requires Told(w, v, steps) && Stuck(v, id, n) && (id.CommandId? ==> id.command !in v.calling)
    ensures exists j: nat :: j <= |steps| && (n < |w.history| ==> j == 0) && Missing(Fired(steps[j..]), id)
  {
    hide Fired, ExitIn, DataIn;
    if n < |w.history| {
      assert steps[0..] == steps;
      assert Follows(w.history[n], v.history[n], Fired(steps[0..]));
      assert Missing(Fired(steps[0..]), id);
    } else {
      var j: nat :| Born(v.history[n], steps, j);
      assert Follows(NewRecord(v.history[n].id), v.history[n], Fired(steps[j..]));
      assert Missing(Fired(steps[j..]), id);
    }
  }
}
