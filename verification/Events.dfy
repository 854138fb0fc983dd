/** The event loop: watched children, commands, and the callbacks postponed until a loop pass is over. */
module Events {
  import opened Wrappers
  import opened EventState
  import opened EventFlow

  class Events {
    var children: seq<Child>
    var commands: seq<Handle>
    var memory: map<Handle, Command>
    var pending: seq<Id>
    var alive: set<nat>
    var script: seq<Step>
    ghost var calling: set<Handle>
    ghost var history: seq<Record>

    ghost function Now(): World
      reads this
    {
      World(children, commands, memory, pending, alive, calling, history)
    }

    constructor (script: seq<Step>)
      ensures Valid(Now()) && this.script == script && history == []
    {
      children, commands, memory, pending, alive, calling, history := [], [], map[], [], {}, {}, [];
      this.script := script;
    }

    method EventPostpone(id: Id)
      modifies this`pending
      ensures pending == old(pending) + [id]
    {
      pending := pending + [id];
    }

    method ChildLookup(pid: nat) returns (i: nat)
      ensures i <= |children|
      ensures i < |children| ==> children[i].pid == pid
      ensures i == |children| <==> !Tracked(children, pid)
    {
      i := 0;
      while i < |children|
        invariant i <= |children|
        invariant forall j :: 0 <= j < i ==> children[j].pid != pid
      {
        if children[i].pid == pid {
          return;
        }
        i := i + 1;
      }
    }

    method CommandLookup(h: Handle, pid: nat) returns (found: bool)
      requires forall g :: g in commands <==> g in memory
      ensures found <==> Active(Now(), CommandId(h, pid))
    {
      var i: nat := 0;
      while i < |commands|
        invariant i <= |commands|
        invariant forall j :: 0 <= j < i ==> !(commands[j] == h && memory[h].pid == pid)
      {
        if commands[i] == h && memory[h].pid == pid {
          return true;
        }
        i := i + 1;
      }
      found := false;
    }

    method ChildPop(i: nat)
      requires i < |children|
      modifies this`children
      ensures children == SwapOut(old(children), i)
    {
      children := children[i := children[|children| - 1]][..|children| - 1];
    }

    method CommandCheckComplete(h: Handle)
      requires h in memory && memory[h].serial < |history|
      modifies this`pending, this`history
      ensures Now() == old(Checked(Now(), h))
    {
      if memory[h].output {
        return;
      }
      if memory[h].error {
        return;
      }
      if memory[h].running {
        return;
      }
      EventPostpone(CommandId(h, memory[h].pid));
      ghost var n := memory[h].serial;
      history := history[n := history[n].(posted := history[n].posted + 1)];
    }

    method ChldEvent(zombies: seq<Zombie>)
      requires Valid(Now())
      modifies this`children, this`alive, this`pending, this`history
      ensures Valid(Now()) && Evolves(old(Now()), Now()) && Felt(old(Now()), Now(), [ChildSignal(zombies)])
    {
      hide Valid, Evolves, Felt, ChildOk;
      var k: nat := 0;
      EvolvesAtOnce(Now());
      assert zombies[..0] == [];
      Unfelt(Now(), ChildSignal(zombies[..0]));
      while k < |zombies|
        invariant k <= |zombies| && Valid(Now()) && Evolves(old(Now()), Now())
        invariant Felt(old(Now()), Now(), [ChildSignal(zombies[..k])])
      {
        ghost var v, z := Now(), zombies[k];
        assert zombies[..k+1] == zombies[..k] + [z];
        var i := ChildLookup(zombies[k].pid);
        if i < |children| && children[i].pid in alive { // a process is waited for only once
          ghost var w := Now();
          ChildAt(w, i);
          SerialPid(w, i);
          alive := alive - {children[i].pid};
          children := children[i := children[i].(status := zombies[k].status)];
          EventPostpone(ChildId(zombies[k].pid));
          ghost var n := w.children[i].serial;
          history := history[n := history[n].(exit := Some(zombies[k].status))];
          assert Now() == Reaped(w, i, zombies[k].status);
          ReapKeeps(w, i, zombies[k].status);
          ReapFelt(w, i, z);
          EvolvesOn(old(Now()), w, Now());
        } else {
          Unfelt(Now(), ChildSignal([z]));
        }
        ZombiesFelt(old(Now()), v, Now(), zombies[..k], z);
        k := k + 1;
      }
      assert zombies[..k] == zombies;
    }

    /** Whoever asks must not have asked before; the caller extends the history. */
    method WatchChild(pid: nat, owner: Option<Handle>) returns (id: Id)
      requires !Tracked(children, pid)
      modifies this`children, this`alive
      ensures id == ChildId(pid) && alive == old(alive) + {pid}
      ensures children == old(children) + [Child(pid, owner, Exited(0), |history|)]
    {
      var i := ChildLookup(pid);
      assert i == |children|;
      children := children + [Child(pid, owner, Exited(0), |history|)];
      alive := alive + {pid};
      id := ChildId(pid);
    }

    method WatchRaw(pid: nat) returns (id: Id)
      requires Valid(Now()) && !Tracked(children, pid) && pid !in alive
      modifies this`children, this`alive, this`history
      ensures Now() == Watched(old(Now()), pid) && id == ChildId(pid)
      ensures Valid(Now()) && Evolves(old(Now()), Now())
    {
      WatchKeeps(Now(), pid);
      id := WatchChild(pid, None);
      history := history + [Record(id, None, None, NoSignal, None, false, 0, [])];
    }

    /** malloc hands out an unused address, fork an unused process. */
    method RunCommand(h: Handle, pid: nat, input: bool) returns (id: Id)
      requires Valid(Now()) && !Tracked(children, pid) && pid !in alive && h !in memory
      modifies this`children, this`alive, this`commands, this`memory, this`history
      ensures Now() == Launched(old(Now()), h, pid, input) && id == CommandId(h, pid)
      ensures Valid(Now()) && Evolves(old(Now()), Now())
    {
      LaunchKeeps(Now(), h, pid, input);
      var child := WatchChild(pid, Some(h));
      memory := memory[h := Command(pid, child, true, Exited(0), NoSignal, input, true, true, "", "", |history|)];
      commands := commands + [h];
      id := CommandId(h, pid);
      history := history + [Record(id, None, None, NoSignal, None, false, 0, [])];
    }

    method SignalSend(h: Handle, signal: Signal)
      requires CommandOk(Now(), h)
      modifies this`memory, this`history
      ensures Now() == Signalled(old(Now()), h, signal)
    {
      if memory[h].running {
        memory := memory[h := memory[h].(signal := signal)];
        ghost var n := memory[h].serial;
        history := history[n := history[n].(signal := signal)];
      }
    }

    method CommandTerminated(h: Handle, id: Id, pid: nat, status: Status)
      requires h in memory && memory[h].pid == pid && memory[h].child == id
      requires memory[h].serial < |history|
      modifies this`memory, this`pending, this`history
      ensures Now() == old(Checked(With(Now(), h, memory[h].(running := false, status := status),
                                        history[memory[h].serial].(reported := true)), h))
    {
      memory := memory[h := memory[h].(running := false, status := status)];
      ghost var n := memory[h].serial;
      history := history[n := history[n].(reported := true)];
      CommandCheckComplete(h);
    }

    /** An end of one of the three connections. */
    method CommandEvent(h: Handle, buffer: Buffer, data: string)
      requires Valid(Now()) && CommandOk(Now(), h)
      requires buffer.InputBuffer? ==> memory[h].input
      requires buffer.OutputBuffer? ==> memory[h].output
      requires buffer.ErrorBuffer? ==> memory[h].error
      modifies this`memory, this`pending, this`history
      ensures Now() == old(match buffer
                           case InputBuffer => InputEnded(Now(), h)
                           case OutputBuffer => OutputEnded(Now(), h, data)
                           case ErrorBuffer => ErrorEnded(Now(), h, data))
    {
      ghost var n := memory[h].serial;
      match buffer {
        case InputBuffer =>
          memory := memory[h := memory[h].(input := false)];
        case OutputBuffer =>
          memory := memory[h := memory[h].(output := false, out := data)];
          history := history[n := history[n].(out := Some(data))];
          CommandCheckComplete(h);
        case ErrorBuffer =>
          memory := memory[h := memory[h].(error := false, err := data)];
          history := history[n := history[n].(err := Some(data))];
          CommandCheckComplete(h);
      }
    }

    /** All of the input is written. */
    method CommandWrite(h: Handle)
      requires CommandOk(Now(), h) && memory[h].input
      modifies this`memory
      ensures Now() == InputEnded(old(Now()), h)
    {
      memory := memory[h := memory[h].(input := false)];
    }

    /** One thing that happens in a pass; what cannot happen (a closed buffer closing) does not. */
    method Fire(e: Event)
      requires Valid(Now())
      modifies this`children, this`alive, this`memory, this`pending, this`history
      ensures Valid(Now()) && Evolves(old(Now()), Now()) && Felt(old(Now()), Now(), [e])
    {
      hide Valid, Evolves, Felt, CommandOk;
      ghost var w := Now();
      EvolvesAtOnce(w);
      match e {
        case Closed(h, buffer, data) =>
          FireClosed(h, buffer, data);
        case Written(h) =>
          if h in memory && memory[h].input {
            CommandAt(w, h);
            InputKeeps(w, h);
            InputFelt(w, h, e);
            CommandWrite(h);
          } else {
            Unfelt(w, e);
          }
        case ChildSignal(zombies) =>
          ChldEvent(zombies);
        case TermTimeout(h) =>
          FireTimeout(h, SigTerm, e);
        case KillTimeout(h) =>
          FireTimeout(h, SigKill, e);
      }
    }

    method FireClosed(h: Handle, buffer: Buffer, data: string)
      requires Valid(Now())
      modifies this`memory, this`pending, this`history
      ensures Valid(Now()) && Evolves(old(Now()), Now()) && Felt(old(Now()), Now(), [Closed(h, buffer, data)])
    {
      hide Valid, Evolves, Felt, CommandOk;
      ghost var w, e := Now(), Closed(h, buffer, data);
      EvolvesAtOnce(w);
      if h !in memory {
        Unfelt(w, e);
        return;
      }
      CommandAt(w, h);
      var open :=
        match buffer
        case InputBuffer => memory[h].input
        case OutputBuffer => memory[h].output
        case ErrorBuffer => memory[h].error;
      if open {
        ClosedKeeps(w, h, buffer, data);
        match buffer {
          case InputBuffer => InputFelt(w, h, e);
          case OutputBuffer => OutputFelt(w, h, data);
          case ErrorBuffer => ErrorFelt(w, h, data);
        }
        CommandEvent(h, buffer, data);
      } else {
        Unfelt(w, e);
      }
    }

    method FireTimeout(h: Handle, signal: Signal, ghost e: Event)
      requires Valid(Now()) && ((signal.SigTerm? && e == TermTimeout(h)) || (signal.SigKill? && e == KillTimeout(h)))
      modifies this`memory, this`history
      ensures Valid(Now()) && Evolves(old(Now()), Now()) && Felt(old(Now()), Now(), [e])
    {
      hide Valid, Evolves, Felt, CommandOk;
      ghost var w := Now();
      EvolvesAtOnce(w);
      if h in memory {
        CommandAt(w, h);
        SignalKeeps(w, h, signal);
        SignalFelt(w, h, signal, e);
        SignalSend(h, signal);
      } else {
        Unfelt(w, e);
      }
    }

    /** One pass of the underlying loop: each registration learns of its events. False when it has nothing left to wait for. */
    method LoopOnce() returns (more: bool)
      requires Valid(Now())
      modifies this
      ensures Valid(Now()) && Evolves(old(Now()), Now())
      ensures more <==> old(script) != [] && old(script)[0].Pass?
      ensures more ==> script == old(script)[1..] && Felt(old(Now()), Now(), old(script)[0].events)
      ensures !more ==> script == old(script) && Now() == old(Now())
    {
      hide Valid, Evolves, Felt;
      EvolvesAtOnce(Now());
      FeltNothing(Now());
      if script == [] || !script[0].Pass? {
        return false;
      }
      var events := script[0].events;
      script := script[1..];
      var k: nat := 0;
      assert events[..0] == [];
      while k < |events|
        invariant k <= |events| && Valid(Now()) && Evolves(old(Now()), Now()) && script == old(script)[1..]
        invariant Felt(old(Now()), Now(), events[..k])
      {
        ghost var w := Now();
        Fire(events[k]);
        EvolvesOn(old(Now()), w, Now());
        FeltBoth(old(Now()), w, Now(), events[..k], [events[k]]);
        assert events[..k+1] == events[..k] + [events[k]];
        k := k + 1;
      }
      assert events[..k] == events;
      more := true;
    }

    /** What a command's callback does with the event loop: it starts, watches and waits for things, in any order, until
        it returns. */
    method Callback()
      requires Valid(Now())
      modifies this
      ensures Valid(Now()) && Ran(old(Now()), Now(), old(script), script)
      ensures |script| < |old(script)| || (script == old(script) && Now() == old(Now()))
      ensures Returned(old(script), script)
      decreases |script|, 0
    {
      hide Valid, Ran, Evolves;
      RanNothing(Now(), script);
      while script != [] && !script[0].Pass?
        invariant Valid(Now()) && Ran(old(Now()), Now(), old(script), script)
        invariant |script| < |old(script)| || (script == old(script) && Now() == old(Now()))
        decreases |script|
      {
        ghost var w, ahead := Now(), script;
        var step := script[0];
        script := script[1..];
        match step {
          case Launch(h, pid, input) =>
            var i := ChildLookup(pid);
            if i == |children| && pid !in alive && h !in memory {
              var id := RunCommand(h, pid, input);
            } else {
              EvolvesAtOnce(w);
            }
            ToldOfStep(w, Now(), step);
            RanOne(w, Now(), ahead);
          case Watch(pid) =>
            var i := ChildLookup(pid);
            if i == |children| && pid !in alive {
              var id := WatchRaw(pid);
            } else {
              EvolvesAtOnce(w);
            }
            ToldOfStep(w, Now(), step);
            RanOne(w, Now(), ahead);
          case WaitFor(ids) =>
            ToldOfStep(w, w, step);
            EvolvesAtOnce(w);
            RanOne(w, w, ahead);
            var a := new Id[|ids|](i requires 0 <= i < |ids| => ids[i]);
            var done := EventsWait(a, |ids|);
            RanBoth(w, w, Now(), ahead, ahead[1..], script);
          case Return =>
            EvolvesAtOnce(w);
            ToldOfStep(w, w, step);
            RanOne(w, w, ahead);
            RanBoth(old(Now()), w, w, old(script), ahead, script);
            RanFacts(old(Now()), w, old(script), ahead);
            return;
        }
        RanBoth(old(Now()), w, Now(), old(script), ahead, script);
      }
    }

    method CommandFree(h: Handle) returns (ghost at: nat)
      requires CommandOk(Now(), h) && !memory[h].running && h in commands
      modifies this`commands, this`memory, this`history
      ensures at < |old(commands)| && old(commands)[at] == h && commands == SwapOut(old(commands), at)
      ensures memory == old(memory) - {h} && history == old(history)
    {
      SignalSend(h, SigKill);
      var i: nat := 0;
      while i < |commands|
        invariant i <= |commands| && commands == old(commands) && memory == old(memory) && history == old(history)
        invariant forall j :: 0 <= j < i ==> commands[j] != h
      {
        if commands[i] == h {
          at := i;
          commands := commands[i := commands[|commands| - 1]][..|commands| - 1];
          break;
        }
        i := i + 1;
      }
      assert at < |old(commands)|;
      memory := memory - {h};
    }

    /** The postponed report of a child that is first in the queue. */
    method ReportChild(pid: nat)
      requires Valid(Now()) && pending != [] && pending[0] == ChildId(pid)
      modifies this
      ensures Valid(Now()) && Ran(old(Now()), Now(), old(script), script)
      ensures script == old(script) && |children| < |old(children)|
      ensures exists i: nat :: AtHead(old(Now()), i) && Now() == Delivered(old(Now()), i)
    {
      hide Valid, Evolves, Ran;
      ghost var w := Now();
      QueuedIsKnown(w);
      var i := ChildLookup(pid);
      assert i < |children|;
      HeadIsReport(w, i);
      DeliverKeeps(w, i);
      var id := pending[0];
      pending := pending[1..];
      ghost var n := children[i].serial;
      match children[i].owner {
        case None =>
          history := history[n := history[n].(reported := true)];
        case Some(h) =>
          CommandTerminated(h, id, pid, children[i].status);
      }
      ChildPop(i);
      assert Now() == Delivered(w, i);
      DeliverTells(w, i);
      RanAtOnce(w, Now(), script);
    }

    /** The postponed callback of a command that is first in the queue. */
    method CallCommand(h: Handle, pid: nat)
      requires Valid(Now()) && pending != [] && pending[0] == CommandId(h, pid)
      modifies this
      ensures Valid(Now()) && Ran(old(Now()), Now(), old(script), script) && Returned(old(script), script)
      ensures |script| < |old(script)|
              || (script == old(script) && |children| == |old(children)| && |pending| < |old(pending)|)
      decreases |script|, 1
    {
      hide Valid, Evolves, Ran;
      ghost var w := Now();
      QueuedIsKnown(w);
      var found := CommandLookup(h, pid);
      assert found;
      CallKeeps(w, h);
      var killed := KillStatusOf(memory[h].signal, memory[h].status);
      pending := pending[1..];
      ghost var n := memory[h].serial;
      ghost var call := Call(memory[h].status, killed, memory[h].out, memory[h].err);
      history := history[n := history[n].(calls := history[n].calls + [call])];
      calling := calling + {h};
      assert Now() == Called(w, h);
      CallTells(w, h);
      Callback();
      ghost var u := Now();
      RanFacts(Called(w, h), u, old(script), script);
      StillInCallback(Called(w, h), u, h);
      ghost var at := CommandFree(h);
      calling := calling - {h};
      assert Now() == Freed(u, h, at);
      FreeKeeps(u, h, at);
      CallRoundEvolves(w, u, h, at);
      CallRoundRan(w, u, h, at, old(script), script);
    }

    /** The first postponed callback runs, and what it was registered for is dropped. */
    method DeliverOne()
      requires Valid(Now()) && pending != []
      modifies this
      ensures Valid(Now()) && Ran(old(Now()), Now(), old(script), script)
      ensures || |script| < |old(script)|
              || (script == old(script) && |children| < |old(children)|)
              || (script == old(script) && |children| == |old(children)| && |pending| < |old(pending)|)
      decreases |script|, 2
    {
      match pending[0] {
        case ChildId(pid) => ReportChild(pid);
        case CommandId(h, pid) => CallCommand(h, pid);
      }
    }

    /** Wait until none of the first n ids names anything any more. False if the loop ran dry before, which it does at once
        or with something that one of the ids stands for still missing. */
    method EventsWait(ids: array<Id>, n: nat) returns (done: bool)
      requires Valid(Now()) && n <= ids.Length
      modifies this, ids
      ensures Valid(Now()) && Ran(old(Now()), Now(), old(script), script)
      ensures |script| <= |old(script)|
      ensures n > 0 ==> pending == []
      ensures done ==> forall id :: id in old(ids[..n]) ==> Over(old(Now()), Now(), id)
      ensures !done ==> script == [] || !script[0].Pass?
      ensures !done ==> (Now() == old(Now()) && script == old(script)) || exists id :: id in old(ids[..n]) && IsStuck(Now(), id)
      decreases |script|, 4
    {
      hide Valid, Evolves, Over, Ran, IsStuck;
      ghost var w := Now();
      ghost var wanted := ids[..n];
      ghost var untouched := true;
      var nid: nat := n;
      RanNothing(w, script);
      while nid > 0
        invariant nid <= n && Valid(Now()) && Ran(w, Now(), old(script), script)
        invariant |script| <= |old(script)|
        invariant if untouched then nid == n && Now() == w && script == old(script) else pending == []
        invariant !untouched && nid > 0 ==> Active(Now(), ids[0])
        invariant forall id :: id in ids[..nid] ==> id in wanted
        invariant forall id :: id in wanted ==> id in ids[..nid] || Over(w, Now(), id)
        decreases |script|, |pending|
      {
        ghost var before, left := Now(), ids[..nid];
        ghost var steps := script;
        if pending == [] {
          var more := LoopOnce();
          if !more {
            assert ids[0] == left[0];
            if !untouched { ActiveIsStuck(Now(), ids[0]); }
            return false;
          }
          ToldOfPass(before, Now(), steps[0].events);
          RanOne(before, Now(), steps);
        } else {
          RanNothing(before, script);
        }
        DeliverAll(before, steps);
        RanBoth(w, before, Now(), old(script), steps, script);
        RanFacts(before, Now(), steps, script);
        RanFacts(w, Now(), old(script), script);
        ghost var v := Now();
        forall id | id in wanted ensures id in left || Over(w, v, id) {
          if id !in left {
            OverStays(w, before, v, id);
          }
        }
        nid := DropInactive(ids, n, nid, w, wanted);
        untouched := false;
      }
      done := true;
    }

    /** Runs what is queued, and what is queued meanwhile. */
    method DeliverAll(ghost before: World, ghost steps: seq<Step>)
      requires Valid(Now()) && Ran(before, Now(), steps, script) && |script| <= |steps|
      modifies this
      ensures Valid(Now()) && Ran(before, Now(), steps, script) && pending == []
      ensures |script| <= |old(script)| && (old(pending) == [] ==> Now() == old(Now()) && script == old(script))
      decreases |script|, 3
    {
      hide Valid, Ran;
      while pending != []
        invariant Valid(Now()) && Ran(before, Now(), steps, script)
        invariant |script| <= |old(script)| && (old(pending) == [] ==> Now() == old(Now()) && script == old(script))
        decreases |script|, |children|, |pending|
      {
        ghost var u, ahead := Now(), script;
        DeliverOne();
        RanBoth(before, u, Now(), steps, ahead, script);
      }
    }

    /** Takes ids that name nothing any more off the front, and puts the last one in their place. */
    method DropInactive(ids: array<Id>, ghost n: nat, nid0: nat, ghost w: World, ghost wanted: seq<Id>) returns (nid: nat)
      requires nid0 <= n <= ids.Length && Valid(w) && Valid(Now()) && Evolves(w, Now())
      requires forall id :: id in ids[..nid0] ==> id in wanted
      requires forall id :: id in wanted ==> id in ids[..nid0] || Over(w, Now(), id)
      modifies ids
      ensures nid <= nid0 && (nid > 0 ==> Active(Now(), ids[0]))
      ensures forall id :: id in ids[..nid] ==> id in wanted
      ensures forall id :: id in wanted ==> id in ids[..nid] || Over(w, Now(), id)
    {
      hide Valid, Evolves, Over;
      ghost var v := Now();
      QueuedIsKnown(v);
      nid := nid0;
      while nid > 0
        invariant nid <= nid0
        invariant forall id :: id in ids[..nid] ==> id in wanted
        invariant forall id :: id in wanted ==> id in ids[..nid] || Over(w, v, id)
      {
        var found: bool;
        match ids[0] {
          case ChildId(pid) =>
            var i := ChildLookup(pid);
            found := i < |children|;
          case CommandId(h, pid) =>
            found := CommandLookup(h, pid);
        }
        if found {
          return;
        }
        InactiveIsOver(w, v, ids[0]);
        nid := nid - 1;
        ghost var was := ids[..nid + 1];
        ids[0] := ids[nid];
        DropFirst(was, ids[..nid]);
        TakenFrom(was, ids[..nid]);
      }
    }
  }
}
