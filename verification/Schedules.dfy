/** Schedules in which processes without a lock do break what one process alone keeps. */
module Schedules {
  import opened Wrappers
  import opened Policy
  import opened State
  import opened ConfigDir
  import opened Store
  import opened MacRuntime
  import opened Commands
  import opened Interleaving
  import opened Uninterrupted
  import opened Interference
  import Agreement
  import Instances
  import Lawful
  import Lifecycle
  import Runs

  // ---------- Schedules that lose something ----------

  /** One more event: a process is started. */
  lemma Spawned(setting: Setting, events: seq<Event>, pid: nat, c: Command)
    requires Happens(Reached(setting, events), Spawn(pid, c))
    ensures var s := Reached(setting, events);
            Reached(setting, events + [Spawn(pid, c)]) ==
            System(s.disk, s.processes[pid := Start(setting, c)], s.issued + if c.Create? then {c.input.uuid} else {})
  {
    ReachedSnoc(setting, events, Spawn(pid, c));
    hide Reached, Start;
  }

  /** One more event: a process that is at `todo` takes a step. */
  lemma Stepped(setting: Setting, events: seq<Event>, pid: nat, p: Process)
    requires var s := Reached(setting, events); pid in s.processes && s.processes[pid] == p && p.todo != []
    ensures var s := Reached(setting, events);
            var o := Act(s.disk, p);
            Reached(setting, events + [Step(pid)]) ==
            System(if o.written.Some? then o.written.value else s.disk, s.processes[pid := o.after], s.issued)
  {
    ReachedSnoc(setting, events, Step(pid));
    hide Reached, Act;
  }

  /** The first action of `[a] + rest`, for the actions of the schedules below. */
  lemma Acts(d: Disk, rest: seq<Action>, loaded: State, record: Option<Record>)
    requires d.index.Some?
    ensures Act(d, Process([CheckIndex] + rest, loaded, record)) == Outcome(None, Process(rest, loaded, record))
    ensures Act(d, Process([LoadIndex] + rest, loaded, record)) == Outcome(None, Process(rest, d.index.value, record))
    ensures forall name :: Act(d, Process([SaveTouched(name)] + rest, loaded, record)) ==
                           Outcome(Some(d.(index := Some(Touched(loaded, name)))), Process(rest, loaded, record))
  {
    assert forall a: Action :: ([a] + rest)[1..] == rest;
  }

  lemma ActsWriting(d: Disk, name: string, text: string, rest: seq<Action>, loaded: State, record: Option<Record>)
    ensures Act(d, Process([WritePolicyFile(name, text)] + rest, loaded, record)) ==
            Outcome(Some(d.(policies := d.policies[name := text])), Process(rest, loaded, record))
  {
    assert ([WritePolicyFile(name, text)] + rest)[1..] == rest;
  }


  /** Two events in: the process is started and has found an index. */
  lemma Opened(setting: Setting, events: seq<Event>, pid: nat, c: Command)
    requires var s := Reached(setting, events); s.disk.index.Some? && Happens(s, Spawn(pid, c))
    ensures var s := Reached(setting, events);
            var p := Start(setting, c);
            Reached(setting, events + [Spawn(pid, c), Step(pid)]) ==
            System(s.disk, s.processes[pid := Process(BodyScript(setting, c), EMPTY_STATE, p.record)],
                   s.issued + if c.Create? then {c.input.uuid} else {})
  {
    hide Reached;
    var e1 := events + [Spawn(pid, c)];
    Spawned(setting, events, pid, c);
    assert events + [Spawn(pid, c), Step(pid)] == e1 + [Step(pid)];
    var p := Start(setting, c);
    assert p == Process([CheckIndex] + BodyScript(setting, c), EMPTY_STATE, p.record) by {
      hide BodyScript, RecordOf;
    }
    Stepped(setting, e1, pid, p);
    Acts(Reached(setting, events).disk, BodyScript(setting, c), EMPTY_STATE, p.record);
    hide Start, BodyScript, Act;
  }

  lemma ActsRemoving(d: Disk, target: string)
    requires d.index.Some? && RemoveFrom(d.index.value, target).Some?
    ensures var (rest, gone) := RemoveFrom(d.index.value, target).value;
            var drop := Cleanup(gone);
            Act(d, Process([SaveRemoved(target)], d.index.value, None)) ==
            Outcome(Some(d.(index := Some(rest))), Process(drop, d.index.value, None))
  {
    hide RemoveFrom;
  }

  /** Three steps into an rm: the index is written, the policy file is not yet removed. */
  lemma RmUntilIndexed(setting: Setting, events: seq<Event>, pid: nat, target: string)
    requires var s := Reached(setting, events);
             && s.disk.index.Some? && pid !in s.processes && RemoveFrom(s.disk.index.value, target).Some?
    ensures var s := Reached(setting, events);
            var (rest, gone) := RemoveFrom(s.disk.index.value, target).value;
            var drop := Cleanup(gone);
            Reached(setting, events + [Spawn(pid, Rm(target, true)), Step(pid), Step(pid), Step(pid)]) ==
            System(s.disk.(index := Some(rest)),
                   s.processes[pid := Process(drop, s.disk.index.value, None)], s.issued)
  {
    hide Reached, Act;
    var s := Reached(setting, events);
    var c := Rm(target, true);
    Opened(setting, events, pid, c);
    var e2 := events + [Spawn(pid, c), Step(pid)];
    var p2 := Process([LoadIndex] + [SaveRemoved(target)], EMPTY_STATE, None);
    Stepped(setting, e2, pid, p2);
    Acts(s.disk, [SaveRemoved(target)], EMPTY_STATE, None);
    Stepped(setting, e2 + [Step(pid)], pid, Process([SaveRemoved(target)], s.disk.index.value, None));
    ActsRemoving(s.disk, target);
    assert events + [Spawn(pid, c), Step(pid), Step(pid), Step(pid)] == e2 + [Step(pid)] + [Step(pid)];
    assert s.issued + {} == s.issued;
  }

  /**
   Crash consistency is not interleaving consistency: when a create of the same name falls
   between an rm's index write and its file removal, the new sandbox loses its policy file.
   */
  lemma {:induction false} RmCanTakeNewPolicy(setting: Setting, events: seq<Event>, rm: nat, create: nat,
                                              target: string, input: CreateInput)
    returns (more: seq<Event>)
    requires var s := Reached(setting, events);
             && s.disk.index.Some? && rm != create && rm !in s.processes && create !in s.processes
             && input.uuid != "" && input.uuid !in s.issued
             && RemoveFrom(s.disk.index.value, target).Some?
             && RemoveFrom(s.disk.index.value, target).value.1.name == NameOf(input)
    requires Runs.ReachesStore(NEW_DISK, setting, input)
    ensures var d := Reached(setting, events + more).disk;
            Stored(d, NameOf(input)) && NameOf(input) !in d.policies
  {
    var s := Reached(setting, events);
    hide Reached, RemoveFrom, DirOf, Prepared, RuntimeEffect, Runs.Done, Runs.ReachesStore, Next, Proper;
    IndexIsProper(setting, events);
    NameIsFree(s.disk.index.value, target, s.issued);
    RmUntilIndexed(setting, events, rm, target);
    var first := [Spawn(rm, Rm(target, true)), Step(rm), Step(rm), Step(rm)];
    var e4 := events + first;
    var s4 := Reached(setting, e4);
    CreateStores(setting, s4.disk, input);
    var mine := UninterruptedIsSequential(setting, e4, create, Create(input));
    var e5 := e4 + [Spawn(create, Create(input))] + mine;
    var s5 := Reached(setting, e5);
    assert s5.processes[rm].todo[0] == DropPolicyFile(NameOf(input));
    ReachedSnoc(setting, e5, Step(rm));
    DropsPolicy(setting, s5, rm, NameOf(input));
    more := first + [Spawn(create, Create(input))] + mine + [Step(rm)];
    assert events + more == e5 + [Step(rm)];
  }

  lemma DropsPolicy(setting: Setting, s: System, pid: nat, name: string)
    requires Happens(s, Step(pid)) && s.processes[pid].todo[0] == DropPolicyFile(name)
    ensures Next(setting, s, Step(pid)).disk == s.disk.(policies := s.disk.policies - {name})
  {
  }

  lemma {:induction false} IndexIsProper(setting: Setting, events: seq<Event>)
    requires Reached(setting, events).disk.index.Some?
    ensures Proper(Reached(setting, events).disk.index.value, Reached(setting, events).issued)
  {
    AlwaysCoherent(setting, events);
    hide Reached;
  }

  lemma NameIsFree(s: State, target: string, issued: set<string>)
    requires Proper(s, issued) && RemoveFrom(s, target).Some?
    ensures var (rest, gone) := RemoveFrom(s, target).value; !HasName(rest.sandboxes, gone.name)
  {
    var (rest, gone) := RemoveFrom(s, target).value;
    forall i | 0 <= i < |rest.sandboxes|
      ensures rest.sandboxes[i].name != gone.name
    {
      Lifecycle.RemovedLeaves(s, target, i);
    }
  }

  lemma CreateStores(setting: Setting, d: Disk, input: CreateInput)
    requires !Stored(d, NameOf(input)) && Runs.ReachesStore(NEW_DISK, setting, input)
    ensures Stored(Runs.Done(d, setting, Create(input)), NameOf(input))
  {
    var d0 := After(d, OpenWrites(d));
    Runs.DoneAfterOpening(d, setting, Create(input));
    assert Runs.ReachesStore(d0, setting, input) by {
      hide Prepared;
      RuntimeResult(d0, setting, input, Prepared(setting, input).value);
    }
    Runs.CreateEnds(d0, setting, input);
    Runs.CreatedRecordIs(d0, setting, input);
    assert !HasName(d0.index.value.sandboxes, NameOf(input));
    hide RuntimeEffect, CreateEffect, Prepared, Runs.Done, Runs.ReachesStore, Runs.CreatedRecord;
    InsertedNames(d0.index.value, Runs.CreatedRecord(d0, setting, input), NameOf(input));
  }

  /**
   The unchecked touch: when a sandbox is removed between an exec's lookup and its touch,
   the last used name dangles, and asking for no name still finds a stored sandbox.
   */
  lemma {:induction false} TouchCanDangle(setting: Setting, events: seq<Event>, exec: nat, rm: nat, key: string)
    returns (more: seq<Event>)
    requires var s := Reached(setting, events);
             && s.disk.index.Some? && rm != exec && rm !in s.processes && exec !in s.processes
             && Find(s.disk.index.value.sandboxes, key).Some?
    ensures var d := Reached(setting, events + more).disk;
            && d.index.Some? && !LastUsedStored(d.index.value)
            && (GetOrLast(d.index.value, None).Some? <==> d.index.value.sandboxes != [])
  {
    var s := Reached(setting, events);
    hide Reached, RemoveFrom, Find, GetOrLast, Next, Proper, Runs.Done, RmEffect, CommandEffect;
    var index := s.disk.index.value;
    IndexIsProper(setting, events);
    RemoveTakesFound(index, key);
    NameIsFree(index, key, s.issued);
    var (rest, found) := RemoveFrom(index, key).value;
    assert !LastUsedStored(Touched(rest, found.name));
    GetOrLastFinds(Touched(rest, found.name));
    ExecUntilFound(setting, events, exec, key);
    hide LastUsedStored;
    var first := [Spawn(exec, Exec(Some(key), true)), Step(exec), Step(exec)];
    var e3 := events + first;
    var mine := UninterruptedIsSequential(setting, e3, rm, Rm(key, true));
    var e4 := e3 + [Spawn(rm, Rm(key, true))] + mine;
    Runs.DoneInOpenStore(s.disk, setting, Rm(key, true));
    Runs.RmEnds(s.disk, key, true);
    assert Reached(setting, e4).disk.index == Some(rest);
    LoadThenTouch(setting, e4, exec, found.name);
    more := first + [Spawn(rm, Rm(key, true))] + mine + [Step(exec), Step(exec)];
    assert events + more == e4 + [Step(exec), Step(exec)];
  }

  lemma ExecUntilFound(setting: Setting, events: seq<Event>, pid: nat, key: string)
    requires var s := Reached(setting, events);
             && s.disk.index.Some? && pid !in s.processes && Find(s.disk.index.value.sandboxes, key).Some?
    ensures var s := Reached(setting, events);
            var found := Find(s.disk.index.value.sandboxes, key).value;
            var p := Process([LoadIndex, SaveTouched(found.name)], EMPTY_STATE, None);
            Reached(setting, events + [Spawn(pid, Exec(Some(key), true)), Step(pid), Step(pid)]) ==
            System(s.disk, s.processes[pid := p], s.issued)
  {
    hide Reached;
    hide Find;
    var s := Reached(setting, events);
    var c := Exec(Some(key), true);
    Opened(setting, events, pid, c);
    var e2 := events + [Spawn(pid, c), Step(pid)];
    Stepped(setting, e2, pid, Process([Locate(Some(key), ToTouch)], EMPTY_STATE, None));
    assert events + [Spawn(pid, c), Step(pid), Step(pid)] == e2 + [Step(pid)];
    assert s.issued + {} == s.issued;
  }

  lemma LoadThenTouch(setting: Setting, events: seq<Event>, pid: nat, name: string)
    requires var s := Reached(setting, events);
             && s.disk.index.Some? && pid in s.processes && s.processes[pid].todo == [LoadIndex, SaveTouched(name)]
    ensures var s := Reached(setting, events);
            Reached(setting, events + [Step(pid), Step(pid)]).disk ==
            s.disk.(index := Some(Touched(s.disk.index.value, name)))
  {
    hide Reached, Act;
    var s := Reached(setting, events);
    var p := s.processes[pid];
    assert p.todo == [LoadIndex] + [SaveTouched(name)];
    Stepped(setting, events, pid, p);
    Acts(s.disk, [SaveTouched(name)], p.loaded, p.record);
    assert [SaveTouched(name)] + [] == [SaveTouched(name)];
    Stepped(setting, events + [Step(pid)], pid, Process([SaveTouched(name)], s.disk.index.value, p.record));
    Acts(s.disk, [], s.disk.index.value, p.record);
    assert events + [Step(pid), Step(pid)] == events + [Step(pid)] + [Step(pid)];
  }

  lemma ContainerScript(setting: Setting, input: CreateInput)
    requires Runs.ReachesStore(NEW_DISK, setting, input)
    requires Prepared(setting, input).value.mechanism != Some(Mac)
    ensures Prepared(setting, input).Success?
    ensures RecordOf(setting, input).Some?
    ensures Start(setting, Create(input)).record == RecordOf(setting, input)
    ensures BodyScript(setting, Create(input)) ==
            [WritePolicyFile(NameOf(input), setting.yaml.render(Prepared(setting, input).value)),
             LoadIndex, SaveInserted]
  {
    hide Prepared, RuntimeEffect, NewRecord;
  }

  lemma WriteThenLoad(setting: Setting, events: seq<Event>, pid: nat, name: string, text: string,
                      record: Option<Record>)
    requires var s := Reached(setting, events);
             && s.disk.index.Some? && pid in s.processes
             && s.processes[pid] == Process([WritePolicyFile(name, text), LoadIndex, SaveInserted], EMPTY_STATE, record)
    ensures var s := Reached(setting, events);
            var s' := Reached(setting, events + [Step(pid), Step(pid)]);
            && s'.disk.index == s.disk.index && s'.issued == s.issued
            && s'.processes == s.processes[pid := Process([SaveInserted], s.disk.index.value, record)]
  {
    hide Reached, Act;
    var s := Reached(setting, events);
    var loading := [LoadIndex] + [SaveInserted];
    assert [WritePolicyFile(name, text), LoadIndex, SaveInserted] == [WritePolicyFile(name, text)] + loading;
    Stepped(setting, events, pid, Process([WritePolicyFile(name, text)] + loading, EMPTY_STATE, record));
    ActsWriting(s.disk, name, text, loading, EMPTY_STATE, record);
    var d := s.disk.(policies := s.disk.policies[name := text]);
    Stepped(setting, events + [Step(pid)], pid, Process(loading, EMPTY_STATE, record));
    Acts(d, [SaveInserted], EMPTY_STATE, record);
    assert events + [Step(pid), Step(pid)] == events + [Step(pid)] + [Step(pid)];
  }

  /** Three steps into a container create: the policy file is written and the index is loaded. */
  lemma CreateUntilLoaded(setting: Setting, events: seq<Event>, pid: nat, c: Command, name: string, text: string)
    requires var s := Reached(setting, events); s.disk.index.Some? && Happens(s, Spawn(pid, c)) && c.Create?
    requires BodyScript(setting, c) == [WritePolicyFile(name, text), LoadIndex, SaveInserted]
    ensures var s := Reached(setting, events);
            var s' := Reached(setting, events + [Spawn(pid, c), Step(pid), Step(pid), Step(pid)]);
            && s'.disk.index == s.disk.index
            && s'.processes ==
               s.processes[pid := Process([SaveInserted], s.disk.index.value, Start(setting, c).record)]
            && s'.issued == s.issued + {c.input.uuid}
  {
    hide Reached, BodyScript, Start;
    Opened(setting, events, pid, c);
    var e2 := events + [Spawn(pid, c), Step(pid)];
    WriteThenLoad(setting, e2, pid, name, text, Start(setting, c).record);
    assert events + [Spawn(pid, c), Step(pid), Step(pid), Step(pid)] == e2 + [Step(pid), Step(pid)];
  }

  /**
   A lost update: a create that runs whole between another create's load and its save
   succeeds, and is not stored afterwards.
   */
  lemma {:induction false} CreateCanBeLost(setting: Setting, events: seq<Event>, slow: nat, quick: nat,
                                           first: CreateInput, second: CreateInput)
    returns (more: seq<Event>)
    requires var s := Reached(setting, events);
             && s.disk.index.Some? && Happens(s, Spawn(slow, Create(first))) && Happens(s, Spawn(quick, Create(second)))
             && slow != quick && first.uuid != second.uuid && NameOf(first) != NameOf(second)
             && !HasName(s.disk.index.value.sandboxes, NameOf(first))
             && !HasName(s.disk.index.value.sandboxes, NameOf(second))
    requires Runs.ReachesStore(NEW_DISK, setting, first) && Runs.ReachesStore(NEW_DISK, setting, second)
    requires Prepared(setting, first).value.mechanism != Some(Mac)
    ensures exists n :: 0 <= n <= |more| && Stored(Reached(setting, events + more[..n]).disk, NameOf(second))
    ensures !Stored(Reached(setting, events + more).disk, NameOf(second))
  {
    hide Reached, Prepared, RuntimeEffect, Runs.Done, Runs.ReachesStore, Next, Stored, Act, Start, BodyScript, RecordOf;
    var s := Reached(setting, events);
    ContainerScript(setting, first);
    CreateUntilLoaded(setting, events, slow, Create(first), NameOf(first),
                      setting.yaml.render(Prepared(setting, first).value));
    var start := [Spawn(slow, Create(first)), Step(slow), Step(slow), Step(slow)];
    var e4 := events + start;
    var s4 := Reached(setting, e4);
    assert !Stored(s4.disk, NameOf(second)) by {
      NotStored(s4.disk, NameOf(second));
    }
    CreateStores(setting, s4.disk, second);
    var mine := UninterruptedIsSequential(setting, e4, quick, Create(second));
    var middle := start + [Spawn(quick, Create(second))] + mine;
    assert events + middle == e4 + [Spawn(quick, Create(second))] + mine;
    more := middle + [Step(slow)];
    assert more[..|middle|] == middle;
    assert events + more == (events + middle) + [Step(slow)];
    ReachedSnoc(setting, events + middle, Step(slow));
    RecordHasName(setting, first);
    StaleInsert(setting, Reached(setting, events + middle), slow, s.disk.index.value, RecordOf(setting, first).value,
                NameOf(second));
  }

  lemma NotStored(d: Disk, name: string)
    ensures Stored(d, name) <==> d.index.Some? && HasName(d.index.value.sandboxes, name)
  {
  }

  lemma RecordHasName(setting: Setting, input: CreateInput)
    requires RecordOf(setting, input).Some?
    ensures RecordOf(setting, input).value.name == NameOf(input)
  {
    hide Prepared, RuntimeEffect;
  }

  lemma StaleInsert(setting: Setting, s: System, pid: nat, loaded: State, record: Record, other: string)
    requires Happens(s, Step(pid)) && s.processes[pid] == Process([SaveInserted], loaded, Some(record))
    requires !HasName(loaded.sandboxes, record.name) && !HasName(loaded.sandboxes, other) && record.name != other
    ensures !Stored(Next(setting, s, Step(pid)).disk, other)
  {
    var rs := loaded.sandboxes + [record];
    forall i | 0 <= i < |rs|
      ensures rs[i].name != other
    {
      if i < |loaded.sandboxes| {
        assert loaded.sandboxes[i].name != other;
      }
    }
  }

  lemma ExecUntilLoaded(setting: Setting, events: seq<Event>, pid: nat, key: string)
    requires var s := Reached(setting, events);
             && s.disk.index.Some? && pid !in s.processes && Find(s.disk.index.value.sandboxes, key).Some?
    ensures var s := Reached(setting, events);
            var found := Find(s.disk.index.value.sandboxes, key).value;
            Reached(setting, events + [Spawn(pid, Exec(Some(key), true)), Step(pid), Step(pid), Step(pid)]) ==
            System(s.disk, s.processes[pid := Process([SaveTouched(found.name)], s.disk.index.value, None)], s.issued)
  {
    hide Reached, Act, Find;
    var s := Reached(setting, events);
    var name := Find(s.disk.index.value.sandboxes, key).value.name;
    ExecUntilFound(setting, events, pid, key);
    var e3 := events + [Spawn(pid, Exec(Some(key), true)), Step(pid), Step(pid)];
    Stepped(setting, e3, pid, Process([LoadIndex] + [SaveTouched(name)], EMPTY_STATE, None));
    Acts(s.disk, [SaveTouched(name)], EMPTY_STATE, None);
    assert events + [Spawn(pid, Exec(Some(key), true)), Step(pid), Step(pid), Step(pid)] == e3 + [Step(pid)];
  }

  lemma RemovedIsFound(s: State, key: string)
    requires Find(s.sandboxes, key).Some?
    ensures RemoveFrom(s, key).Some? && RemoveFrom(s, key).value.1 == Find(s.sandboxes, key).value
  {
  }

  lemma RmDone(setting: Setting, d: Disk, key: string)
    requires d.index.Some? && Find(d.index.value.sandboxes, key).Some?
    ensures var d' := Runs.Done(d, setting, Rm(key, true));
            d'.index.Some? && Find(d.index.value.sandboxes, key).value.name !in d'.policies
  {
    RemovedIsFound(d.index.value, key);
    Runs.DoneInOpenStore(d, setting, Rm(key, true));
    Runs.RmEnds(d, key, true);
    hide RemoveFrom, Find, RmEffect, CommandEffect, Runs.Done;
  }

  lemma FoundHasName(rs: seq<Record>, key: string)
    requires Find(rs, key).Some?
    ensures HasName(rs, Find(rs, key).value.name)
  {
  }

  /**
   A removed sandbox comes back without its policy file: an exec that loaded the index before
   an rm writes its copy after it.
   */
  lemma StaleTouchRevives(setting: Setting, events: seq<Event>, exec: nat, rm: nat, key: string)
    returns (more: seq<Event>)
    requires var s := Reached(setting, events);
             && s.disk.index.Some? && rm != exec && rm !in s.processes && exec !in s.processes
             && Find(s.disk.index.value.sandboxes, key).Some?
    ensures var index := Reached(setting, events).disk.index.value;
            var name := Find(index.sandboxes, key).value.name;
            var d := Reached(setting, events + more).disk;
            d.index == Some(Touched(index, name)) && Stored(d, name) && name !in d.policies
  {
    hide Reached, Find, Runs.Done, HasName, Act;
    var s := Reached(setting, events);
    var index := s.disk.index.value;
    FoundHasName(index.sandboxes, key);
    var name := Find(index.sandboxes, key).value.name;
    ExecUntilLoaded(setting, events, exec, key);
    var first := [Spawn(exec, Exec(Some(key), true)), Step(exec), Step(exec), Step(exec)];
    var e4 := events + first;
    var mine := UninterruptedIsSequential(setting, e4, rm, Rm(key, true));
    RmDone(setting, s.disk, key);
    var e5 := e4 + [Spawn(rm, Rm(key, true))] + mine;
    assert [SaveTouched(name)] + [] == [SaveTouched(name)];
    Stepped(setting, e5, exec, Process([SaveTouched(name)], index, None));
    Acts(Runs.Done(s.disk, setting, Rm(key, true)), [], index, None);
    more := first + [Spawn(rm, Rm(key, true))] + mine + [Step(exec)];
    assert events + more == e5 + [Step(exec)];
  }

  /** Two events in: the process is started and has found no index. */
  lemma OpenUntilChecked(setting: Setting, events: seq<Event>, pid: nat, c: Command)
    requires var s := Reached(setting, events); s.disk.index.None? && Happens(s, Spawn(pid, c)) && !c.Create?
    ensures var s := Reached(setting, events);
            var s' := Reached(setting, events + [Spawn(pid, c), Step(pid)]);
            && s'.disk == s.disk && s'.issued == s.issued
            && s'.processes.Keys == s.processes.Keys + {pid}
            && s'.processes[pid].todo != [] && s'.processes[pid].todo[0] == WriteEmptyIndex
  {
    hide Reached, BodyScript;
    var s := Reached(setting, events);
    Spawned(setting, events, pid, c);
    var p := Start(setting, c);
    Stepped(setting, events + [Spawn(pid, c)], pid, p);
    assert p.todo[0] == CheckIndex;
    assert events + [Spawn(pid, c), Step(pid)] == events + [Spawn(pid, c)] + [Step(pid)];
  }

  lemma ActsEmptying(d: Disk, p: Process)
    requires p.todo != [] && p.todo[0] == WriteEmptyIndex
    ensures Act(d, p).written == Some(d.(index := Some(EMPTY_STATE)))
  {
  }

  /**
   Opening checks before it writes: a process that found no index empties the store after
   another one's create succeeded.
   */
  lemma OpenCanEmptyStore(setting: Setting, events: seq<Event>, slow: nat, quick: nat, c: Command, input: CreateInput)
    returns (more: seq<Event>)
    requires var s := Reached(setting, events);
             && s.disk.index.None? && slow != quick && !c.Create?
             && Happens(s, Spawn(slow, c)) && Happens(s, Spawn(quick, Create(input)))
    requires Runs.ReachesStore(NEW_DISK, setting, input)
    ensures exists n :: 0 <= n <= |more| && Stored(Reached(setting, events + more[..n]).disk, NameOf(input))
    ensures Reached(setting, events + more).disk.index == Some(EMPTY_STATE)
  {
    hide Reached, Runs.Done, Act, Runs.ReachesStore;
    var s := Reached(setting, events);
    OpenUntilChecked(setting, events, slow, c);
    var first := [Spawn(slow, c), Step(slow)];
    var e2 := events + first;
    var mine := UninterruptedIsSequential(setting, e2, quick, Create(input));
    CreateStores(setting, s.disk, input);
    var middle := first + [Spawn(quick, Create(input))] + mine;
    assert events + middle == e2 + [Spawn(quick, Create(input))] + mine;
    var s3 := Reached(setting, events + middle);
    Stepped(setting, events + middle, slow, s3.processes[slow]);
    ActsEmptying(s3.disk, s3.processes[slow]);
    more := middle + [Step(slow)];
    assert more[..|middle|] == middle;
    assert events + more == events + middle + [Step(slow)];
  }

  /**
   A create loses its own policy file without any stale copy: it writes the file, the rm of the
   sandbox that had the name removes it, and only then the create loads the index and saves.
   */
  lemma OwnFileIsDropped(setting: Setting, events: seq<Event>, rm: nat, create: nat, target: string,
                         input: CreateInput)
    returns (more: seq<Event>)
    requires var s := Reached(setting, events);
             && s.disk.index.Some? && rm != create && rm !in s.processes
             && Happens(s, Spawn(create, Create(input)))
             && RemoveFrom(s.disk.index.value, target).Some?
             && RemoveFrom(s.disk.index.value, target).value.1.name == NameOf(input)
    requires Runs.ReachesStore(NEW_DISK, setting, input)
    requires Prepared(setting, input).value.mechanism != Some(Mac)
    ensures more == [Spawn(rm, Rm(target, true)), Step(rm), Step(rm), Step(rm)]
                    + [Spawn(create, Create(input)), Step(create)]
                    + [Step(create), Step(rm), Step(create), Step(create)]
    ensures var d := Reached(setting, events + more).disk;
            Stored(d, NameOf(input)) && NameOf(input) !in d.policies
  {
    var s := Reached(setting, events);
    var index := s.disk.index.value;
    IndexIsProper(setting, events);
    NameIsFree(index, target, s.issued);
    hide Reached, RemoveFrom, Prepared, RecordOf, Runs.ReachesStore, Proper, HasName;
    var (rest, gone) := RemoveFrom(index, target).value;
    RmUntilIndexed(setting, events, rm, target);
    var front := [Spawn(rm, Rm(target, true)), Step(rm), Step(rm), Step(rm)];
    var middle := [Spawn(create, Create(input)), Step(create)];
    var last := [Step(create), Step(rm), Step(create), Step(create)];
    var text := OpenedContainer(setting, events + front, create, input);
    hide Cleanup;
    LateInsert(setting, events + front + middle, rm, create, NameOf(input), text, gone, rest,
               RecordOf(setting, input).value);
    more := front + middle + last;
    Grouped(events, front, middle, last);
  }

  lemma Grouped(events: seq<Event>, a: seq<Event>, b: seq<Event>, c: seq<Event>)
    ensures events + (a + b + c) == events + a + b + c
  {
  }

  /** Two events into a container create: it is about to write its policy file. */
  lemma OpenedContainer(setting: Setting, events: seq<Event>, pid: nat, input: CreateInput) returns (text: string)
    requires var s := Reached(setting, events); s.disk.index.Some? && Happens(s, Spawn(pid, Create(input)))
    requires Runs.ReachesStore(NEW_DISK, setting, input)
    requires Prepared(setting, input).value.mechanism != Some(Mac)
    ensures RecordOf(setting, input).Some? && RecordOf(setting, input).value.name == NameOf(input)
    ensures var s := Reached(setting, events);
            var s' := Reached(setting, events + [Spawn(pid, Create(input)), Step(pid)]);
            var todo := [WritePolicyFile(NameOf(input), text), LoadIndex, SaveInserted];
            && s'.disk == s.disk
            && s'.processes == s.processes[pid := Process(todo, EMPTY_STATE, RecordOf(setting, input))]
  {
    ContainerScript(setting, input);
    RecordHasName(setting, input);
    text := setting.yaml.render(Prepared(setting, input).value);
    hide Reached, Prepared, RecordOf, Start, BodyScript, Runs.ReachesStore;
    Opened(setting, events, pid, Create(input));
  }

  lemma ActsDropping(d: Disk, name: string, rest: seq<Action>, loaded: State, record: Option<Record>)
    ensures Act(d, Process([DropPolicyFile(name)] + rest, loaded, record)) ==
            Outcome(Some(d.(policies := d.policies - {name})), Process(rest, loaded, record))
  {
    assert ([DropPolicyFile(name)] + rest)[1..] == rest;
  }

  lemma ActsInserting(d: Disk, loaded: State, record: Record)
    requires InsertInto(loaded, record).Some?
    ensures Act(d, Process([SaveInserted], loaded, Some(record))).written ==
            Some(d.(index := InsertInto(loaded, record)))
  {
    hide InsertInto;
  }

  /** Four steps of an rm and a create: write, drop, load, save. */
  lemma LateInsert(setting: Setting, events: seq<Event>, rm: nat, create: nat, name: string, text: string,
                   gone: Record, index: State, record: Record)
    requires var s := Reached(setting, events);
             && s.disk.index == Some(index) && rm in s.processes && create in s.processes && rm != create
             && s.processes[rm].todo == Cleanup(gone)
             && s.processes[create] ==
                Process([WritePolicyFile(name, text), LoadIndex, SaveInserted], EMPTY_STATE, Some(record))
    requires gone.name == name && record.name == name && !HasName(index.sandboxes, name)
    ensures var d := Reached(setting, events + [Step(create), Step(rm), Step(create), Step(create)]).disk;
            Stored(d, name) && name !in d.policies
  {
    hide Reached, Act, HasName;
    var s := Reached(setting, events);
    var p := s.processes[rm];
    var loading := [LoadIndex] + [SaveInserted];
    var e1, e2, e3 := events + [Step(create)], events + [Step(create)] + [Step(rm)],
                      events + [Step(create)] + [Step(rm)] + [Step(create)];
    assert [WritePolicyFile(name, text), LoadIndex, SaveInserted] == [WritePolicyFile(name, text)] + loading;
    Stepped(setting, events, create, Process([WritePolicyFile(name, text)] + loading, EMPTY_STATE, Some(record)));
    ActsWriting(s.disk, name, text, loading, EMPTY_STATE, Some(record));
    var d1 := s.disk.(policies := s.disk.policies[name := text]);
    var unmake := if gone.mechanism == Mac then [DropInstance(gone.runtimeId)] else [];
    assert p == Process([DropPolicyFile(name)] + unmake, p.loaded, p.record);
    Stepped(setting, e1, rm, p);
    ActsDropping(d1, name, unmake, p.loaded, p.record);
    var d2 := d1.(policies := d1.policies - {name});
    Stepped(setting, e2, create, Process(loading, EMPTY_STATE, Some(record)));
    Acts(d2, [SaveInserted], EMPTY_STATE, Some(record));
    Stepped(setting, e3, create, Process([SaveInserted], index, Some(record)));
    InsertSucceeds(index, record);
    ActsInserting(d2, index, record);
    assert events + [Step(create), Step(rm), Step(create), Step(create)] == e3 + [Step(create)];
  }

  lemma InsertSucceeds(index: State, record: Record)
    requires !HasName(index.sandboxes, record.name)
    ensures InsertInto(index, record).Some? && HasName(InsertInto(index, record).value.sandboxes, record.name)
  {
    InsertedNames(index, record, record.name);
  }

  /**
   Two `policy set`s that cross: both complete, and the sandbox is left with the hash of the
   first beside the file of the second.
   */
  lemma PolicySetsCanCross(setting: Setting, events: seq<Event>, slow: nat, quick: nat, key: string,
                           first: string, second: string)
    returns (more: seq<Event>)
    requires var s := Reached(setting, events);
             && s.disk.index.Some? && slow != quick && slow !in s.processes && quick !in s.processes
             && Find(s.disk.index.value.sandboxes, key).Some?
    requires Accepted(setting, first) && Accepted(setting, second)
    requires setting.yaml.ContentHash(setting.yaml.Load(first).value) !=
             setting.yaml.ContentHash(setting.yaml.Load(second).value)
    ensures var name := Find(Reached(setting, events).disk.index.value.sandboxes, key).value.name;
            var d := Reached(setting, events + more).disk;
            && d.index.Some? && !Agreement.HashesAgree(setting, d)
            && NamePosition(d.index.value.sandboxes, name).Some?
            && d.index.value.sandboxes[NamePosition(d.index.value.sandboxes, name).value].policyHash ==
               setting.yaml.ContentHash(setting.yaml.Load(first).value)
            && name in d.policies && d.policies[name] == setting.yaml.render(setting.yaml.Load(second).value)
  {
    AcceptedPurpose(setting, first);
    hide Reached, Find, Runs.Done, SetPurpose, Accepted, HasName, NamePosition, WithHash, Agreement.HashesAgree;
    var name := Find(Reached(setting, events).disk.index.value.sandboxes, key).value.name;
    var p, q := setting.yaml.Load(first).value, setting.yaml.Load(second).value;
    var hash := setting.yaml.ContentHash(p);
    SetUntilWritten(setting, events, slow, key, first);
    var front := [Spawn(slow, PolicySet(Some(key), Some(first))), Step(slow), Step(slow), Step(slow)];
    var middle := SetBetween(setting, events + front, slow, quick, key, second);
    var e5 := events + front + middle;
    HashedLast(Reached(setting, e5).disk, setting, name, hash, setting.yaml.render(q));
    LoadThenHash(setting, e5, slow, name, hash);
    more := front + middle + [Step(slow), Step(slow)];
    Grouped(events, front, middle, [Step(slow), Step(slow)]);
  }

  /** A whole `policy set` between two steps of another process, which it leaves as it was. */
  lemma SetBetween(setting: Setting, events: seq<Event>, slow: nat, quick: nat, key: string, file: string)
    returns (middle: seq<Event>)
    requires var s := Reached(setting, events);
             && s.disk.index.Some? && slow in s.processes && quick !in s.processes
             && Find(s.disk.index.value.sandboxes, key).Some?
    requires Accepted(setting, file)
    ensures var s := Reached(setting, events);
            var t := Reached(setting, events + middle);
            var name := Find(s.disk.index.value.sandboxes, key).value.name;
            && slow in t.processes && t.processes[slow] == s.processes[slow]
            && t.disk.index.Some? && HasName(t.disk.index.value.sandboxes, name)
            && name in t.disk.policies
            && t.disk.policies[name] == setting.yaml.render(setting.yaml.Load(file).value)
  {
    hide Reached, Find, Runs.Done, SetPurpose, Accepted, HasName;
    var c := PolicySet(Some(key), Some(file));
    var mine := UninterruptedIsSequential(setting, events, quick, c);
    SetDone(setting, Reached(setting, events).disk, key, file);
    middle := [Spawn(quick, c)] + mine;
    assert events + [Spawn(quick, c)] + mine == events + middle;
  }

  /** The text of a policy that `policy set` takes. */
  predicate Accepted(setting: Setting, text: string) {
    setting.yaml.Load(text).Success? && Preflight(setting, setting.yaml.Load(text).value).None?
  }

  lemma AcceptedPurpose(setting: Setting, text: string)
    requires Accepted(setting, text)
    ensures var p := setting.yaml.Load(text).value;
            SetPurpose(setting, Some(text)) == ToSet(setting.yaml.render(p), setting.yaml.ContentHash(p))
  {
    hide Preflight;
  }

  /** Three steps into a `policy set`: the policy file is written. */
  lemma SetUntilWritten(setting: Setting, events: seq<Event>, pid: nat, key: string, file: string)
    requires var s := Reached(setting, events);
             && s.disk.index.Some? && pid !in s.processes && Find(s.disk.index.value.sandboxes, key).Some?
    requires SetPurpose(setting, Some(file)).ToSet?
    ensures var s := Reached(setting, events);
            var name := Find(s.disk.index.value.sandboxes, key).value.name;
            var purpose := SetPurpose(setting, Some(file));
            var c := PolicySet(Some(key), Some(file));
            Reached(setting, events + [Spawn(pid, c), Step(pid), Step(pid), Step(pid)]) ==
            System(s.disk.(policies := s.disk.policies[name := purpose.text]),
                   s.processes[pid := Process([LoadIndex, SaveHashed(name, purpose.hash)], EMPTY_STATE, None)],
                   s.issued)
  {
    hide Reached, Act, Find, SetPurpose;
    var s := Reached(setting, events);
    var c := PolicySet(Some(key), Some(file));
    var purpose := SetPurpose(setting, Some(file));
    var r := Find(s.disk.index.value.sandboxes, key).value;
    Opened(setting, events, pid, c);
    var e2 := events + [Spawn(pid, c), Step(pid)];
    Stepped(setting, e2, pid, Process([Locate(Some(key), purpose)], EMPTY_STATE, None));
    ActsLocating(s.disk, key, purpose);
    var rest := [LoadIndex, SaveHashed(r.name, purpose.hash)];
    assert Continuation(r, purpose) == [WritePolicyFile(r.name, purpose.text)] + rest;
    Stepped(setting, e2 + [Step(pid)], pid,
            Process([WritePolicyFile(r.name, purpose.text)] + rest, EMPTY_STATE, None));
    ActsWriting(s.disk, r.name, purpose.text, rest, EMPTY_STATE, None);
    assert events + [Spawn(pid, c), Step(pid), Step(pid), Step(pid)] == e2 + [Step(pid)] + [Step(pid)];
    assert s.issued + {} == s.issued;
  }

  lemma ActsLocating(d: Disk, key: string, purpose: Purpose)
    requires d.index.Some? && Find(d.index.value.sandboxes, key).Some?
    ensures Act(d, Process([Locate(Some(key), purpose)], EMPTY_STATE, None)) ==
            Outcome(None, Process(Continuation(Find(d.index.value.sandboxes, key).value, purpose), EMPTY_STATE, None))
  {
    hide Find, Continuation;
  }

  lemma LoadThenHash(setting: Setting, events: seq<Event>, pid: nat, name: string, hash: string)
    requires var s := Reached(setting, events);
             && s.disk.index.Some? && pid in s.processes && s.processes[pid].todo == [LoadIndex, SaveHashed(name, hash)]
             && WithHash(s.disk.index.value, name, hash).Some?
    ensures var s := Reached(setting, events);
            Reached(setting, events + [Step(pid), Step(pid)]).disk ==
            s.disk.(index := WithHash(s.disk.index.value, name, hash))
  {
    hide Reached, Act, WithHash;
    var s := Reached(setting, events);
    var p := s.processes[pid];
    assert p.todo == [LoadIndex] + [SaveHashed(name, hash)];
    Stepped(setting, events, pid, p);
    Acts(s.disk, [SaveHashed(name, hash)], p.loaded, p.record);
    Stepped(setting, events + [Step(pid)], pid, Process([SaveHashed(name, hash)], s.disk.index.value, p.record));
    ActsHashing(s.disk, name, hash, s.disk.index.value, p.record);
    assert events + [Step(pid), Step(pid)] == events + [Step(pid)] + [Step(pid)];
  }

  lemma ActsHashing(d: Disk, name: string, hash: string, loaded: State, record: Option<Record>)
    requires WithHash(loaded, name, hash).Some?
    ensures Act(d, Process([SaveHashed(name, hash)], loaded, record)).written ==
            Some(d.(index := WithHash(loaded, name, hash)))
  {
    hide WithHash;
  }

  /** What a `policy set` of an accepted policy leaves. */
  lemma SetDone(setting: Setting, d: Disk, key: string, file: string)
    requires d.index.Some? && Find(d.index.value.sandboxes, key).Some? && Accepted(setting, file)
    ensures var d' := Runs.Done(d, setting, PolicySet(Some(key), Some(file)));
            var name := Find(d.index.value.sandboxes, key).value.name;
            && d'.index.Some? && HasName(d'.index.value.sandboxes, name)
            && name in d'.policies && d'.policies[name] == setting.yaml.render(setting.yaml.Load(file).value)
  {
    var name := Find(d.index.value.sandboxes, key).value.name;
    var policy := setting.yaml.Load(file).value;
    FoundHasName(d.index.value.sandboxes, key);
    Runs.DoneInOpenStore(d, setting, PolicySet(Some(key), Some(file)));
    hide Find, Preflight, Runs.Done, CommandEffect, HasName;
    var hash := setting.yaml.ContentHash(policy);
    assert WithHash(d.index.value, name, hash).Some?;
    HashedNames(d.index.value, name, hash, name);
    hide WithHash;
  }

  /** The hash written last is the record's, whatever its file holds. */
  lemma HashedLast(d: Disk, setting: Setting, name: string, hash: string, text: string)
    requires d.index.Some? && HasName(d.index.value.sandboxes, name) && name in d.policies && d.policies[name] == text
    requires hash != setting.yaml.digest(text)
    ensures WithHash(d.index.value, name, hash).Some?
    ensures var d' := d.(index := WithHash(d.index.value, name, hash));
            && !Agreement.HashesAgree(setting, d')
            && NamePosition(d'.index.value.sandboxes, name).Some?
            && d'.index.value.sandboxes[NamePosition(d'.index.value.sandboxes, name).value].policyHash == hash
  {
    var rs := d.index.value.sandboxes;
    var n := NamePosition(rs, name).value;
    var d' := d.(index := WithHash(d.index.value, name, hash));
    var rs' := d'.index.value.sandboxes;
    assert rs' == rs[n := rs[n].(policyHash := hash)];
    assert rs'[n].name == name;
    var m := NamePosition(rs', name).value;
    assert m == n;
    assert !Agreement.HashOk(setting, d', rs'[n]);
  }

  /**
   The same for an instance directory: when a mac create of the same name falls between an rm's
   index write and its cleanup, the new sandbox loses its policy file and its directory.
   */
  lemma RmCanTakeNewInstance(setting: Setting, events: seq<Event>, rm: nat, create: nat, target: string,
                             input: CreateInput)
    returns (more: seq<Event>)
    requires Lawful.NamesGiven(events)
    requires var s := Reached(setting, events);
             && s.disk.index.Some? && rm != create && rm !in s.processes
             && Happens(s, Spawn(create, Create(input)))
             && RemoveFrom(s.disk.index.value, target).Some?
             && RemoveFrom(s.disk.index.value, target).value.1.name == NameOf(input)
             && RemoveFrom(s.disk.index.value, target).value.1.mechanism == Mac
    requires Runs.MacPrepared(setting, input)
    ensures var d := Reached(setting, events + more).disk;
            && Instances.StoredMac(d, NameOf(input)) && NameOf(input) !in d.policies
            && InstanceDir(setting.root, NameOf(input)) !in d.instances
  {
    var s := Reached(setting, events);
    var index := s.disk.index.value;
    var name := NameOf(input);
    IndexIsProper(setting, events);
    NameIsFree(index, target, s.issued);
    RemovedIsOwn(setting, events, target);
    hide Reached, RemoveFrom, Runs.MacPrepared, Runs.Done, Proper, HasName, Instances.StoredMac, InstanceDir;
    hide MacRuntimeId, SingleComponent, Cleanup, Lawful.NamesGiven;
    var (rest, gone) := RemoveFrom(index, target).value;
    RmUntilIndexed(setting, events, rm, target);
    var front := [Spawn(rm, Rm(target, true)), Step(rm), Step(rm), Step(rm)];
    var middle := MacCreateBetween(setting, events + front, rm, create, input);
    CleanupDone(setting, events + front + middle, rm, gone);
    more := front + middle + [Step(rm), Step(rm)];
    Grouped(events, front, middle, [Step(rm), Step(rm)]);
  }

  /** A whole mac create between two steps of another process, which it leaves as it was. */
  lemma MacCreateBetween(setting: Setting, events: seq<Event>, rm: nat, create: nat, input: CreateInput)
    returns (middle: seq<Event>)
    requires var s := Reached(setting, events);
             && s.disk.index.Some? && !HasName(s.disk.index.value.sandboxes, NameOf(input))
             && rm in s.processes && Happens(s, Spawn(create, Create(input)))
    requires Runs.MacPrepared(setting, input)
    ensures var s := Reached(setting, events);
            var t := Reached(setting, events + middle);
            && rm in t.processes && t.processes[rm] == s.processes[rm]
            && Instances.StoredMac(t.disk, NameOf(input))
  {
    hide Reached, Runs.MacPrepared, Runs.Done, HasName, Instances.StoredMac;
    var mine := UninterruptedIsSequential(setting, events, create, Create(input));
    MacCreateDone(setting, Reached(setting, events).disk, input);
    middle := [Spawn(create, Create(input))] + mine;
    assert events + [Spawn(create, Create(input))] + mine == events + middle;
  }

  /** What is removed from the index on disk has its own runtime id. */
  lemma RemovedIsOwn(setting: Setting, events: seq<Event>, target: string)
    requires Lawful.NamesGiven(events)
    requires var s := Reached(setting, events);
             s.disk.index.Some? && RemoveFrom(s.disk.index.value, target).Some?
    ensures Lawful.MacIdOk(setting, RemoveFrom(Reached(setting, events).disk.index.value, target).value.1)
  {
    Lawful.IdsAreOwn(setting, events);
    hide Reached;
    var rs := Reached(setting, events).disk.index.value.sandboxes;
    var n := Position(rs, target).value;
    assert !Lawful.Alien(setting)(rs[n]);
  }

  lemma MacCreateDone(setting: Setting, d: Disk, input: CreateInput)
    requires d.index.Some? && !HasName(d.index.value.sandboxes, NameOf(input)) && Runs.MacPrepared(setting, input)
    ensures Instances.StoredMac(Runs.Done(d, setting, Create(input)), NameOf(input))
  {
    Runs.DoneInOpenStore(d, setting, Create(input));
    Runs.MacReachesStore(d, setting, input);
    Runs.CreateEnds(d, setting, input);
    Runs.CreatedRecordIs(d, setting, input);
    hide CreateEffect, CommandEffect, Prepared, Runs.Done, Runs.ReachesStore, Runs.CreatedRecord;
    var r := Runs.CreatedRecord(d, setting, input);
    var rs := d.index.value.sandboxes + [r];
    assert Runs.Done(d, setting, Create(input)).index.value.sandboxes == rs;
    assert rs[|rs| - 1] == r;
  }

  /** The two cleanup steps of an rm of a mac sandbox. */
  lemma CleanupDone(setting: Setting, events: seq<Event>, rm: nat, gone: Record)
    requires var s := Reached(setting, events);
             rm in s.processes && s.processes[rm].todo == Cleanup(gone)
    requires gone.mechanism == Mac && gone.runtimeId == MacRuntimeId(setting.root, gone.name)
    ensures var s := Reached(setting, events);
            var d := Reached(setting, events + [Step(rm), Step(rm)]).disk;
            && d.index == s.disk.index && gone.name !in d.policies
            && InstanceDir(setting.root, gone.name) !in d.instances
  {
    hide Reached, Act, InstanceDir, MacRuntimeId;
    var s := Reached(setting, events);
    var p := s.processes[rm];
    assert p == Process([DropPolicyFile(gone.name)] + [DropInstance(gone.runtimeId)], p.loaded, p.record);
    Stepped(setting, events, rm, p);
    ActsDropping(s.disk, gone.name, [DropInstance(gone.runtimeId)], p.loaded, p.record);
    var d1 := s.disk.(policies := s.disk.policies - {gone.name});
    Stepped(setting, events + [Step(rm)], rm, Process([DropInstance(gone.runtimeId)], p.loaded, p.record));
    ActsRemovingTree(setting, d1, gone, p.loaded, p.record);
    assert events + [Step(rm), Step(rm)] == events + [Step(rm)] + [Step(rm)];
  }

  lemma ActsRemovingTree(setting: Setting, d: Disk, gone: Record, loaded: State, record: Option<Record>)
    requires gone.runtimeId == MacRuntimeId(setting.root, gone.name)
    ensures var dir := InstanceDir(setting.root, gone.name);
            Act(d, Process([DropInstance(gone.runtimeId)], loaded, record)).written ==
            Some(d.(instances := WithoutTree(d.instances, dir)))
    ensures InstanceDir(setting.root, gone.name) !in
            WithoutTree(d.instances, InstanceDir(setting.root, gone.name))
  {
    DirOfCreated(setting.root, gone.name);
    TreeIsGone(d.instances, setting.root, gone.name);
    hide DirOf, InstanceDir, MacRuntimeId, WithoutTree;
  }

  lemma TreeIsGone(instances: map<string, Instance>, root: string, name: string)
    ensures InstanceDir(root, name) !in WithoutTree(instances, InstanceDir(root, name))
  {
    var dir := InstanceDir(root, name);
    assert |dir| >= |"/mac/instances/"|;
    assert Within(dir, dir);
  }
}
