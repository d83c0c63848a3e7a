/**
 The two models of the store meet here: a process that nothing interrupts writes exactly
 what its sequential command writes.
 */
module Uninterrupted {
  import opened Wrappers
  import opened Policy
  import opened State
  import opened ConfigDir
  import opened Store
  import opened MacRuntime
  import opened Commands
  import opened Interleaving
  import Runs
  import Seatbelt

  function Weight(todo: seq<Action>): nat {
    if todo == [] then 0 else
    (match todo[0]
     case CheckIndex => 2
     case Locate(_, _) => 6
     case SaveRemoved(_) => 4
     case _ => 1)
    + Weight(todo[1..])
  }

  lemma ActLightens(d: Disk, p: Process)
    requires p.todo != []
    ensures Weight(Act(d, p).after.todo) < Weight(p.todo)
  {
    hide GetOrLast, InsertInto, WithHash, RemoveFrom, DirOf;
    match p.todo[0] {
      case CheckIndex =>
        assert ([WriteEmptyIndex] + p.todo[1..])[1..] == p.todo[1..];
      case Locate(key, purpose) =>
        LightContinuations();
      case SaveRemoved(key) =>
        LightRemovals();
      case _ =>
    }
  }

  lemma LightContinuations()
    ensures forall r, purpose :: Weight(Continuation(r, purpose)) <= 3
  {
    forall r, purpose
      ensures Weight(Continuation(r, purpose)) <= 3
    {
      match purpose {
        case ToTouch => WeighTwo(LoadIndex, SaveTouched(r.name));
        case ToSet(text, hash) =>
          var todo := [WritePolicyFile(r.name, text), LoadIndex, SaveHashed(r.name, hash)];
          WeighTwo(LoadIndex, SaveHashed(r.name, hash));
          assert todo[1..] == [LoadIndex, SaveHashed(r.name, hash)];
        case _ =>
      }
    }
  }

  lemma WeighTwo(a: Action, b: Action)
    requires !a.CheckIndex? && !a.Locate? && !a.SaveRemoved?
    requires !b.CheckIndex? && !b.Locate? && !b.SaveRemoved?
    ensures Weight([a, b]) == 2 && Weight([b]) == 1
  {
    assert [b][1..] == [] && [b][0] == b;
    assert Weight([b]) == 1;
    assert [a, b][1..] == [b] && [a, b][0] == a;
  }

  lemma LightRemovals()
    ensures forall a: Action, b: Action :: a.DropPolicyFile? && b.DropInstance? ==>
              Weight([a] + [b]) == 2 && Weight([a] + []) == 1
  {
    forall a: Action, b: Action | a.DropPolicyFile? && b.DropInstance?
      ensures Weight([a] + [b]) == 2 && Weight([a] + []) == 1
    {
      WeighTwo(a, b);
      WeighTwo(b, a);
      assert [a] + [b] == [a, b] && [a] + [] == [a];
    }
  }

  /** The disks a process writes when it alone is scheduled. */
  function SoloWrites(d: Disk, p: Process): seq<Disk>
    decreases Weight(p.todo)
  {
    if p.todo == [] then [] else
    ActLightens(d, p);
    var o := Act(d, p);
    match o.written
    case None => SoloWrites(d, o.after)
    case Some(w) => [w] + SoloWrites(w, o.after)
  }

  // ---------- Script by script ----------

  lemma SoloRead(d: Disk, p: Process, p': Process)
    requires p.todo != [] && Act(d, p) == Outcome(None, p')
    ensures SoloWrites(d, p) == SoloWrites(d, p')
  {
  }

  lemma SoloWrite(d: Disk, p: Process, w: Disk, p': Process)
    requires p.todo != [] && Act(d, p) == Outcome(Some(w), p')
    ensures SoloWrites(d, p) == [w] + SoloWrites(w, p')
  {
  }

  lemma SoloNothing(d: Disk, p: Process)
    requires p.todo == []
    ensures SoloWrites(d, p) == []
  {
  }

  lemma SoloOpen(d: Disk, body: seq<Action>, record: Option<Record>)
    ensures SoloWrites(d, Process([CheckIndex] + body, EMPTY_STATE, record)) ==
            OpenWrites(d) + SoloWrites(After(d, OpenWrites(d)), Process(body, EMPTY_STATE, record))
  {
    hide SoloWrites;
    var p := Process([CheckIndex] + body, EMPTY_STATE, record);
    assert p.todo[1..] == body;
    var done := Process(body, EMPTY_STATE, record);
    if d.index.None? {
      var mid := Process([WriteEmptyIndex] + body, EMPTY_STATE, record);
      assert mid.todo[1..] == body;
      SoloRead(d, p, mid);
      SoloWrite(d, mid, d.(index := Some(EMPTY_STATE)), done);
    } else {
      SoloRead(d, p, done);
      assert [] + SoloWrites(d, done) == SoloWrites(d, done);
    }
  }

  /** Loading, then saving: the tail of every mutator. */
  lemma SoloLoad(d: Disk, save: Action, loaded: State, record: Option<Record>)
    requires d.index.Some?
    ensures SoloWrites(d, Process([LoadIndex, save], loaded, record)) ==
            SoloWrites(d, Process([save], d.index.value, record))
  {
    hide SoloWrites;
    var p := Process([LoadIndex, save], loaded, record);
    assert p.todo[1..] == [save];
    SoloRead(d, p, Process([save], d.index.value, record));
  }

  lemma SoloInsert(d: Disk, record: Record, uuid: string)
    requires d.index.Some? && record.id != ""
    ensures SoloWrites(d, Process([SaveInserted], d.index.value, Some(record))) == InsertEffect(d, record, uuid).writes
  {
    var p := Process([SaveInserted], d.index.value, Some(record));
    assert p.todo[1..] == [];
    hide SoloWrites, InsertInto;
    var s := InsertInto(d.index.value, record);
    if s.Some? {
      SoloWrite(d, p, d.(index := s), Act(d, p).after);
      SoloNothing(d.(index := s), Act(d, p).after);
    } else {
      SoloRead(d, p, Act(d, p).after);
      SoloNothing(d, Act(d, p).after);
    }
  }

  lemma SoloExec(d: Disk, key: Option<string>, mechanismOk: bool)
    requires d.index.Some?
    ensures SoloWrites(d, Process([Locate(key, ToTouch)], EMPTY_STATE, None)) == ExecEffect(d, key, mechanismOk).writes
  {
    hide SoloWrites, GetOrLast;
    var p := Process([Locate(key, ToTouch)], EMPTY_STATE, None);
    var found := GetOrLast(d.index.value, key);
    var p1 := Act(d, p).after;
    SoloRead(d, p, p1);
    if found.None? {
      SoloNothing(d, p1);
    } else {
      SoloLoad(d, SaveTouched(found.value.name), EMPTY_STATE, None);
      var p2 := Process([SaveTouched(found.value.name)], d.index.value, None);
      var w := d.(index := Some(Touched(d.index.value, found.value.name)));
      assert p2.todo[1..] == [];
      SoloWrite(d, p2, w, Act(d, p2).after);
      SoloNothing(w, Act(d, p2).after);
    }
  }

  lemma SoloShow(d: Disk, key: Option<string>, purpose: Purpose)
    requires purpose == ToShow || purpose == ToRefuse
    ensures SoloWrites(d, Process([Locate(key, purpose)], EMPTY_STATE, None)) == []
  {
    hide SoloWrites, GetOrLast;
    var p := Process([Locate(key, purpose)], EMPTY_STATE, None);
    SoloRead(d, p, Act(d, p).after);
    SoloNothing(d, Act(d, p).after);
  }

  lemma SoloUpdate(d: Disk, yaml: Yaml, name: string, policy: SandboxPolicy)
    requires d.index.Some?
    ensures var text, hash := yaml.render(policy), yaml.ContentHash(policy);
            var p := Process([WritePolicyFile(name, text), LoadIndex, SaveHashed(name, hash)], EMPTY_STATE, None);
            SoloWrites(d, p) == UpdateEffect(d, yaml, name, policy).writes
  {
    hide SoloWrites, WithHash;
    var text, hash := yaml.render(policy), yaml.ContentHash(policy);
    var saved := SavedPolicy(d, yaml, name, policy);
    var p := Process([WritePolicyFile(name, text), LoadIndex, SaveHashed(name, hash)], EMPTY_STATE, None);
    assert p.todo[1..] == [LoadIndex, SaveHashed(name, hash)];
    SoloWrite(d, p, saved, Process([LoadIndex, SaveHashed(name, hash)], EMPTY_STATE, None));
    SoloLoad(saved, SaveHashed(name, hash), EMPTY_STATE, None);
    var p2 := Process([SaveHashed(name, hash)], saved.index.value, None);
    assert p2.todo[1..] == [];
    var s := WithHash(d.index.value, name, hash);
    if s.Some? {
      SoloWrite(saved, p2, saved.(index := s), Act(saved, p2).after);
      SoloNothing(saved.(index := s), Act(saved, p2).after);
    } else {
      SoloRead(saved, p2, Act(saved, p2).after);
      SoloNothing(saved, Act(saved, p2).after);
    }
  }

  lemma SoloPolicySet(setting: Setting, d: Disk, key: Option<string>, file: Option<string>)
    requires d.index.Some?
    ensures SoloWrites(d, Process([Locate(key, SetPurpose(setting, file))], EMPTY_STATE, None)) ==
            PolicySetEffect(d, setting, key, file).writes
  {
    hide SoloWrites, GetOrLast, Preflight, UpdateEffect, PolicyFromFile;
    var policy := PolicyFromFile(setting.yaml, file);
    var purpose := SetPurpose(setting, file);
    if policy.Failure? || Preflight(setting, policy.value).Some? {
      SoloShow(d, key, purpose);
    } else {
      var p := Process([Locate(key, purpose)], EMPTY_STATE, None);
      var found := GetOrLast(d.index.value, key);
      SoloRead(d, p, Act(d, p).after);
      if found.None? {
        SoloNothing(d, Act(d, p).after);
      } else {
        SoloUpdate(d, setting.yaml, found.value.name, policy.value);
      }
    }
  }

  /** The last step of an rm of a mac sandbox. */
  lemma SoloDropInstance(d: Disk, runtimeId: string, loaded: State, record: Option<Record>)
    ensures SoloWrites(d, Process([DropInstance(runtimeId)], loaded, record)) == MacRemoveWrites(d, runtimeId)
  {
    hide SoloWrites, DirOf, WithoutTree;
    var p := Process([DropInstance(runtimeId)], loaded, record);
    assert p.todo[1..] == [];
    var after := Act(d, p).after;
    if DirOf(runtimeId).Some? {
      var d' := d.(instances := WithoutTree(d.instances, DirOf(runtimeId).value));
      SoloWrite(d, p, d', after);
      SoloNothing(d', after);
    } else {
      SoloRead(d, p, after);
      SoloNothing(d, after);
    }
  }

  lemma {:induction false} SoloRm(d: Disk, target: string, mechanismOk: bool)
    requires d.index.Some?
    ensures SoloWrites(d, Process([LoadIndex, SaveRemoved(target)], EMPTY_STATE, None)) ==
            RmEffect(d, target, mechanismOk).writes
  {
    SoloLoad(d, SaveRemoved(target), EMPTY_STATE, None);
    hide SoloWrites, RemoveFrom, MacRemoveWrites;
    var p := Process([SaveRemoved(target)], d.index.value, None);
    var removed := RemoveFrom(d.index.value, target);
    var o := Act(d, p);
    if removed.None? {
      SoloRead(d, p, o.after);
      SoloNothing(d, o.after);
    } else {
      var (s, gone) := removed.value;
      var d1 := d.(index := Some(s));
      var d2 := d1.(policies := d.policies - {gone.name});
      SoloWrite(d, p, d1, o.after);
      var p2 := Act(d1, o.after).after;
      SoloWrite(d1, o.after, d2, p2);
      if gone.mechanism == Mac {
        assert p2.todo == [DropInstance(gone.runtimeId)];
        SoloDropInstance(d2, gone.runtimeId, p2.loaded, p2.record);
      } else {
        assert p2.todo == [];
        SoloNothing(d2, p2);
      }
    }
  }

  /** Writing some files of an instance, with more to do. */
  lemma SoloWriteFiles(d: Disk, dir: string, files: Instance, rest: seq<Action>, record: Option<Record>)
    ensures var w := d.(instances := d.instances[dir := Overlaid(FileIn(d, dir), files)]);
            SoloWrites(d, Process([WriteFiles(dir, files)] + rest, EMPTY_STATE, record)) ==
            [w] + SoloWrites(w, Process(rest, EMPTY_STATE, record))
  {
    hide SoloWrites, Overlaid, FileIn;
    var p := Process([WriteFiles(dir, files)] + rest, EMPTY_STATE, record);
    assert p.todo[1..] == rest;
    SoloWrite(d, p, Act(d, p).written.value, Process(rest, EMPTY_STATE, record));
  }

  lemma FourActions(a: Action, b: Action, c: Action, d: Action, more: seq<Action>)
    ensures [a, b, c, d] + more == [a] + ([b] + ([c] + ([d] + more)))
  {
  }

  lemma FourWrites(a: Disk, b: Disk, c: Disk, d: Disk, more: seq<Disk>)
    ensures [a, b, c, d] + more == [a] + ([b] + ([c] + ([d] + more)))
  {
  }

  lemma SoloFiles(d: Disk, setting: Setting, input: CreateInput, policy: SandboxPolicy, more: seq<Action>,
                  record: Option<Record>)
    requires policy.mechanism == Some(Mac)
    ensures var ws := MacCreateWrites(d, setting, NameOf(input), policy, input.workdir);
            SoloWrites(d, Process(RuntimeScript(setting, input, policy) + more, EMPTY_STATE, record)) ==
            ws + SoloWrites(After(d, ws), Process(more, EMPTY_STATE, record))
  {
    hide SoloWrites, Seatbelt.CompiledProfile, InstanceDir;
    var dir := InstanceDir(setting.root, NameOf(input));
    var whole := Complete(setting, policy, input.workdir);
    var ws := MacCreateWrites(d, setting, NameOf(input), policy, input.workdir);
    var i0, i1, i2 := ws[0].instances[dir], ws[1].instances[dir], ws[2].instances[dir];
    Overwritten(d.instances, dir, i0, i1);
    Overwritten(d.instances, dir, i1, i2);
    Overwritten(d.instances, dir, i2, whole);
    var f0, f1 := NO_FILES, Instance(whole.profile, None, None);
    var f2, f3 := Instance(None, whole.workdir, None), Instance(None, None, whole.policy);
    var todo3 := [WriteFiles(dir, f3)] + more;
    var todo2 := [WriteFiles(dir, f2)] + todo3;
    var todo1 := [WriteFiles(dir, f1)] + todo2;
    FourActions(WriteFiles(dir, f0), WriteFiles(dir, f1), WriteFiles(dir, f2), WriteFiles(dir, f3), more);
    SoloWriteFiles(d, dir, f0, todo1, record);
    SoloWriteFiles(ws[0], dir, f1, todo2, record);
    SoloWriteFiles(ws[1], dir, f2, todo3, record);
    SoloWriteFiles(ws[2], dir, f3, more, record);
    FourWrites(ws[0], ws[1], ws[2], ws[3], SoloWrites(ws[3], Process(more, EMPTY_STATE, record)));
  }

  function FilesWritten(d: Disk, setting: Setting, input: CreateInput, policy: SandboxPolicy): seq<Disk> {
    if policy.mechanism == Some(Mac) then MacCreateWrites(d, setting, NameOf(input), policy, input.workdir) else []
  }

  lemma RuntimeResult(d: Disk, setting: Setting, input: CreateInput, policy: SandboxPolicy)
    ensures var runtime := RuntimeEffect(d, setting, input, policy);
            && runtime.result == RuntimeEffect(NEW_DISK, setting, input, policy).result
            && (runtime.result.Failure? ==> runtime.writes == [])
            && (runtime.result.Success? ==> runtime.writes == FilesWritten(d, setting, input, policy))
  {
    hide MacCreateWrites;
  }

  lemma SoloCreate(setting: Setting, d: Disk, input: CreateInput)
    requires d.index.Some? && input.uuid != ""
    ensures SoloWrites(d, Process(CreateScript(setting, input), EMPTY_STATE, RecordOf(setting, input))) ==
            CreateEffect(d, setting, input).writes
  {
    var prepared := Prepared(setting, input);
    hide Prepared, SoloWrites;
    var record := RecordOf(setting, input);
    if prepared.Failure? {
      SoloNothing(d, Process(CreateScript(setting, input), EMPTY_STATE, record));
    } else {
      var policy := prepared.value;
      RuntimeResult(d, setting, input, policy);
      Runs.RuntimeKeepsStore(d, setting, input, policy);
      hide RuntimeEffect;
      var runtime := RuntimeEffect(d, setting, input, policy);
      if runtime.result.Failure? {
        SoloNothing(d, Process(CreateScript(setting, input), EMPTY_STATE, record));
      } else {
        var d1 := After(d, runtime.writes);
        var text := setting.yaml.render(policy);
        var tail := [WritePolicyFile(NameOf(input), text), LoadIndex, SaveInserted];
        SoloFilesOrNone(d, setting, input, policy, tail, record);
        SoloSaveAndInsert(d1, setting.yaml, NameOf(input), policy, record.value, input.uuid);
        var saved := SavedPolicy(d1, setting.yaml, NameOf(input), policy);
        var inserted := InsertEffect(saved, record.value, input.uuid);
        hide InsertEffect, NewRecord;
        assert runtime.writes + ([saved] + inserted.writes) == runtime.writes + [saved] + inserted.writes;
      }
    }
  }

  lemma SoloFilesOrNone(d: Disk, setting: Setting, input: CreateInput, policy: SandboxPolicy, more: seq<Action>,
                        record: Option<Record>)
    ensures var ws := FilesWritten(d, setting, input, policy);
            SoloWrites(d, Process(RuntimeScript(setting, input, policy) + more, EMPTY_STATE, record)) ==
            ws + SoloWrites(After(d, ws), Process(more, EMPTY_STATE, record))
  {
    hide SoloWrites, MacCreateWrites;
    if policy.mechanism == Some(Mac) {
      SoloFiles(d, setting, input, policy, more, record);
    } else {
      assert RuntimeScript(setting, input, policy) + more == more;
      var writes := SoloWrites(d, Process(more, EMPTY_STATE, record));
      assert [] + writes == writes;
    }
  }

  lemma {:induction false} SoloSaveAndInsert(d: Disk, yaml: Yaml, name: string, policy: SandboxPolicy,
                                             record: Record, uuid: string)
    requires d.index.Some? && record.id != ""
    ensures var saved := SavedPolicy(d, yaml, name, policy);
            var todo := [WritePolicyFile(name, yaml.render(policy)), LoadIndex, SaveInserted];
            SoloWrites(d, Process(todo, EMPTY_STATE, Some(record))) ==
            [saved] + InsertEffect(saved, record, uuid).writes
  {
    hide SoloWrites;
    var saved := SavedPolicy(d, yaml, name, policy);
    var p := Process([WritePolicyFile(name, yaml.render(policy)), LoadIndex, SaveInserted], EMPTY_STATE, Some(record));
    assert p.todo[1..] == [LoadIndex, SaveInserted];
    SoloWrite(d, p, saved, Process([LoadIndex, SaveInserted], EMPTY_STATE, Some(record)));
    SoloLoad(saved, SaveInserted, EMPTY_STATE, Some(record));
    SoloInsert(saved, record, uuid);
  }

  /** A process that nothing interrupts makes the writes of its sequential command, in their order. */
  lemma SoloIsSequential(setting: Setting, d: Disk, c: Command)
    requires c.Create? ==> c.input.uuid != ""
    ensures SoloWrites(d, Start(setting, c)) == CommandEffect(d, setting, c).writes
  {
    hide SoloWrites, CreateScript, RecordOf, CreateEffect, ExecEffect, PolicySetEffect, RmEffect, PolicyGetResult;
    var d0 := After(d, OpenWrites(d));
    var record := if c.Create? then RecordOf(setting, c.input) else None;
    SoloOpen(d, BodyScript(setting, c), record);
    match c {
      case Create(input) => SoloCreate(setting, d0, input);
      case Exec(key, ok) => SoloExec(d0, key, ok);
      case PolicyGet(key) => SoloShow(d0, key, ToShow);
      case PolicySet(key, file) => SoloPolicySet(setting, d0, key, file);
      case Rm(target, ok) => SoloRm(d0, target, ok);
    }
  }

  // ---------- The same in a system of processes ----------

  lemma ReachedSnoc(setting: Setting, events: seq<Event>, e: Event)
    ensures Reached(setting, events + [e]) ==
            var s := Reached(setting, events); if Happens(s, e) then Next(setting, s, e) else s
  {
    assert (events + [e])[..|events|] == events;
  }

  /** Scheduling one process to its end, whatever happened before. */
  lemma {:induction false} Drain(setting: Setting, events: seq<Event>, pid: nat) returns (more: seq<Event>)
    requires pid in Reached(setting, events).processes
    ensures forall i :: 0 <= i < |more| ==> more[i] == Step(pid)
    ensures var s := Reached(setting, events);
            var s' := Reached(setting, events + more);
            && s'.disk == After(s.disk, SoloWrites(s.disk, s.processes[pid]))
            && s'.issued == s.issued
            && s'.processes.Keys == s.processes.Keys
            && forall q :: q in s.processes && q != pid ==> s'.processes[q] == s.processes[q]
    decreases Weight(Reached(setting, events).processes[pid].todo)
  {
    hide Reached, Act, Weight;
    var s := Reached(setting, events);
    var p := s.processes[pid];
    if p.todo == [] {
      more := [];
      assert events + more == events;
    } else {
      ReachedSnoc(setting, events, Step(pid));
      ActLightens(s.disk, p);
      var rest := Drain(setting, events + [Step(pid)], pid);
      more := [Step(pid)] + rest;
      assert events + more == events + [Step(pid)] + rest;
      var o := Act(s.disk, p);
      if o.written.Some? {
        AfterCons(s.disk, o.written.value, SoloWrites(o.written.value, o.after));
      }
    }
  }

  lemma AfterCons(d: Disk, w: Disk, ws: seq<Disk>)
    ensures After(d, [w] + ws) == After(w, ws)
  {
  }

  /** In any system, a command whose process is not interrupted has its sequential effect. */
  lemma UninterruptedIsSequential(setting: Setting, events: seq<Event>, pid: nat, c: Command) returns (more: seq<Event>)
    requires Happens(Reached(setting, events), Spawn(pid, c))
    ensures forall i :: 0 <= i < |more| ==> more[i] == Step(pid)
    ensures var s := Reached(setting, events);
            var s' := Reached(setting, events + [Spawn(pid, c)] + more);
            && s'.disk == Runs.Done(s.disk, setting, c)
            && forall q :: q in s.processes ==> q in s'.processes && s'.processes[q] == s.processes[q]
  {
    ReachedSnoc(setting, events, Spawn(pid, c));
    hide Reached, SoloWrites, CommandEffect, Start;
    SoloIsSequential(setting, Reached(setting, events).disk, c);
    more := Drain(setting, events + [Spawn(pid, c)], pid);
  }
}
