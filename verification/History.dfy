/**
 What a step that breaks something goes back to: when its process read the index, and who
 removed the file that is missing.
 */
module History {
  import opened Wrappers
  import opened State
  import opened ConfigDir
  import opened MacRuntime
  import opened Commands
  import opened Interleaving
  import opened Uninterrupted
  import opened Interference

  // ---------- What a script has done before it saves ----------

  predicate IsSave(a: Action) {
    a.SaveInserted? || a.SaveTouched? || a.SaveHashed? || a.SaveRemoved?
  }

  /** The index is loaded before the first save. */
  predicate LoadAhead(todo: seq<Action>) {
    todo != [] ==> todo[0].LoadIndex? || (!IsSave(todo[0]) && LoadAhead(todo[1..]))
  }

  predicate Writes(a: Action, name: string) {
    a.WritePolicyFile? && a.name == name
  }

  /** The policy file of the name is written before the record is inserted. */
  predicate FileAhead(todo: seq<Action>, name: string) {
    todo != [] ==> Writes(todo[0], name) || (!todo[0].SaveInserted? && FileAhead(todo[1..], name))
  }

  /** Actions in front that are no saves change nothing. */
  lemma {:induction false} AheadBehind(front: seq<Action>, todo: seq<Action>, name: string)
    requires forall i :: 0 <= i < |front| ==> !IsSave(front[i])
    ensures LoadAhead(todo) ==> LoadAhead(front + todo)
    ensures FileAhead(todo, name) ==> FileAhead(front + todo, name)
  {
    if front == [] {
      assert front + todo == todo;
    } else {
      assert (front + todo)[1..] == front[1..] + todo;
      AheadBehind(front[1..], todo, name);
    }
  }

  lemma AheadOfNoSaves(todo: seq<Action>, name: string)
    requires forall i :: 0 <= i < |todo| ==> !IsSave(todo[i])
    ensures LoadAhead(todo) && FileAhead(todo, name)
  {
    AheadBehind(todo, [], name);
    assert todo + [] == todo;
  }

  lemma ContinuationAhead(r: Record, purpose: Purpose, name: string)
    ensures LoadAhead(Continuation(r, purpose)) && FileAhead(Continuation(r, purpose), name)
  {
    match purpose {
      case ToTouch => TwoAhead(LoadIndex, SaveTouched(r.name), name);
      case ToSet(text, hash) =>
        TwoAhead(LoadIndex, SaveHashed(r.name, hash), name);
        AheadBehind([WritePolicyFile(r.name, text)], [LoadIndex, SaveHashed(r.name, hash)], name);
        assert [WritePolicyFile(r.name, text)] + [LoadIndex, SaveHashed(r.name, hash)] == Continuation(r, purpose);
      case _ =>
    }
  }

  lemma TwoAhead(a: Action, b: Action, name: string)
    requires a.LoadIndex? && !b.SaveInserted?
    ensures LoadAhead([a, b]) && FileAhead([a, b], name)
  {
    assert [a, b][1..] == [b] && [b][1..] == [];
  }

  lemma ScriptAhead(setting: Setting, input: CreateInput)
    ensures LoadAhead(CreateScript(setting, input)) && FileAhead(CreateScript(setting, input), NameOf(input))
  {
    hide Prepared, RuntimeEffect, Complete, InstanceDir;
    var prepared := Prepared(setting, input);
    if CreateScript(setting, input) != [] {
      var text := setting.yaml.render(prepared.value);
      var tail := [WritePolicyFile(NameOf(input), text), LoadIndex, SaveInserted];
      assert tail[1..] == [LoadIndex, SaveInserted];
      assert LoadAhead([LoadIndex, SaveInserted]);
      assert LoadAhead(tail) && FileAhead(tail, NameOf(input));
      var front := RuntimeScript(setting, input, prepared.value);
      assert forall i :: 0 <= i < |front| ==> !IsSave(front[i]);
      AheadBehind(front, tail, NameOf(input));
    }
  }

  lemma StartAhead(setting: Setting, c: Command)
    ensures var p := Start(setting, c);
            && LoadAhead(p.todo)
            && (p.record.Some? ==> FileAhead(p.todo, p.record.value.name))
  {
    var body := BodyScript(setting, c);
    var p := Start(setting, c);
    var name := if p.record.Some? then p.record.value.name else "";
    hide CreateScript, SetPurpose;
    match c {
      case Create(input) =>
        ScriptAhead(setting, input);
        if p.record.Some? {
          RecordIsNamed(setting, input);
        }
      case Rm(target, ok) => TwoAhead(LoadIndex, SaveRemoved(target), name);
      case _ => AheadOfNoSaves(body, name);
    }
    hide RecordOf, BodyScript;
    AheadBehind([CheckIndex], body, name);
  }

  lemma RecordIsNamed(setting: Setting, input: CreateInput)
    requires RecordOf(setting, input).Some?
    ensures RecordOf(setting, input).value.name == NameOf(input)
  {
    hide Prepared, RuntimeEffect;
  }

  /** What a process still has to do after its first action. */
  lemma ActTodo(d: Disk, p: Process, name: string)
    requires p.todo != []
    ensures var o := Act(d, p);
            && o.after.record == (if p.todo[0].SaveInserted? then None else p.record)
            && (LoadAhead(p.todo) && !(p.todo[0].LoadIndex? && d.index.Some?) ==> LoadAhead(o.after.todo))
            && (FileAhead(p.todo, name) && !p.todo[0].SaveInserted? && !Writes(p.todo[0], name) ==>
                  FileAhead(o.after.todo, name))
  {
    hide GetOrLast, InsertInto, WithHash, RemoveFrom, DirOf, WithoutTree, Continuation, Cleanup;
    var o := Act(d, p);
    match p.todo[0] {
      case CheckIndex => AheadBehind([WriteEmptyIndex], p.todo[1..], name);
      case Locate(key, purpose) =>
        if o.after.todo != [] {
          ContinuationAhead(GetOrLast(d.index.value, key).value, purpose, name);
        }
      case SaveRemoved(key) =>
        if RemoveFrom(p.loaded, key).Some? {
          CleanupAhead(RemoveFrom(p.loaded, key).value.1, name);
        }
      case _ =>
    }
  }

  lemma CleanupAhead(gone: Record, name: string)
    ensures LoadAhead(Cleanup(gone)) && FileAhead(Cleanup(gone), name)
  {
    AheadOfNoSaves(Cleanup(gone), name);
  }

  /** The event is a step in which the process writes the policy file of the name. */
  ghost predicate WritesAt(setting: Setting, events: seq<Event>, i: nat, pid: nat, name: string)
    requires i < |events|
  {
    var s := Reached(setting, events[..i]);
    && events[i] == Step(pid) && Happens(s, events[i])
    && Writes(Actor(s, pid).todo[0], name)
  }

  ghost predicate HasLoaded(setting: Setting, events: seq<Event>, m: nat, pid: nat)
    requires m <= |events|
  {
    exists j :: 0 <= j < m && LoadsAt(setting, events, j, pid)
  }

  ghost predicate HasWritten(setting: Setting, events: seq<Event>, m: nat, pid: nat, name: string)
    requires m <= |events|
  {
    exists j :: 0 <= j < m && WritesAt(setting, events, j, pid, name)
  }

  lemma HistoryGrows(setting: Setting, events: seq<Event>, m: nat, pid: nat, name: string)
    requires 0 < m <= |events|
    ensures HasLoaded(setting, events, m, pid) <==>
            HasLoaded(setting, events, m - 1, pid) || LoadsAt(setting, events, m - 1, pid)
    ensures HasWritten(setting, events, m, pid, name) <==>
            HasWritten(setting, events, m - 1, pid, name) || WritesAt(setting, events, m - 1, pid, name)
  {
    hide LoadsAt, WritesAt;
  }

  lemma StepProcess(setting: Setting, s: System, pid: nat)
    requires Happens(s, Step(pid))
    ensures var s' := Next(setting, s, Step(pid));
            && s'.processes.Keys == s.processes.Keys
            && s'.processes[pid] == Act(s.disk, s.processes[pid]).after
            && forall q :: q in s.processes && q != pid ==> s'.processes[q] == s.processes[q]
  {
    hide Act;
  }

  /** A process that has yet to save has loaded the index or will do so first. */
  lemma {:induction false} LoadsFirst(setting: Setting, events: seq<Event>, m: nat, pid: nat)
    requires m <= |events| && pid in Reached(setting, events[..m]).processes
    ensures LoadAhead(Reached(setting, events[..m]).processes[pid].todo) || HasLoaded(setting, events, m, pid)
    decreases m
  {
    if m > 0 {
      var e := events[m - 1];
      var s := Reached(setting, events[..m - 1]);
      assert events[..m] == events[..m - 1] + [e];
      ReachedSnoc(setting, events[..m - 1], e);
      HistoryGrows(setting, events, m, pid, "");
      hide Reached, HasLoaded, LoadAhead, Act, Start;
      if pid in s.processes {
        LoadsFirst(setting, events, m - 1, pid);
      }
      if Happens(s, e) {
        match e {
          case Spawn(q, c) =>
            SpawnIndex(setting, s, q, c);
            StartAhead(setting, c);
          case Step(q) =>
            StepProcess(setting, s, q);
            ActTodo(s.disk, s.processes[q], "");
        }
        hide Next;
      }
    }
  }

  /** A process that has yet to insert its record has written the policy file or will do so first. */
  lemma {:induction false} WritesFirst(setting: Setting, events: seq<Event>, m: nat, pid: nat)
    requires m <= |events| && pid in Reached(setting, events[..m]).processes
    requires Reached(setting, events[..m]).processes[pid].record.Some?
    ensures var p := Reached(setting, events[..m]).processes[pid];
            FileAhead(p.todo, p.record.value.name) || HasWritten(setting, events, m, pid, p.record.value.name)
    decreases m
  {
    if m > 0 {
      var e := events[m - 1];
      var s := Reached(setting, events[..m - 1]);
      var name := Reached(setting, events[..m]).processes[pid].record.value.name;
      assert events[..m] == events[..m - 1] + [e];
      ReachedSnoc(setting, events[..m - 1], e);
      HistoryGrows(setting, events, m, pid, name);
      hide Reached, HasWritten, FileAhead, Act, Start;
      if Happens(s, e) {
        match e {
          case Spawn(q, c) =>
            SpawnIndex(setting, s, q, c);
            StartAhead(setting, c);
          case Step(q) =>
            StepProcess(setting, s, q);
            ActTodo(s.disk, s.processes[q], name);
        }
        hide Next;
      }
      if pid in s.processes && s.processes[pid].record.Some? {
        WritesFirst(setting, events, m - 1, pid);
      }
    }
  }

  // ---------- A lost sandbox was lost to an older load ----------

  /** The sandbox is stored after the first `k` events and stays stored up to the first `m`. */
  ghost predicate StoredFrom(setting: Setting, events: seq<Event>, k: nat, m: nat, name: string)
    requires k <= m <= |events|
  {
    forall i :: k <= i <= m ==> Stored(Reached(setting, events[..i]).disk, name)
  }

  /** The event is a step in which the process loads the index. */
  ghost predicate LoadsAt(setting: Setting, events: seq<Event>, i: nat, pid: nat)
    requires i < |events|
  {
    var s := Reached(setting, events[..i]);
    && events[i] == Step(pid) && Happens(s, events[i])
    && Actor(s, pid).todo[0].LoadIndex? && s.disk.index.Some?
  }

  /** A copy loaded while the sandbox was stored has it, as long as it stays stored. */
  lemma {:induction false} LoadedSinceHasName(setting: Setting, events: seq<Event>, k: nat, j: nat, m: nat, pid: nat,
                                              name: string)
    requires k <= j < m <= |events| && StoredFrom(setting, events, k, m, name) && LoadsAt(setting, events, j, pid)
    ensures var s := Reached(setting, events[..m]);
            pid in s.processes && HasName(s.processes[pid].loaded.sandboxes, name)
    decreases m
  {
    var e := events[m - 1];
    var s := Reached(setting, events[..m - 1]);
    assert events[..m] == events[..m - 1] + [e];
    ReachedSnoc(setting, events[..m - 1], e);
    assert Stored(s.disk, name);
    if j < m - 1 {
      LoadedSinceHasName(setting, events, k, j, m - 1, pid, name);
    }
    hide Reached, HasName, Next;
    if Happens(s, e) {
      match e {
        case Spawn(q, c) => SpawnIndex(setting, s, q, c);
        case Step(q) => StepIndex(setting, s, q);
      }
    }
  }

  ghost predicate NoEmptyWrite(p: Process) {
    forall i :: 0 <= i < |p.todo| ==> p.todo[i] != WriteEmptyIndex
  }

  lemma ActKeepsNoEmptyWrite(d: Disk, p: Process)
    requires p.todo != [] && d.index.Some? && NoEmptyWrite(p)
    ensures NoEmptyWrite(Act(d, p).after)
  {
    hide GetOrLast, InsertInto, WithHash, RemoveFrom, DirOf, WithoutTree;
  }

  lemma StartHasNoEmptyWrite(setting: Setting, c: Command)
    ensures NoEmptyWrite(Start(setting, c))
  {
    hide RecordOf, Prepared, RuntimeEffect, SetPurpose, Complete, InstanceDir;
  }

  /** Only a process that was started before there was an index empties the store. */
  lemma {:induction false} EmptyWriteIsOld(setting: Setting, events: seq<Event>, k: nat, m: nat, pid: nat)
    requires k <= m <= |events| && Reached(setting, events[..k]).disk.index.Some?
    requires pid !in Reached(setting, events[..k]).processes
    ensures var s := Reached(setting, events[..m]);
            s.disk.index.Some? && (pid in s.processes ==> NoEmptyWrite(s.processes[pid]))
    decreases m
  {
    if m > k {
      EmptyWriteIsOld(setting, events, k, m - 1, pid);
      var e := events[m - 1];
      var s := Reached(setting, events[..m - 1]);
      assert events[..m] == events[..m - 1] + [e];
      ReachedSnoc(setting, events[..m - 1], e);
      hide Reached, Start, Act, NoEmptyWrite, Saving;
      if Happens(s, e) {
        match e {
          case Spawn(q, c) =>
            SpawnIndex(setting, s, q, c);
            StartHasNoEmptyWrite(setting, c);
          case Step(q) =>
            StepIndex(setting, s, q);
            if q == pid {
              ActKeepsNoEmptyWrite(s.disk, s.processes[pid]);
            }
        }
      }
    }
  }

  /** The process has loaded the index before the first `k` events were over, and not since. */
  ghost predicate LoadedOnlyBefore(setting: Setting, events: seq<Event>, k: nat, m: nat, pid: nat)
    requires k <= m <= |events|
  {
    && (exists j :: 0 <= j < k && LoadsAt(setting, events, j, pid))
    && forall j :: k <= j < m ==> !LoadsAt(setting, events, j, pid)
  }

  /**
   A sandbox that was stored is lost only to its own rm, to the save of a copy that was loaded
   before it was stored, or to the empty index of a process started before it was stored.
   */
  lemma LostToOlderLoad(setting: Setting, events: seq<Event>, k: nat, m: nat, pid: nat, name: string)
    requires k <= m < |events| && StoredFrom(setting, events, k, m, name) && events[m] == Step(pid)
    requires !Stored(Reached(setting, events[..m + 1]).disk, name)
    ensures var s := Reached(setting, events[..m]);
            Happens(s, Step(pid)) &&
            match Actor(s, pid).todo[0]
            case WriteEmptyIndex => pid in Reached(setting, events[..k]).processes
            case SaveRemoved(key) =>
              && RemoveFrom(Actor(s, pid).loaded, key).Some?
              && (RemoveFrom(Actor(s, pid).loaded, key).value.1.name == name
                  || LoadedOnlyBefore(setting, events, k, m, pid))
            case _ => LoadedOnlyBefore(setting, events, k, m, pid)
  {
    var s := Reached(setting, events[..m]);
    assert events[..m + 1] == events[..m] + [events[m]];
    ReachedSnoc(setting, events[..m], events[m]);
    AlwaysCoherent(setting, events[..m]);
    assert Stored(s.disk, name) && Stored(Reached(setting, events[..k]).disk, name);
    hide Reached, Coherent, Next, HasName, RemoveFrom, InsertInto, WithHash;
    StoredStep(setting, s, pid, name);
    if Actor(s, pid).todo[0].WriteEmptyIndex? && pid !in Reached(setting, events[..k]).processes {
      EmptyWriteIsOld(setting, events, k, m, pid);
      assert false;
    }
    if !HasName(Actor(s, pid).loaded.sandboxes, name) {
      forall j | k <= j < m
        ensures !LoadsAt(setting, events, j, pid)
      {
        if LoadsAt(setting, events, j, pid) {
          LoadedSinceHasName(setting, events, k, j, m, pid, name);
        }
      }
      LoadsFirst(setting, events, m, pid);
      hide LoadsAt;
      if IsSave(Actor(s, pid).todo[0]) {
        var j :| 0 <= j < m && LoadsAt(setting, events, j, pid);
        assert j < k;
      }
    }
  }

  // ---------- A stripping save is a stale one ----------

  /** The event is a step of an rm that removes the policy file of the name. */
  ghost predicate DropsAt(setting: Setting, events: seq<Event>, i: nat, name: string)
    requires i < |events|
  {
    var s := Reached(setting, events[..i]);
    events[i].Step? && Happens(s, events[i]) && Actor(s, events[i].pid).todo[0] == DropPolicyFile(name)
  }

  /** A policy file that is gone was removed by an rm. */
  lemma {:induction false} MissingFileWasDropped(setting: Setting, events: seq<Event>, j: nat, m: nat, name: string)
    requires j <= m <= |events| && name in Reached(setting, events[..j]).disk.policies
    requires name !in Reached(setting, events[..m]).disk.policies
    ensures exists i :: j <= i < m && DropsAt(setting, events, i, name)
    decreases m
  {
    if j < m {
      var e := events[m - 1];
      var s := Reached(setting, events[..m - 1]);
      assert events[..m] == events[..m - 1] + [e];
      ReachedSnoc(setting, events[..m - 1], e);
      if name !in s.disk.policies {
        MissingFileWasDropped(setting, events, j, m - 1, name);
      } else {
        hide Reached, Next;
        match e {
          case Spawn(q, c) =>
            if Happens(s, e) {
              SpawnIndex(setting, s, q, c);
            }
          case Step(q) =>
            StepPolicies(setting, s, q);
            assert DropsAt(setting, events, m - 1, name);
        }
      }
    }
  }

  /** What a process holds is the index that was on disk when it loaded last. */
  lemma {:induction false} CopyIsTheIndexLoaded(setting: Setting, events: seq<Event>, j: nat, m: nat, pid: nat)
    requires j < m <= |events| && LoadsAt(setting, events, j, pid)
    requires forall i :: j < i < m ==> !LoadsAt(setting, events, i, pid)
    ensures var s := Reached(setting, events[..m]);
            pid in s.processes && Some(s.processes[pid].loaded) == Reached(setting, events[..j]).disk.index
    decreases m
  {
    var e := events[m - 1];
    var s := Reached(setting, events[..m - 1]);
    assert events[..m] == events[..m - 1] + [e];
    ReachedSnoc(setting, events[..m - 1], e);
    if j < m - 1 {
      CopyIsTheIndexLoaded(setting, events, j, m - 1, pid);
      assert !LoadsAt(setting, events, m - 1, pid);
    }
    hide Reached, Next;
    if Happens(s, e) {
      match e {
        case Spawn(q, c) => SpawnIndex(setting, s, q, c);
        case Step(q) => StepIndex(setting, s, q);
      }
    }
  }

  /**
   A copy that names a sandbox with no policy file was loaded from an index that did so already,
   or an rm has removed the file since.
   */
  lemma StrippingCopyIsStale(setting: Setting, events: seq<Event>, j: nat, m: nat, pid: nat, name: string)
    requires j < m <= |events| && LoadsAt(setting, events, j, pid)
    requires forall i :: j < i < m ==> !LoadsAt(setting, events, i, pid)
    requires var s := Reached(setting, events[..m]);
             pid in s.processes && HasName(s.processes[pid].loaded.sandboxes, name) && name !in s.disk.policies
    ensures Stored(Reached(setting, events[..j]).disk, name)
    ensures name !in Reached(setting, events[..j]).disk.policies
            || exists i :: j < i < m && DropsAt(setting, events, i, name)
  {
    CopyIsTheIndexLoaded(setting, events, j, m, pid);
    if name in Reached(setting, events[..j]).disk.policies {
      MissingFileWasDropped(setting, events, j, m, name);
      assert !DropsAt(setting, events, j, name);
    }
    hide Reached, LoadsAt, DropsAt, HasName;
  }

  lemma LastLoad(setting: Setting, events: seq<Event>, m: nat, pid: nat) returns (j: nat)
    requires m <= |events| && HasLoaded(setting, events, m, pid)
    ensures j < m && LoadsAt(setting, events, j, pid)
    ensures forall i :: j < i < m ==> !LoadsAt(setting, events, i, pid)
    decreases m
  {
    hide LoadsAt;
    if LoadsAt(setting, events, m - 1, pid) {
      j := m - 1;
    } else {
      HistoryGrows(setting, events, m, pid, "");
      j := LastLoad(setting, events, m - 1, pid);
    }
  }

  /** The process read what it saves, or wrote its own policy file, before an rm removed the file that is missing. */
  ghost predicate SinceDropped(setting: Setting, events: seq<Event>, m: nat, pid: nat, name: string)
    requires m <= |events|
  {
    exists j, i :: 0 <= j < i < m && DropsAt(setting, events, i, name)
                   && (LoadsAt(setting, events, j, pid) || WritesAt(setting, events, j, pid, name))
  }

  /** A record of the copy: the file was there when the copy was loaded. */
  lemma CopyWasFiled(setting: Setting, events: seq<Event>, m: nat, pid: nat, name: string)
    requires m <= |events| && HasLoaded(setting, events, m, pid)
    requires forall n :: 0 <= n <= m ==> FilesKept(Reached(setting, events[..n]).disk)
    requires var s := Reached(setting, events[..m]);
             pid in s.processes && HasName(s.processes[pid].loaded.sandboxes, name) && name !in s.disk.policies
    ensures SinceDropped(setting, events, m, pid, name)
  {
    var j := LastLoad(setting, events, m, pid);
    StrippingCopyIsStale(setting, events, j, m, pid, name);
    var d := Reached(setting, events[..j]).disk;
    assert FilesKept(d);
    hide Reached, LoadsAt, DropsAt, WritesAt;
    var k :| 0 <= k < |d.index.value.sandboxes| && d.index.value.sandboxes[k].name == name;
    assert !Unfiled(d)(d.index.value.sandboxes[k]);
  }

  /** The inserted record itself: its file was there when the process had written it. */
  lemma OwnFileWasWritten(setting: Setting, events: seq<Event>, m: nat, pid: nat, name: string)
    requires m <= |events| && HasWritten(setting, events, m, pid, name)
    requires name !in Reached(setting, events[..m]).disk.policies
    ensures SinceDropped(setting, events, m, pid, name)
  {
    var j :| 0 <= j < m && WritesAt(setting, events, j, pid, name);
    var s := Reached(setting, events[..j]);
    assert events[..j + 1] == events[..j] + [events[j]];
    ReachedSnoc(setting, events[..j], events[j]);
    StepPolicies(setting, s, pid);
    hide Reached, Next, DropsAt, WritesAt, LoadsAt;
    MissingFileWasDropped(setting, events, j + 1, m, name);
  }

  /**
   While every stored sandbox has its policy file, a save that ends this names a sandbox whose
   file an rm removed after the process had loaded the copy it saves, or after it had written
   the file of its own new sandbox.
   */
  lemma StrippingSaveCause(setting: Setting, events: seq<Event>, m: nat)
    requires m < |events| && ActsAt(setting, events, m)
    requires forall n :: 0 <= n <= m ==> FilesKept(Reached(setting, events[..n]).disk)
    requires !ActorAt(setting, events, m).todo[0].DropPolicyFile?
    requires Strips(Reached(setting, events[..m]).disk, ActorAt(setting, events, m))
    ensures exists name :: name !in Reached(setting, events[..m]).disk.policies
                           && SinceDropped(setting, events, m, events[m].pid, name)
  {
    var s := Reached(setting, events[..m]);
    var pid := events[m].pid;
    var p := ActorAt(setting, events, m);
    LoadsFirst(setting, events, m, pid);
    if p.record.Some? {
      WritesFirst(setting, events, m, pid);
    }
    hide Reached, HasLoaded, HasWritten, SinceDropped;
    var bad := Unfiled(s.disk);
    if HasBad(p.loaded.sandboxes, bad) {
      var i :| 0 <= i < |p.loaded.sandboxes| && bad(p.loaded.sandboxes[i]);
      CopyWasFiled(setting, events, m, pid, p.loaded.sandboxes[i].name);
    } else {
      OwnRecordBad(p, s.disk);
      OwnFileWasWritten(setting, events, m, pid, p.record.value.name);
    }
  }

  /** A save of a copy without bad records is bad for the record it inserts. */
  lemma OwnRecordBad(p: Process, d: Disk)
    requires SavesBad(p, Unfiled(d)) && !HasBad(p.loaded.sandboxes, Unfiled(d))
    ensures p.todo[0].SaveInserted? && p.record.Some? && p.record.value.name !in d.policies
  {
    var rs := p.loaded.sandboxes;
    assert forall i :: 0 <= i < |rs| ==> !Unfiled(d)(rs[i]);
  }
}
