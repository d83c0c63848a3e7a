/**
 What any number of processes keep under every schedule beside the index: policy files that
 load, and runtime ids that lead to the sandbox's own instance directory.
 */
module Lawful {
  import opened Wrappers
  import opened Policy
  import opened State
  import opened ConfigDir
  import opened Store
  import opened MacRuntime
  import opened Commands
  import opened Interleaving
  import opened Interference
  import History
  import Instances
  import Lifecycle

  // ---------- Every policy file loads ----------

  /** The text that an action writes, or will write, is a policy that loads. */
  ghost predicate TextLoads(setting: Setting, a: Action) {
    match a
    case WritePolicyFile(_, text) => setting.yaml.Load(text).Success?
    case Locate(_, purpose) => purpose.ToSet? ==> setting.yaml.Load(purpose.text).Success?
    case _ => true
  }

  ghost predicate TextsLoad(setting: Setting, todo: seq<Action>) {
    forall i :: 0 <= i < |todo| ==> TextLoads(setting, todo[i])
  }

  ghost predicate PoliciesLoad(setting: Setting, s: System) {
    && (forall name :: name in s.disk.policies ==> setting.yaml.Load(s.disk.policies[name]).Success?)
    && (forall pid :: pid in s.processes ==> TextsLoad(setting, s.processes[pid].todo))
  }

  lemma ScriptTexts(setting: Setting, todo: seq<Action>, r: Record, purpose: Purpose)
    requires todo != [] && TextsLoad(setting, todo)
    ensures TextsLoad(setting, todo[1..]) && TextsLoad(setting, [WriteEmptyIndex] + todo[1..])
    ensures TextsLoad(setting, Cleanup(r)) && TextsLoad(setting, [])
    ensures TextLoads(setting, Locate(None, purpose)) ==> TextsLoad(setting, Continuation(r, purpose))
  {
  }

  lemma ActKeepsTexts(setting: Setting, d: Disk, p: Process)
    requires p.todo != [] && TextsLoad(setting, p.todo)
    ensures TextsLoad(setting, Act(d, p).after.todo)
  {
    assert TextLoads(setting, p.todo[0]);
    hide TextsLoad, Cleanup, Continuation, GetOrLast, InsertInto, WithHash, RemoveFrom, DirOf, WithoutTree;
    forall r, purpose
      ensures TextsLoad(setting, p.todo[1..]) && TextsLoad(setting, [WriteEmptyIndex] + p.todo[1..])
      ensures TextsLoad(setting, Cleanup(r)) && TextsLoad(setting, [])
      ensures TextLoads(setting, Locate(None, purpose)) ==> TextsLoad(setting, Continuation(r, purpose))
    {
      ScriptTexts(setting, p.todo, r, purpose);
    }
  }

  lemma PrintedLoads(setting: Setting, policy: SandboxPolicy)
    requires setting.yaml.RoundTrip() && Complaint(policy).None?
    ensures setting.yaml.Load(setting.yaml.render(policy)).Success?
  {
    LoadPrinted(setting.yaml, policy);
    hide Complaint;
  }

  lemma CreateTexts(setting: Setting, input: CreateInput)
    requires setting.yaml.RoundTrip()
    ensures TextsLoad(setting, CreateScript(setting, input))
  {
    if Prepared(setting, input).Success? {
      Lifecycle.PreparedIsValid(setting, input);
      PrintedLoads(setting, Prepared(setting, input).value);
    }
    hide Prepared, RuntimeEffect, Complete, InstanceDir, Complaint;
  }

  lemma SetTexts(setting: Setting, file: Option<string>)
    requires setting.yaml.RoundTrip()
    ensures SetPurpose(setting, file).ToSet? ==> setting.yaml.Load(SetPurpose(setting, file).text).Success?
  {
    hide Complaint;
    var policy := PolicyFromFile(setting.yaml, file);
    if policy.Success? && Preflight(setting, policy.value).None? {
      PrintedLoads(setting, policy.value);
    }
  }

  lemma StartTexts(setting: Setting, c: Command)
    requires setting.yaml.RoundTrip()
    ensures TextsLoad(setting, Start(setting, c).todo)
  {
    hide CreateScript, RecordOf, SetPurpose;
    match c {
      case Create(input) => CreateTexts(setting, input);
      case PolicySet(key, file) => SetTexts(setting, file);
      case _ =>
    }
  }

  /** Under every schedule every policy file on disk loads, as will every text still to be written. */
  lemma {:induction false} EveryPolicyLoads(setting: Setting, events: seq<Event>)
    requires setting.yaml.RoundTrip()
    ensures PoliciesLoad(setting, Reached(setting, events))
  {
    hide TextsLoad, Act, Start;
    if events != [] {
      var init := events[..|events| - 1];
      EveryPolicyLoads(setting, init);
      var s, e := Reached(setting, init), events[|events| - 1];
      if Happens(s, e) {
        match e {
          case Spawn(pid, c) =>
            SpawnIndex(setting, s, pid, c);
            StartTexts(setting, c);
          case Step(pid) =>
            StepPolicies(setting, s, pid);
            History.StepProcess(setting, s, pid);
            ActKeepsTexts(setting, s.disk, s.processes[pid]);
            HeadLoads(setting, s.processes[pid].todo);
        }
        hide Next;
      }
    }
  }

  lemma HeadLoads(setting: Setting, todo: seq<Action>)
    requires todo != [] && TextsLoad(setting, todo)
    ensures TextLoads(setting, todo[0])
  {
  }

  /** Under every schedule the policy of a stored sandbox loads if and only if its file is there. */
  lemma StoredPolicyLoads(setting: Setting, events: seq<Event>, name: string)
    requires setting.yaml.RoundTrip()
    ensures var d := Reached(setting, events).disk;
            LoadedPolicy(d, setting.yaml, name).Success? <==> name in d.policies
  {
    EveryPolicyLoads(setting, events);
    hide Reached;
  }

  // ---------- Runtime ids lead to the sandbox's own directory ----------

  ghost predicate MacIdOk(setting: Setting, r: Record) {
    r.mechanism == Mac ==> SingleComponent(r.name) && r.runtimeId == MacRuntimeId(setting.root, r.name)
  }

  ghost function Alien(setting: Setting): Record -> bool {
    (r: Record) => !MacIdOk(setting, r)
  }

  /** An instance directory is dropped by the runtime id that its create gave. */
  ghost predicate DropsOwn(setting: Setting, a: Action) {
    a.DropInstance? ==> exists name :: SingleComponent(name) && a.runtimeId == MacRuntimeId(setting.root, name)
  }

  ghost predicate ProcessOk(setting: Setting, p: Process) {
    && !HasBad(p.loaded.sandboxes, Alien(setting))
    && (p.record.Some? ==> MacIdOk(setting, p.record.value))
    && forall i :: 0 <= i < |p.todo| ==> DropsOwn(setting, p.todo[i])
  }

  ghost predicate IdsOk(setting: Setting, s: System) {
    && AllGood(s.disk, Alien(setting))
    && forall pid :: pid in s.processes ==> ProcessOk(setting, s.processes[pid])
  }

  /** The commands of a schedule name sandboxes by single path components. */
  predicate NamesGiven(events: seq<Event>) {
    forall i :: 0 <= i < |events| && events[i].Spawn? ==> Lifecycle.NameOk(events[i].command)
  }

  lemma SavesNoAlien(setting: Setting, p: Process)
    requires p.todo != [] && ProcessOk(setting, p)
    ensures !SavesBad(p, Alien(setting))
  {
    hide MacRuntimeId, SingleComponent;
    var rs := p.loaded.sandboxes;
    assert forall i :: 0 <= i < |rs| ==> !Alien(setting)(rs[i]);
    if p.todo[0].SaveHashed? {
      var hash := p.todo[0].hash;
      assert forall i :: 0 <= i < |rs| ==> !Alien(setting)(rs[i].(policyHash := hash));
    }
  }

  lemma CleanupDrops(setting: Setting, gone: Record)
    requires MacIdOk(setting, gone)
    ensures forall i :: 0 <= i < |Cleanup(gone)| ==> DropsOwn(setting, Cleanup(gone)[i])
  {
    hide MacRuntimeId, SingleComponent;
    assert gone.mechanism == Mac ==> DropsOwn(setting, DropInstance(gone.runtimeId));
  }

  lemma ActKeepsDrops(setting: Setting, d: Disk, p: Process)
    requires p.todo != [] && ProcessOk(setting, p)
    ensures var after := Act(d, p).after.todo; forall i :: 0 <= i < |after| ==> DropsOwn(setting, after[i])
  {
    hide GetOrLast, InsertInto, WithHash, DirOf, WithoutTree, MacRuntimeId, SingleComponent, Position;
    if p.todo[0].SaveRemoved? {
      RemovedIdOk(setting, p.loaded, p.todo[0].target);
      hide RemoveFrom, DropsOwn, MacIdOk, Cleanup, HasBad;
      var removed := RemoveFrom(p.loaded, p.todo[0].target);
      if removed.Some? {
        CleanupDrops(setting, removed.value.1);
      }
    } else {
      hide RemoveFrom, MacIdOk, Cleanup, HasBad;
    }
  }

  lemma RemovedIdOk(setting: Setting, s: State, target: string)
    requires !HasBad(s.sandboxes, Alien(setting))
    ensures RemoveFrom(s, target).Some? ==> MacIdOk(setting, RemoveFrom(s, target).value.1)
  {
    hide MacIdOk;
    var p := Position(s.sandboxes, target);
    if p.Some? {
      assert !Alien(setting)(s.sandboxes[p.value]);
    }
  }

  lemma RecordIdOk(setting: Setting, input: CreateInput)
    requires SingleComponent(NameOf(input)) && RecordOf(setting, input).Some?
    ensures MacIdOk(setting, RecordOf(setting, input).value)
  {
    hide Prepared, MacCreateWrites;
  }

  lemma StartIsOk(setting: Setting, c: Command)
    requires Lifecycle.NameOk(c)
    ensures ProcessOk(setting, Start(setting, c))
  {
    hide SetPurpose, Prepared, RuntimeEffect, Complete, InstanceDir, RecordOf;
    if c.Create? && RecordOf(setting, c.input).Some? {
      RecordIdOk(setting, c.input);
    }
    NothingBad(Alien(setting));
  }

  lemma StepKeepsIds(setting: Setting, s: System, pid: nat)
    requires Happens(s, Step(pid)) && IdsOk(setting, s)
    ensures IdsOk(setting, Next(setting, s, Step(pid)))
  {
    var p := Actor(s, pid);
    StepIndex(setting, s, pid);
    History.StepProcess(setting, s, pid);
    ActKeepsDrops(setting, s.disk, p);
    SavesNoAlien(setting, p);
    SavedRecords(p, Alien(setting));
    hide Next, Act, Saving, SavesBad, HasBad, MacIdOk, DropsOwn;
  }

  /** Under every schedule a mac record, stored, loaded or pending, has the runtime id of its name. */
  lemma {:induction false} IdsAreOwn(setting: Setting, events: seq<Event>)
    requires NamesGiven(events)
    ensures IdsOk(setting, Reached(setting, events))
  {
    hide ProcessOk, Start;
    if events == [] {
    } else {
      var init := events[..|events| - 1];
      IdsAreOwn(setting, init);
      var s, e := Reached(setting, init), events[|events| - 1];
      if Happens(s, e) {
        match e {
          case Spawn(pid, c) =>
            SpawnIndex(setting, s, pid, c);
            StartIsOk(setting, c);
          case Step(pid) =>
            StepKeepsIds(setting, s, pid);
        }
        hide Next;
      }
    }
  }

  /**
   What an rm removes under every schedule is one instance directory, and this evicts just the
   mac sandbox that is stored under its name.
   */
  lemma DropsOwnTree(setting: Setting, events: seq<Event>, pid: nat, id: string)
    requires NamesGiven(events)
    requires var s := Reached(setting, events);
             pid in s.processes && s.processes[pid].todo != [] && s.processes[pid].todo[0] == DropInstance(id)
    ensures var d := Reached(setting, events).disk;
            exists name :: SingleComponent(name) && id == MacRuntimeId(setting.root, name)
                           && DirOf(id) == Some(InstanceDir(setting.root, name))
                           && (HoldsHome(setting, d, InstanceDir(setting.root, name)) <==> Instances.StoredMac(d, name))
  {
    IdsAreOwn(setting, events);
    var s := Reached(setting, events);
    hide Reached;
    assert DropsOwn(setting, s.processes[pid].todo[0]);
    var name :| SingleComponent(name) && id == MacRuntimeId(setting.root, name);
    DirOfCreated(setting.root, name);
    HomeIsOwn(setting, s.disk, name);
  }

  lemma HomeIsOwn(setting: Setting, d: Disk, name: string)
    requires AllGood(d, Alien(setting)) && SingleComponent(name)
    ensures HoldsHome(setting, d, InstanceDir(setting.root, name)) <==> Instances.StoredMac(d, name)
  {
    if d.index.Some? {
      var rs := d.index.value.sandboxes;
      forall i | 0 <= i < |rs| && rs[i].mechanism == Mac
        ensures Within(InstanceDir(setting.root, rs[i].name), InstanceDir(setting.root, name)) <==> rs[i].name == name
      {
        assert !Alien(setting)(rs[i]);
        OtherDirsSurvive(setting.root, name, rs[i].name);
      }
      hide Within, InstanceDir;
    }
  }
}
