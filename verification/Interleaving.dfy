/**
 Several processes on one configuration directory. No lock is held, so every file access
 of one process may fall between any two of another. A process is a script of actions, each
 with at most one file access; it may also never be scheduled again, which is a crash.
 */
module Interleaving {
  import opened Wrappers
  import opened Policy
  import opened State
  import opened ConfigDir
  import opened MacRuntime
  import opened Commands

  /** What a process does with the record it looked up. */
  datatype Purpose =
    | ToTouch
    | ToShow
    | ToSet(text: string, hash: string)
    | ToRefuse

  datatype Action =
    | CheckIndex
    | WriteEmptyIndex
    | WriteFiles(dir: string, files: Instance)
    | WritePolicyFile(name: string, text: string)
    | Locate(key: Option<string>, purpose: Purpose)
    | LoadIndex
    | SaveInserted
    | SaveTouched(name: string)
    | SaveHashed(name: string, hash: string)
    | SaveRemoved(target: string)
    | DropPolicyFile(name: string)
    | DropInstance(runtimeId: string)

  /** The actions left, the index copy loaded last, and the record still to be inserted. */
  datatype Process = Process(todo: seq<Action>, loaded: State, record: Option<Record>)

  const NO_FILES := Instance(None, None, None)

  /** The files given replace those there. */
  function Overlaid(there: Instance, given: Instance): Instance {
    Instance(if given.profile.Some? then given.profile else there.profile,
             if given.workdir.Some? then given.workdir else there.workdir,
             if given.policy.Some? then given.policy else there.policy)
  }

  // ---------- Scripts ----------

  function RuntimeScript(setting: Setting, input: CreateInput, policy: SandboxPolicy): seq<Action> {
    if policy.mechanism != Some(Mac) then [] else
    var dir := InstanceDir(setting.root, NameOf(input));
    var whole := Complete(setting, policy, input.workdir);
    [WriteFiles(dir, NO_FILES),
     WriteFiles(dir, Instance(whole.profile, None, None)),
     WriteFiles(dir, Instance(None, whole.workdir, None)),
     WriteFiles(dir, Instance(None, None, whole.policy))]
  }

  function CreateScript(setting: Setting, input: CreateInput): seq<Action> {
    var prepared := Prepared(setting, input);
    if prepared.Failure? || RuntimeEffect(NEW_DISK, setting, input, prepared.value).result.Failure? then []
    else RuntimeScript(setting, input, prepared.value)
         + [WritePolicyFile(NameOf(input), setting.yaml.render(prepared.value)), LoadIndex, SaveInserted]
  }

  function RecordOf(setting: Setting, input: CreateInput): Option<Record> {
    var prepared := Prepared(setting, input);
    if prepared.Failure? then None else
    var runtime := RuntimeEffect(NEW_DISK, setting, input, prepared.value).result;
    if runtime.Failure? then None else Some(NewRecord(setting, input, prepared.value, runtime.value))
  }

  function SetPurpose(setting: Setting, file: Option<string>): Purpose {
    match PolicyFromFile(setting.yaml, file)
    case Failure(_) => ToRefuse
    case Success(policy) =>
      if Preflight(setting, policy).Some? then ToRefuse
      else ToSet(setting.yaml.render(policy), setting.yaml.ContentHash(policy))
  }

  function BodyScript(setting: Setting, c: Command): seq<Action> {
    match c
    case Create(input) => CreateScript(setting, input)
    case Exec(key, _) => [Locate(key, ToTouch)]
    case PolicyGet(key) => [Locate(key, ToShow)]
    case PolicySet(key, file) => [Locate(key, SetPurpose(setting, file))]
    case Rm(target, _) => [LoadIndex, SaveRemoved(target)]
  }

  function Start(setting: Setting, c: Command): Process {
    Process([CheckIndex] + BodyScript(setting, c), EMPTY_STATE, if c.Create? then RecordOf(setting, c.input) else None)
  }

  /** What follows a successful lookup. */
  function Continuation(r: Record, purpose: Purpose): seq<Action> {
    match purpose
    case ToTouch => [LoadIndex, SaveTouched(r.name)]
    case ToShow => []
    case ToSet(text, hash) => [WritePolicyFile(r.name, text), LoadIndex, SaveHashed(r.name, hash)]
    case ToRefuse => []
  }

  /** What follows the index write of an rm. */
  function Cleanup(gone: Record): seq<Action> {
    [DropPolicyFile(gone.name)] + if gone.mechanism == Mac then [DropInstance(gone.runtimeId)] else []
  }

  // ---------- One action ----------

  datatype Outcome = Outcome(written: Option<Disk>, after: Process)

  function Stop(p: Process): Outcome {
    Outcome(None, p.(todo := []))
  }

  function SaveIndex(d: Disk, p: Process, s: Option<State>, more: seq<Action>): Outcome {
    match s
    case None => Stop(p)
    case Some(state) => Outcome(Some(d.(index := Some(state))), p.(todo := more))
  }

  /** The first action of a process, on the disk as it is now. */
  function Act(d: Disk, p: Process): Outcome
    requires p.todo != []
  {
    var rest := p.(todo := p.todo[1..]);
    match p.todo[0]
    case CheckIndex =>
      Outcome(None, if d.index.None? then rest.(todo := [WriteEmptyIndex] + rest.todo) else rest)
    case WriteEmptyIndex => Outcome(Some(d.(index := Some(EMPTY_STATE))), rest)
    case WriteFiles(dir, files) =>
      Outcome(Some(d.(instances := d.instances[dir := Overlaid(FileIn(d, dir), files)])), rest)
    case WritePolicyFile(name, text) => Outcome(Some(d.(policies := d.policies[name := text])), rest)
    case Locate(key, purpose) =>
      var found := if d.index.Some? then GetOrLast(d.index.value, key) else None;
      if found.None? then Stop(p) else Outcome(None, p.(todo := Continuation(found.value, purpose)))
    case LoadIndex => if d.index.None? then Stop(p) else Outcome(None, rest.(loaded := d.index.value))
    case SaveInserted =>
      if p.record.None? then Stop(p)
      else SaveIndex(d, p.(record := None), InsertInto(p.loaded, p.record.value), rest.todo)
    case SaveTouched(name) => SaveIndex(d, p, Some(Touched(p.loaded, name)), rest.todo)
    case SaveHashed(name, hash) => SaveIndex(d, p, WithHash(p.loaded, name, hash), rest.todo)
    case SaveRemoved(key) =>
      (match RemoveFrom(p.loaded, key)
       case None => Stop(p)
       case Some((s, gone)) =>
         SaveIndex(d, p, Some(s), Cleanup(gone)))
    case DropPolicyFile(name) => Outcome(Some(d.(policies := d.policies - {name})), rest)
    case DropInstance(runtimeId) =>
      (match DirOf(runtimeId)
       case None => Outcome(None, rest)
       case Some(dir) => Outcome(Some(d.(instances := WithoutTree(d.instances, dir))), rest))
  }

  /** The index that the first action of a process writes: made from its own copy alone. */
  function Saving(p: Process): Option<State>
    requires p.todo != []
  {
    match p.todo[0]
    case WriteEmptyIndex => Some(EMPTY_STATE)
    case SaveInserted => if p.record.None? then None else InsertInto(p.loaded, p.record.value)
    case SaveTouched(name) => Some(Touched(p.loaded, name))
    case SaveHashed(name, hash) => WithHash(p.loaded, name, hash)
    case SaveRemoved(key) =>
      var removed := RemoveFrom(p.loaded, key);
      if removed.None? then None else Some(removed.value.0)
    case _ => None
  }

  // ---------- Many processes ----------

  datatype System = System(disk: Disk, processes: map<nat, Process>, issued: set<string>)

  const NEW_SYSTEM := System(NEW_DISK, map[], {})

  datatype Event =
    | Spawn(pid: nat, command: Command)
    | Step(pid: nat)

  /** A new process has an unused number, and a create brings a UUID that was never issued. */
  predicate Happens(s: System, e: Event) {
    match e
    case Spawn(pid, c) =>
      pid !in s.processes && (c.Create? ==> c.input.uuid != "" && c.input.uuid !in s.issued)
    case Step(pid) => pid in s.processes && s.processes[pid].todo != []
  }

  function Next(setting: Setting, s: System, e: Event): System
    requires Happens(s, e)
  {
    match e
    case Spawn(pid, c) =>
      System(s.disk, s.processes[pid := Start(setting, c)], s.issued + if c.Create? then {c.input.uuid} else {})
    case Step(pid) =>
      var o := Act(s.disk, s.processes[pid]);
      System(if o.written.Some? then o.written.value else s.disk, s.processes[pid := o.after], s.issued)
  }

  /** The process that takes the next step. */
  function Actor(s: System, pid: nat): Process
    requires Happens(s, Step(pid))
  {
    s.processes[pid]
  }

  /** What a step does to the index, to the copies and to the records still to be inserted. */
  lemma StepIndex(setting: Setting, s: System, pid: nat)
    requires Happens(s, Step(pid))
    ensures var p := Actor(s, pid);
            var s' := Next(setting, s, Step(pid));
            && s'.issued == s.issued
            && s'.disk.index == (if Saving(p).Some? then Saving(p) else s.disk.index)
            && pid in s'.processes && s'.processes == s.processes[pid := s'.processes[pid]]
            && (if p.todo[0].LoadIndex? && s.disk.index.Some? then Some(s'.processes[pid].loaded) == s.disk.index
                else s'.processes[pid].loaded == p.loaded)
            && s'.processes[pid].record == (if p.todo[0].SaveInserted? then None else p.record)
  {
    hide GetOrLast, InsertInto, WithHash, RemoveFrom, DirOf, WithoutTree;
  }

  /** Any schedule; an event that cannot happen is skipped. */
  function Reached(setting: Setting, events: seq<Event>): System {
    if events == [] then NEW_SYSTEM else
    var s := Reached(setting, events[..|events| - 1]);
    var e := events[|events| - 1];
    if Happens(s, e) then Next(setting, s, e) else s
  }

  // ---------- What survives every interleaving ----------

  ghost predicate Unused(s: State, id: string) {
    forall i :: 0 <= i < |s.sandboxes| ==> s.sandboxes[i].id != id
  }

  /** An index that could be on disk: distinct names, distinct issued ids. */
  ghost predicate Proper(s: State, issued: set<string>) {
    && NamesDistinct(s.sandboxes)
    && IdsDistinct(s.sandboxes)
    && forall i :: 0 <= i < |s.sandboxes| ==> s.sandboxes[i].id in issued
  }

  /** The id is pending: issued, and in no index. */
  ghost predicate Pending(s: System, id: string) {
    && id in s.issued
    && (s.disk.index.Some? ==> Unused(s.disk.index.value, id))
    && forall q :: q in s.processes ==> Unused(s.processes[q].loaded, id)
  }

  ghost predicate Coherent(s: System) {
    && (s.disk.index.Some? ==> Proper(s.disk.index.value, s.issued))
    && (forall p :: p in s.processes ==> Proper(s.processes[p].loaded, s.issued))
    && (forall p :: p in s.processes && s.processes[p].record.Some? ==> Pending(s, s.processes[p].record.value.id))
    && (forall p, q | p in s.processes && q in s.processes && p != q
          :: s.processes[p].record.Some? && s.processes[q].record.Some? ==>
               s.processes[p].record.value.id != s.processes[q].record.value.id)
  }

  /** A changed index holds ids and names of the one it was made from. */
  ghost predicate Derived(s: State, from: State) {
    forall id :: Unused(from, id) ==> Unused(s, id)
  }

  lemma EmptyIsProper(issued: set<string>)
    ensures Proper(EMPTY_STATE, issued) && forall from :: Derived(EMPTY_STATE, from)
  {
  }

  lemma TouchedIsProper(s: State, name: string, issued: set<string>)
    requires Proper(s, issued)
    ensures Proper(Touched(s, name), issued) && Derived(Touched(s, name), s)
  {
  }

  lemma HashedIsProper(s: State, name: string, hash: string, issued: set<string>)
    requires Proper(s, issued) && WithHash(s, name, hash).Some?
    ensures Proper(WithHash(s, name, hash).value, issued) && Derived(WithHash(s, name, hash).value, s)
  {
    var s' := WithHash(s, name, hash).value;
    assert forall i :: 0 <= i < |s.sandboxes| ==>
      s'.sandboxes[i].name == s.sandboxes[i].name && s'.sandboxes[i].id == s.sandboxes[i].id;
  }

  lemma RemovedIsProper(s: State, key: string, issued: set<string>)
    requires Proper(s, issued) && RemoveFrom(s, key).Some?
    ensures Proper(RemoveFrom(s, key).value.0, issued) && Derived(RemoveFrom(s, key).value.0, s)
  {
    var n := Position(s.sandboxes, key).value;
    var rest := RemoveFrom(s, key).value.0.sandboxes;
    assert forall i :: 0 <= i < |rest| ==> rest[i] == s.sandboxes[if i < n then i else i + 1];
  }

  lemma InsertedIsProper(s: State, r: Record, issued: set<string>)
    requires Proper(s, issued) && InsertInto(s, r).Some?
    requires r.id in issued && Unused(s, r.id)
    ensures Proper(InsertInto(s, r).value, issued)
    ensures forall id :: Unused(s, id) && id != r.id ==> Unused(InsertInto(s, r).value, id)
  {
    var rs := s.sandboxes + [r];
    assert forall i :: 0 <= i < |s.sandboxes| ==> s.sandboxes[i].name != r.name && s.sandboxes[i].id != r.id;
  }

  /** A step that leaves the index and the copies alone, or gives the process less to insert. */
  lemma QuietStep(s: System, s': System, pid: nat)
    requires Coherent(s) && pid in s.processes
    requires pid in s'.processes && s'.processes == s.processes[pid := s'.processes[pid]]
    requires s'.issued == s.issued && s'.disk.index == s.disk.index
    requires s'.processes[pid].loaded == s.processes[pid].loaded || Some(s'.processes[pid].loaded) == s.disk.index
    requires s'.processes[pid].record.None? || s'.processes[pid].record == s.processes[pid].record
    ensures Coherent(s')
  {
    hide Proper, Unused;
    forall p | p in s'.processes && s'.processes[p].record.Some?
      ensures Pending(s', s'.processes[p].record.value.id)
    {
      assert Pending(s, s.processes[p].record.value.id);
    }
  }

  /** A step that writes an index made from the process's copy. */
  lemma SavingStep(s: System, s': System, pid: nat, made: State)
    requires Coherent(s) && pid in s.processes
    requires pid in s'.processes && s'.processes == s.processes[pid := s'.processes[pid]]
    requires s'.issued == s.issued && s'.disk.index == Some(made)
    requires s'.processes[pid].loaded == s.processes[pid].loaded
    requires s'.processes[pid].record.None? || s'.processes[pid].record == s.processes[pid].record
    requires Proper(made, s.issued)
    requires forall p :: p in s'.processes && s'.processes[p].record.Some? ==>
               Unused(made, s'.processes[p].record.value.id)
    ensures Coherent(s')
  {
    hide Proper, Unused;
    forall p | p in s'.processes && s'.processes[p].record.Some?
      ensures Pending(s', s'.processes[p].record.value.id)
    {
      assert Pending(s, s.processes[p].record.value.id);
    }
  }

  /** Made from the copy by a change other than an insertion. */
  lemma DerivingStep(s: System, s': System, pid: nat, made: State)
    requires Coherent(s) && pid in s.processes
    requires pid in s'.processes && s'.processes == s.processes[pid := s'.processes[pid]]
    requires s'.issued == s.issued && s'.disk.index == Some(made)
    requires s'.processes[pid].loaded == s.processes[pid].loaded && s'.processes[pid].record == s.processes[pid].record
    requires Proper(made, s.issued) && Derived(made, s.processes[pid].loaded)
    ensures Coherent(s')
  {
    hide Proper, Unused;
    forall p | p in s'.processes && s'.processes[p].record.Some?
      ensures Unused(made, s'.processes[p].record.value.id)
    {
      assert Pending(s, s.processes[p].record.value.id);
    }
    SavingStep(s, s', pid, made);
  }

  lemma InsertingStep(s: System, s': System, pid: nat)
    requires Coherent(s) && pid in s.processes && s.processes[pid].record.Some?
    requires pid in s'.processes && s'.processes == s.processes[pid := s'.processes[pid]]
    requires InsertInto(s.processes[pid].loaded, s.processes[pid].record.value).Some?
    requires s'.disk.index == InsertInto(s.processes[pid].loaded, s.processes[pid].record.value)
    requires s'.issued == s.issued
    requires s'.processes[pid].loaded == s.processes[pid].loaded && s'.processes[pid].record.None?
    ensures Coherent(s')
  {
    var p := s.processes[pid];
    var r := p.record.value;
    assert Pending(s, r.id);
    InsertedIsProper(p.loaded, r, s.issued);
    var made := InsertInto(p.loaded, r).value;
    hide InsertInto, Proper, Unused;
    forall q | q in s'.processes && s'.processes[q].record.Some?
      ensures Unused(made, s'.processes[q].record.value.id)
    {
      assert Pending(s, s.processes[q].record.value.id);
    }
    SavingStep(s, s', pid, made);
  }

  lemma StepKeepsCoherent(setting: Setting, s: System, pid: nat)
    requires Coherent(s) && Happens(s, Step(pid))
    ensures Coherent(Next(setting, s, Step(pid)))
  {
    var s' := Next(setting, s, Step(pid));
    var p := s.processes[pid];
    assert Proper(p.loaded, s.issued);
    StepIndex(setting, s, pid);
    hide Next, Coherent, Proper, Derived, InsertInto, WithHash, RemoveFrom;
    if Saving(p).None? {
      QuietStep(s, s', pid);
    } else {
      match p.todo[0] {
        case WriteEmptyIndex =>
          EmptyIsProper(s.issued);
          DerivingStep(s, s', pid, EMPTY_STATE);
        case SaveInserted =>
          InsertingStep(s, s', pid);
        case SaveTouched(name) =>
          TouchedIsProper(p.loaded, name, s.issued);
          DerivingStep(s, s', pid, Touched(p.loaded, name));
        case SaveHashed(name, hash) =>
          HashedIsProper(p.loaded, name, hash, s.issued);
          DerivingStep(s, s', pid, WithHash(p.loaded, name, hash).value);
        case SaveRemoved(key) =>
          RemovedIsProper(p.loaded, key, s.issued);
          DerivingStep(s, s', pid, RemoveFrom(p.loaded, key).value.0);
        case _ =>
      }
    }
  }

  lemma RecordHasUuid(setting: Setting, input: CreateInput)
    ensures RecordOf(setting, input).Some? ==> RecordOf(setting, input).value.id == input.uuid
  {
    hide Prepared, RuntimeEffect;
  }

  lemma SpawnKeepsCoherent(setting: Setting, s: System, pid: nat, c: Command)
    requires Coherent(s) && Happens(s, Spawn(pid, c))
    ensures Coherent(Next(setting, s, Spawn(pid, c)))
  {
    var s' := Next(setting, s, Spawn(pid, c));
    if c.Create? {
      RecordHasUuid(setting, c.input);
    }
    hide RecordOf, BodyScript;
    assert forall st, id :: Proper(st, s.issued) && id !in s.issued ==> Unused(st, id);
    assert forall st :: Proper(st, s.issued) ==> Proper(st, s'.issued);
    assert Proper(EMPTY_STATE, s'.issued) && forall id :: Unused(EMPTY_STATE, id);
    hide Proper, Unused;
    forall p | p in s'.processes && s'.processes[p].record.Some?
      ensures Pending(s', s'.processes[p].record.value.id)
    {
      if p != pid {
        assert Pending(s, s.processes[p].record.value.id);
      }
    }
    forall p, q | p in s'.processes && q in s'.processes && p != q
      && s'.processes[p].record.Some? && s'.processes[q].record.Some?
      ensures s'.processes[p].record.value.id != s'.processes[q].record.value.id
    {
      if p != pid {
        assert Pending(s, s.processes[p].record.value.id);
      }
      if q != pid {
        assert Pending(s, s.processes[q].record.value.id);
      }
    }
  }

  lemma {:induction false} AlwaysCoherent(setting: Setting, events: seq<Event>)
    ensures Coherent(Reached(setting, events))
  {
    hide Coherent, Next;
    if events == [] {
      NewSystemIsCoherent();
    } else {
      var init := events[..|events| - 1];
      AlwaysCoherent(setting, init);
      var s, e := Reached(setting, init), events[|events| - 1];
      if Happens(s, e) {
        match e {
          case Spawn(pid, c) => SpawnKeepsCoherent(setting, s, pid, c);
          case Step(pid) => StepKeepsCoherent(setting, s, pid);
        }
      }
    }
  }

  lemma NewSystemIsCoherent()
    ensures Coherent(NEW_SYSTEM)
  {
  }

  /**
   Under every interleaving of any number of processes, every index ever on disk has
   pairwise distinct names and pairwise distinct ids, and asking for no name finds a stored
   record exactly when there is one.
   */
  lemma EveryIndexIsProper(setting: Setting, events: seq<Event>, n: nat, s: State)
    requires n <= |events| && Reached(setting, events[..n]).disk.index == Some(s)
    ensures NamesDistinct(s.sandboxes) && IdsDistinct(s.sandboxes)
    ensures GetOrLast(s, None).Some? <==> s.sandboxes != []
    ensures GetOrLast(s, None).Some? ==> GetOrLast(s, None).value in s.sandboxes
  {
    AlwaysCoherent(setting, events[..n]);
    hide Reached;
    GetOrLastFinds(s);
  }
}
