/**
 What processes without a lock do to each other: for the last used name, the policy files, the
 recorded hashes, the directories of mac sandboxes and the stored sandboxes themselves, exactly
 the steps that break them.
 */
module Interference {
  import opened Wrappers
  import opened Policy
  import opened State
  import opened ConfigDir
  import opened MacRuntime
  import opened Commands
  import opened Interleaving
  import opened Uninterrupted
  import Agreement
  import Lifecycle

  // ---------- What one event does ----------

  lemma StepPolicies(setting: Setting, s: System, pid: nat)
    requires Happens(s, Step(pid))
    ensures var p := Actor(s, pid);
            Next(setting, s, Step(pid)).disk.policies ==
            match p.todo[0]
            case WritePolicyFile(name, text) => s.disk.policies[name := text]
            case DropPolicyFile(name) => s.disk.policies - {name}
            case _ => s.disk.policies
  {
    hide GetOrLast, InsertInto, WithHash, RemoveFrom, DirOf, WithoutTree;
  }

  lemma SpawnIndex(setting: Setting, s: System, pid: nat, c: Command)
    requires Happens(s, Spawn(pid, c))
    ensures var s' := Next(setting, s, Spawn(pid, c));
            s'.disk == s.disk && s'.processes == s.processes[pid := Start(setting, c)]
  {
    hide Start;
  }

  // ---------- The last used name ----------

  /** The unchecked touch of a name that the process's copy does not have. */
  predicate Dangles(p: Process)
    requires p.todo != []
  {
    p.todo[0].SaveTouched? && !HasName(p.loaded.sandboxes, p.todo[0].name)
  }

  ghost predicate DiskLastUsed(s: System) {
    s.disk.index.Some? ==> LastUsedStored(s.disk.index.value)
  }

  /** On disk and in every copy the last used name is a stored one. */
  ghost predicate LastUsedEverywhere(s: System) {
    && DiskLastUsed(s)
    && forall p :: p in s.processes ==> LastUsedStored(s.processes[p].loaded)
  }

  lemma SavingLastUsed(p: Process)
    requires p.todo != [] && Saving(p).Some? && NamesDistinct(p.loaded.sandboxes)
    ensures Dangles(p) ==> !LastUsedStored(Saving(p).value)
    ensures LastUsedStored(p.loaded) && !Dangles(p) ==> LastUsedStored(Saving(p).value)
  {
    if LastUsedStored(p.loaded) {
      match p.todo[0] {
        case SaveInserted => Lifecycle.InsertKeepsSound(p.loaded, p.record.value);
        case SaveHashed(name, hash) => Lifecycle.HashKeepsSound(p.loaded, name, hash);
        case SaveRemoved(key) => Lifecycle.RemoveKeepsSound(p.loaded, key);
        case _ =>
      }
    }
  }

  /** A step keeps the last used name stored, on disk and in every copy, if and only if it is no dangling touch. */
  lemma LastUsedStep(setting: Setting, s: System, pid: nat)
    requires Coherent(s) && Happens(s, Step(pid)) && LastUsedEverywhere(s)
    ensures LastUsedEverywhere(Next(setting, s, Step(pid))) <==> !Dangles(Actor(s, pid))
    ensures Dangles(Actor(s, pid)) ==> !DiskLastUsed(Next(setting, s, Step(pid)))
  {
    var p := Actor(s, pid);
    assert Proper(p.loaded, s.issued);
    StepIndex(setting, s, pid);
    if Saving(p).Some? {
      SavingLastUsed(p);
    }
    hide Coherent, Next, Saving, LastUsedStored, HasName;
  }

  /** The event is a dangling touch. */
  ghost predicate DanglingAt(setting: Setting, events: seq<Event>, i: nat)
    requires i < |events|
  {
    var s := Reached(setting, events[..i]);
    events[i].Step? && Happens(s, events[i]) && Dangles(Actor(s, events[i].pid))
  }

  lemma {:induction false} NoDanglingKeeps(setting: Setting, events: seq<Event>)
    requires forall i :: 0 <= i < |events| ==> !DanglingAt(setting, events, i)
    ensures LastUsedEverywhere(Reached(setting, events))
  {
    hide LastUsedEverywhere, Dangles, Next;
    if events == [] {
      NewSystemLastUsed();
    } else {
      var n := |events| - 1;
      var init := events[..n];
      forall i | 0 <= i < n
        ensures !DanglingAt(setting, init, i)
      {
        assert init[..i] == events[..i];
        assert !DanglingAt(setting, events, i);
      }
      NoDanglingKeeps(setting, init);
      AlwaysCoherent(setting, init);
      var s, e := Reached(setting, init), events[n];
      assert !DanglingAt(setting, events, n);
      if Happens(s, e) {
        match e {
          case Spawn(pid, c) => SpawnKeepsLastUsed(setting, s, pid, c);
          case Step(pid) => LastUsedStep(setting, s, pid);
        }
      }
    }
  }

  lemma NewSystemLastUsed()
    ensures LastUsedEverywhere(NEW_SYSTEM)
  {
  }

  lemma SpawnKeepsLastUsed(setting: Setting, s: System, pid: nat, c: Command)
    requires Happens(s, Spawn(pid, c)) && LastUsedEverywhere(s)
    ensures LastUsedEverywhere(Next(setting, s, Spawn(pid, c)))
  {
    SpawnIndex(setting, s, pid, c);
    assert Start(setting, c).loaded == EMPTY_STATE by {
      hide BodyScript, RecordOf;
    }
    hide Next, Start;
  }

  /** The last used name is stored after every event of a schedule, if and only if none is a dangling touch. */
  lemma LastUsedThroughout(setting: Setting, events: seq<Event>)
    ensures (forall n :: 0 <= n <= |events| ==> DiskLastUsed(Reached(setting, events[..n]))) <==>
            (forall i :: 0 <= i < |events| ==> !DanglingAt(setting, events, i))
  {
    hide Dangles, Next, LastUsedStored;
    if forall i :: 0 <= i < |events| ==> !DanglingAt(setting, events, i) {
      forall n | 0 <= n <= |events|
        ensures DiskLastUsed(Reached(setting, events[..n]))
      {
        PrefixDangles(setting, events, n);
        NoDanglingKeeps(setting, events[..n]);
      }
    } else {
      var i :| 0 <= i < |events| && DanglingAt(setting, events, i);
      TouchBreaks(setting, events, i);
      assert !DiskLastUsed(Reached(setting, events[..i + 1]));
    }
  }

  lemma PrefixDangles(setting: Setting, events: seq<Event>, n: nat)
    requires n <= |events| && forall i :: 0 <= i < |events| ==> !DanglingAt(setting, events, i)
    ensures forall i :: 0 <= i < n ==> !DanglingAt(setting, events[..n], i)
  {
    forall i | 0 <= i < n
      ensures !DanglingAt(setting, events[..n], i)
    {
      assert events[..n][..i] == events[..i];
      assert !DanglingAt(setting, events, i);
    }
  }

  lemma TouchBreaks(setting: Setting, events: seq<Event>, i: nat)
    requires i < |events| && DanglingAt(setting, events, i)
    ensures !DiskLastUsed(Reached(setting, events[..i + 1]))
  {
    assert events[..i + 1] == events[..i] + [events[i]];
    ReachedSnoc(setting, events[..i], events[i]);
    StepIndex(setting, Reached(setting, events[..i]), events[i].pid);
    hide Reached, Next;
  }

  // ---------- The records that a save writes ----------

  ghost predicate HasBad(rs: seq<Record>, bad: Record -> bool) {
    exists i :: 0 <= i < |rs| && bad(rs[i])
  }

  /** No stored record is bad. */
  ghost predicate AllGood(d: Disk, bad: Record -> bool) {
    d.index.Some? ==> !HasBad(d.index.value.sandboxes, bad)
  }

  /** A save that writes a bad record: one of the process's copy that it keeps, or the one it inserts. */
  ghost predicate SavesBad(p: Process, bad: Record -> bool) {
    var rs := p.loaded.sandboxes;
    p.todo != [] &&
    match p.todo[0]
    case SaveInserted =>
      && p.record.Some? && !HasName(rs, p.record.value.name)
      && (HasBad(rs, bad) || bad(p.record.value))
    case SaveTouched(_) => HasBad(rs, bad)
    case SaveHashed(name, hash) =>
      var n := NamePosition(rs, name);
      n.Some? && exists i :: 0 <= i < |rs| && bad(if i == n.value then rs[i].(policyHash := hash) else rs[i])
    case SaveRemoved(key) =>
      var n := Position(rs, key);
      n.Some? && exists i :: 0 <= i < |rs| && i != n.value && bad(rs[i])
    case _ => false
  }

  lemma InsertedRecords(s: State, r: Record, bad: Record -> bool)
    requires InsertInto(s, r).Some?
    ensures HasBad(InsertInto(s, r).value.sandboxes, bad) <==> HasBad(s.sandboxes, bad) || bad(r)
  {
    var rs, rs' := s.sandboxes, s.sandboxes + [r];
    assert rs'[|rs|] == r && forall i :: 0 <= i < |rs| ==> rs'[i] == rs[i];
  }

  lemma HashedRecords(s: State, name: string, hash: string, bad: Record -> bool)
    requires WithHash(s, name, hash).Some?
    ensures var rs, n := s.sandboxes, NamePosition(s.sandboxes, name).value;
            HasBad(WithHash(s, name, hash).value.sandboxes, bad) <==>
            exists i :: 0 <= i < |rs| && bad(if i == n then rs[i].(policyHash := hash) else rs[i])
  {
    var rs, n := s.sandboxes, NamePosition(s.sandboxes, name).value;
    var rs' := WithHash(s, name, hash).value.sandboxes;
    assert |rs'| == |rs|;
    assert forall i :: 0 <= i < |rs| ==> rs'[i] == if i == n then rs[i].(policyHash := hash) else rs[i];
  }

  lemma RecordsWithout(rs: seq<Record>, n: nat, bad: Record -> bool)
    requires n < |rs|
    ensures HasBad(rs[..n] + rs[n + 1..], bad) <==> exists i :: 0 <= i < |rs| && i != n && bad(rs[i])
  {
    var rest := rs[..n] + rs[n + 1..];
    if i :| 0 <= i < |rs| && i != n && bad(rs[i]) {
      assert rest[if i < n then i else i - 1] == rs[i];
    }
    if HasBad(rest, bad) {
      var i :| 0 <= i < |rest| && bad(rest[i]);
      var j := if i < n then i else i + 1;
      assert rest[i] == rs[j] && j != n;
    }
  }

  /** A save writes a bad record if and only if it is such a one. */
  lemma SavedRecords(p: Process, bad: Record -> bool)
    requires p.todo != []
    ensures SavesBad(p, bad) <==> Saving(p).Some? && HasBad(Saving(p).value.sandboxes, bad)
  {
    hide HasBad;
    match p.todo[0] {
      case WriteEmptyIndex => NothingBad(bad);
      case SaveInserted =>
        if Saving(p).Some? {
          InsertedRecords(p.loaded, p.record.value, bad);
        }
      case SaveHashed(name, hash) =>
        if Saving(p).Some? {
          HashedRecords(p.loaded, name, hash, bad);
        }
      case SaveRemoved(key) =>
        if Saving(p).Some? {
          RecordsWithout(p.loaded.sandboxes, Position(p.loaded.sandboxes, key).value, bad);
        }
      case _ =>
    }
  }

  lemma NothingBad(bad: Record -> bool)
    ensures !HasBad([], bad)
  {
  }

  // ---------- From steps to schedules ----------

  /** The event is a step that happens. */
  ghost predicate ActsAt(setting: Setting, events: seq<Event>, i: nat)
    requires i < |events|
  {
    events[i].Step? && Happens(Reached(setting, events[..i]), events[i])
  }

  /** The process that takes the step. */
  ghost function ActorAt(setting: Setting, events: seq<Event>, i: nat): (p: Process)
    requires i < |events| && ActsAt(setting, events, i)
    ensures p.todo != []
  {
    Actor(Reached(setting, events[..i]), events[i].pid)
  }

  /** What a single step keeps if and only if it does not break it, a schedule keeps if and only if no step does. */
  lemma EventsThroughout(setting: Setting, events: seq<Event>, keeps: Disk -> bool, breaks: (Disk, Process) -> bool)
    requires keeps(NEW_DISK)
    requires forall i :: 0 <= i < |events| && ActsAt(setting, events, i) ==>
               var s := Reached(setting, events[..i]);
               keeps(s.disk) ==>
                 (keeps(Next(setting, s, events[i]).disk) <==> !breaks(s.disk, ActorAt(setting, events, i)))
    ensures (forall n :: 0 <= n <= |events| ==> keeps(Reached(setting, events[..n]).disk)) <==>
            (forall i :: 0 <= i < |events| && ActsAt(setting, events, i) ==>
               !breaks(Reached(setting, events[..i]).disk, ActorAt(setting, events, i)))
  {
    hide Reached, Next, ActsAt, ActorAt;
    EmptySchedule(setting, events);
    var kept: nat -> bool := (i: nat) => i <= |events| && keeps(Reached(setting, events[..i]).disk);
    var broken: nat -> bool := (i: nat) => i < |events| && ActsAt(setting, events, i)
                                    && breaks(Reached(setting, events[..i]).disk, ActorAt(setting, events, i));
    forall i: nat | i < |events| && kept(i)
      ensures kept(i + 1) <==> !broken(i)
    {
      EventDisk(setting, events, i);
    }
    AllTheWay(|events|, kept, broken);
    assert forall i: nat :: i <= |events| ==> (kept(i) <==> keeps(Reached(setting, events[..i]).disk));
    assert forall i: nat :: i < |events| && ActsAt(setting, events, i) ==>
      (broken(i) <==> breaks(Reached(setting, events[..i]).disk, ActorAt(setting, events, i)));
    assert forall i: nat :: i < |events| && !ActsAt(setting, events, i) ==> !broken(i);
  }

  lemma EmptySchedule(setting: Setting, events: seq<Event>)
    ensures Reached(setting, events[..0]) == NEW_SYSTEM
  {
  }

  /** Only a step that happens changes the disk. */
  lemma EventDisk(setting: Setting, events: seq<Event>, i: nat)
    requires i < |events|
    ensures var s := Reached(setting, events[..i]);
            Reached(setting, events[..i + 1]).disk ==
            if ActsAt(setting, events, i) then Next(setting, s, events[i]).disk else s.disk
  {
    assert events[..i + 1] == events[..i] + [events[i]];
    ReachedSnoc(setting, events[..i], events[i]);
    var s := Reached(setting, events[..i]);
    if Happens(s, events[i]) && events[i].Spawn? {
      SpawnIndex(setting, s, events[i].pid, events[i].command);
    }
    hide Next;
  }

  // ---------- Policy files ----------

  /** The sandbox has no policy file. */
  ghost function Unfiled(d: Disk): Record -> bool {
    (r: Record) => r.name !in d.policies
  }

  /** Every stored sandbox has a policy file. */
  ghost predicate FilesKept(d: Disk) {
    AllGood(d, Unfiled(d))
  }

  /** The step removes the file of a stored sandbox, or saves a sandbox whose file is gone. */
  ghost predicate Strips(d: Disk, p: Process) {
    p.todo != [] &&
    match p.todo[0]
    case DropPolicyFile(name) => Stored(d, name)
    case _ => SavesBad(p, Unfiled(d))
  }

  /** A step leaves every stored sandbox its policy file if and only if it does neither. */
  lemma FilesStep(setting: Setting, s: System, pid: nat)
    requires Happens(s, Step(pid)) && FilesKept(s.disk)
    ensures FilesKept(Next(setting, s, Step(pid)).disk) <==> !Strips(s.disk, Actor(s, pid))
  {
    StepIndex(setting, s, pid);
    StepPolicies(setting, s, pid);
    var p := Actor(s, pid);
    SavedRecords(p, Unfiled(s.disk));
    assert Saving(p).Some? ==> !p.todo[0].DropPolicyFile? && !p.todo[0].WritePolicyFile?;
    hide Next, Saving, SavesBad;
    var d' := Next(setting, s, Step(pid)).disk;
    if p.todo[0].DropPolicyFile? && Stored(s.disk, p.todo[0].name) {
      var i :| 0 <= i < |s.disk.index.value.sandboxes| && s.disk.index.value.sandboxes[i].name == p.todo[0].name;
      assert Unfiled(d')(d'.index.value.sandboxes[i]);
    }
    assert forall r: Record :: Unfiled(d')(r) && !Unfiled(s.disk)(r) ==> p.todo[0] == DropPolicyFile(r.name);
  }

  /** After every event of a schedule every stored sandbox has its policy file, if and only if no step strips one. */
  lemma FilesThroughout(setting: Setting, events: seq<Event>)
    ensures (forall n :: 0 <= n <= |events| ==> FilesKept(Reached(setting, events[..n]).disk)) <==>
            (forall i :: 0 <= i < |events| && ActsAt(setting, events, i) ==>
               !Strips(Reached(setting, events[..i]).disk, ActorAt(setting, events, i)))
  {
    forall i | 0 <= i < |events| && ActsAt(setting, events, i) && FilesKept(Reached(setting, events[..i]).disk)
      ensures FilesKept(Next(setting, Reached(setting, events[..i]), events[i]).disk) <==>
              !Strips(Reached(setting, events[..i]).disk, ActorAt(setting, events, i))
    {
      FilesStep(setting, Reached(setting, events[..i]), events[i].pid);
    }
    assert FilesKept(NEW_DISK);
    hide FilesKept, Strips, Reached, Next, ActsAt, ActorAt;
    var keeps: Disk -> bool := d => FilesKept(d);
    var breaks: (Disk, Process) -> bool := (d, p) => Strips(d, p);
    EventsThroughout(setting, events, keeps, breaks);
    assert forall n :: 0 <= n <= |events| ==>
      keeps(Reached(setting, events[..n]).disk) == FilesKept(Reached(setting, events[..n]).disk);
    assert forall i :: 0 <= i < |events| && ActsAt(setting, events, i) ==>
      breaks(Reached(setting, events[..i]).disk, ActorAt(setting, events, i)) ==
      Strips(Reached(setting, events[..i]).disk, ActorAt(setting, events, i));
  }

  // ---------- Hashes ----------

  /** The sandbox's recorded hash is not that of its policy file. */
  ghost function Misfiled(setting: Setting, d: Disk): Record -> bool {
    (r: Record) => !Agreement.HashOk(setting, d, r)
  }

  lemma HashesAreGood(setting: Setting, d: Disk)
    ensures Agreement.HashesAgree(setting, d) <==> AllGood(d, Misfiled(setting, d))
  {
    if d.index.Some? {
      var rs := d.index.value.sandboxes;
      assert forall i :: 0 <= i < |rs| ==> (Misfiled(setting, d)(rs[i]) <==> !Agreement.HashOk(setting, d, rs[i]));
    }
  }

  ghost predicate StoredUnderOther(d: Disk, name: string, hash: string) {
    d.index.Some? && exists i :: 0 <= i < |d.index.value.sandboxes|
                       && d.index.value.sandboxes[i].name == name
                       && d.index.value.sandboxes[i].policyHash != hash
  }

  /**
   The step writes the policy file of a sandbox stored under another hash, removes that of a
   stored one, or saves a sandbox whose hash is not that of its file.
   */
  ghost predicate Misfiles(setting: Setting, d: Disk, p: Process) {
    p.todo != [] &&
    match p.todo[0]
    case WritePolicyFile(name, text) => StoredUnderOther(d, name, setting.yaml.digest(text))
    case DropPolicyFile(name) => Stored(d, name)
    case _ => SavesBad(p, Misfiled(setting, d))
  }

  /** A step keeps every recorded hash that of its file if and only if it does none of these. */
  lemma HashesStep(setting: Setting, s: System, pid: nat)
    requires Happens(s, Step(pid)) && Agreement.HashesAgree(setting, s.disk)
    ensures Agreement.HashesAgree(setting, Next(setting, s, Step(pid)).disk) <==>
            !Misfiles(setting, s.disk, Actor(s, pid))
  {
    StepIndex(setting, s, pid);
    StepPolicies(setting, s, pid);
    var p := Actor(s, pid);
    var d, d' := s.disk, Next(setting, s, Step(pid)).disk;
    SavedRecords(p, Misfiled(setting, d));
    HashesAreGood(setting, d);
    HashesAreGood(setting, d');
    assert Saving(p).Some? ==> !p.todo[0].DropPolicyFile? && !p.todo[0].WritePolicyFile?;
    hide Next, Saving, SavesBad, Agreement.HashesAgree;
    match p.todo[0] {
      case WritePolicyFile(name, text) => WrittenHashes(setting, d, d', name, text);
      case DropPolicyFile(name) => DroppedHashes(setting, d, d', name);
      case _ => SamePolicies(setting, d, d');
    }
  }

  lemma SamePolicies(setting: Setting, d: Disk, d': Disk)
    requires d'.policies == d.policies
    ensures forall rs :: HasBad(rs, Misfiled(setting, d')) <==> HasBad(rs, Misfiled(setting, d))
  {
    assert forall r: Record :: Misfiled(setting, d')(r) == Misfiled(setting, d)(r);
  }

  lemma WrittenHashes(setting: Setting, d: Disk, d': Disk, name: string, text: string)
    requires AllGood(d, Misfiled(setting, d)) && d'.index == d.index && d'.policies == d.policies[name := text]
    ensures AllGood(d', Misfiled(setting, d')) <==>
            !StoredUnderOther(d, name, setting.yaml.digest(text))
  {
    if d.index.Some? {
      var rs := d.index.value.sandboxes;
      assert forall i :: 0 <= i < |rs| ==> !Misfiled(setting, d)(rs[i]);
      assert forall i :: 0 <= i < |rs| ==>
        (Misfiled(setting, d')(rs[i]) <==> rs[i].name == name && rs[i].policyHash != setting.yaml.digest(text));
    }
  }

  lemma DroppedHashes(setting: Setting, d: Disk, d': Disk, name: string)
    requires AllGood(d, Misfiled(setting, d)) && d'.index == d.index && d'.policies == d.policies - {name}
    ensures AllGood(d', Misfiled(setting, d')) <==> !Stored(d, name)
  {
    if d.index.Some? {
      var rs := d.index.value.sandboxes;
      assert forall i :: 0 <= i < |rs| ==> !Misfiled(setting, d)(rs[i]);
      assert forall i :: 0 <= i < |rs| ==> (Misfiled(setting, d')(rs[i]) <==> rs[i].name == name);
    }
  }

  /** After every event of a schedule every hash is that of its file, if and only if no step misfiles one. */
  lemma HashesThroughout(setting: Setting, events: seq<Event>)
    ensures (forall n :: 0 <= n <= |events| ==> Agreement.HashesAgree(setting, Reached(setting, events[..n]).disk)) <==>
            (forall i :: 0 <= i < |events| && ActsAt(setting, events, i) ==>
               !Misfiles(setting, Reached(setting, events[..i]).disk, ActorAt(setting, events, i)))
  {
    forall i | 0 <= i < |events| && ActsAt(setting, events, i)
      && Agreement.HashesAgree(setting, Reached(setting, events[..i]).disk)
      ensures Agreement.HashesAgree(setting, Next(setting, Reached(setting, events[..i]), events[i]).disk) <==>
              !Misfiles(setting, Reached(setting, events[..i]).disk, ActorAt(setting, events, i))
    {
      HashesStep(setting, Reached(setting, events[..i]), events[i].pid);
    }
    Agreement.NewDiskAgrees(setting);
    hide Agreement.HashesAgree, Misfiles, Reached, Next, ActsAt, ActorAt;
    var keeps: Disk -> bool := d => Agreement.HashesAgree(setting, d);
    var breaks: (Disk, Process) -> bool := (d, p) => Misfiles(setting, d, p);
    EventsThroughout(setting, events, keeps, breaks);
    assert forall n :: 0 <= n <= |events| ==>
      keeps(Reached(setting, events[..n]).disk) == Agreement.HashesAgree(setting, Reached(setting, events[..n]).disk);
    assert forall i :: 0 <= i < |events| && ActsAt(setting, events, i) ==>
      breaks(Reached(setting, events[..i]).disk, ActorAt(setting, events, i)) ==
      Misfiles(setting, Reached(setting, events[..i]).disk, ActorAt(setting, events, i));
  }

  // ---------- Mac instance directories ----------

  /** A mac sandbox without its instance directory. */
  ghost function Homeless(setting: Setting, d: Disk): Record -> bool {
    (r: Record) => r.mechanism == Mac && InstanceDir(setting.root, r.name) !in d.instances
  }

  /** Every stored mac sandbox has its instance directory. */
  ghost predicate HomesKept(setting: Setting, d: Disk) {
    AllGood(d, Homeless(setting, d))
  }

  /** The directory of a stored mac sandbox lies in the tree at `dir`. */
  ghost predicate HoldsHome(setting: Setting, d: Disk, dir: string) {
    d.index.Some? && exists i :: 0 <= i < |d.index.value.sandboxes|
                       && d.index.value.sandboxes[i].mechanism == Mac
                       && Within(InstanceDir(setting.root, d.index.value.sandboxes[i].name), dir)
  }

  /** The step removes the tree with a stored mac sandbox's directory, or saves one whose directory is gone. */
  ghost predicate Evicts(setting: Setting, d: Disk, p: Process) {
    p.todo != [] &&
    match p.todo[0]
    case DropInstance(id) => DirOf(id).Some? && HoldsHome(setting, d, DirOf(id).value)
    case _ => SavesBad(p, Homeless(setting, d))
  }

  lemma StepInstances(setting: Setting, s: System, pid: nat)
    requires Happens(s, Step(pid))
    ensures var p := Actor(s, pid);
            var after := Next(setting, s, Step(pid)).disk.instances;
            match p.todo[0]
            case WriteFiles(dir, files) => after == s.disk.instances[dir := Overlaid(FileIn(s.disk, dir), files)]
            case DropInstance(id) =>
              after == (if DirOf(id).Some? then WithoutTree(s.disk.instances, DirOf(id).value) else s.disk.instances)
            case _ => after == s.disk.instances
  {
    hide GetOrLast, InsertInto, WithHash, RemoveFrom, DirOf, WithoutTree, Overlaid, FileIn;
  }

  /** A step leaves every stored mac sandbox its directory if and only if it does neither. */
  lemma HomesStep(setting: Setting, s: System, pid: nat)
    requires Happens(s, Step(pid)) && HomesKept(setting, s.disk)
    ensures HomesKept(setting, Next(setting, s, Step(pid)).disk) <==> !Evicts(setting, s.disk, Actor(s, pid))
  {
    StepIndex(setting, s, pid);
    StepInstances(setting, s, pid);
    var p := Actor(s, pid);
    var d, d' := s.disk, Next(setting, s, Step(pid)).disk;
    SavedRecords(p, Homeless(setting, d));
    assert Saving(p).Some? ==> !p.todo[0].DropInstance? && !p.todo[0].WriteFiles?;
    hide Next, Saving, SavesBad, DirOf, InstanceDir, Overlaid, FileIn;
    match p.todo[0] {
      case WriteFiles(dir, files) =>
        assert forall r: Record :: Homeless(setting, d')(r) ==> Homeless(setting, d)(r);
      case DropInstance(id) =>
        if DirOf(id).Some? {
          DroppedHomes(setting, d, d', DirOf(id).value);
        } else {
          assert forall r: Record :: Homeless(setting, d')(r) == Homeless(setting, d)(r);
        }
      case _ =>
        assert forall r: Record :: Homeless(setting, d')(r) == Homeless(setting, d)(r);
    }
  }

  lemma DroppedHomes(setting: Setting, d: Disk, d': Disk, dir: string)
    requires HomesKept(setting, d) && d'.index == d.index && d'.instances == WithoutTree(d.instances, dir)
    ensures HomesKept(setting, d') <==> !HoldsHome(setting, d, dir)
  {
    hide InstanceDir, Within;
    if d.index.Some? {
      var rs := d.index.value.sandboxes;
      assert forall i :: 0 <= i < |rs| ==> !Homeless(setting, d)(rs[i]);
      assert forall i :: 0 <= i < |rs| ==>
        (Homeless(setting, d')(rs[i]) <==>
         rs[i].mechanism == Mac && Within(InstanceDir(setting.root, rs[i].name), dir));
    }
  }

  /** After every event of a schedule every stored mac sandbox has its directory, if and only if no step evicts one. */
  lemma HomesThroughout(setting: Setting, events: seq<Event>)
    ensures (forall n :: 0 <= n <= |events| ==> HomesKept(setting, Reached(setting, events[..n]).disk)) <==>
            (forall i :: 0 <= i < |events| && ActsAt(setting, events, i) ==>
               !Evicts(setting, Reached(setting, events[..i]).disk, ActorAt(setting, events, i)))
  {
    forall i | 0 <= i < |events| && ActsAt(setting, events, i) && HomesKept(setting, Reached(setting, events[..i]).disk)
      ensures HomesKept(setting, Next(setting, Reached(setting, events[..i]), events[i]).disk) <==>
              !Evicts(setting, Reached(setting, events[..i]).disk, ActorAt(setting, events, i))
    {
      HomesStep(setting, Reached(setting, events[..i]), events[i].pid);
    }
    assert HomesKept(setting, NEW_DISK);
    hide HomesKept, Evicts, Reached, Next, ActsAt, ActorAt;
    var keeps: Disk -> bool := d => HomesKept(setting, d);
    var breaks: (Disk, Process) -> bool := (d, p) => Evicts(setting, d, p);
    EventsThroughout(setting, events, keeps, breaks);
    assert forall n :: 0 <= n <= |events| ==>
      keeps(Reached(setting, events[..n]).disk) == HomesKept(setting, Reached(setting, events[..n]).disk);
    assert forall i :: 0 <= i < |events| && ActsAt(setting, events, i) ==>
      breaks(Reached(setting, events[..i]).disk, ActorAt(setting, events, i)) ==
      Evicts(setting, Reached(setting, events[..i]).disk, ActorAt(setting, events, i));
  }

  // ---------- Stored sandboxes ----------

  /** The saves after which a sandbox that was stored is not: their copy lacks it, or they remove it. */
  ghost predicate Unstores(p: Process, name: string)
    requires p.todo != []
  {
    match p.todo[0]
    case WriteEmptyIndex => true
    case SaveInserted => Saving(p).Some? && !HasName(p.loaded.sandboxes, name) && p.record.value.name != name
    case SaveTouched(_) => !HasName(p.loaded.sandboxes, name)
    case SaveHashed(_, _) => Saving(p).Some? && !HasName(p.loaded.sandboxes, name)
    case SaveRemoved(key) =>
      Saving(p).Some? && (!HasName(p.loaded.sandboxes, name) || RemoveFrom(p.loaded, key).value.1.name == name)
    case _ => false
  }

  lemma InsertedNames(s: State, r: Record, name: string)
    requires InsertInto(s, r).Some?
    ensures HasName(InsertInto(s, r).value.sandboxes, name) <==> HasName(s.sandboxes, name) || r.name == name
  {
    var rs, rs' := s.sandboxes, s.sandboxes + [r];
    assert forall i :: 0 <= i < |rs| ==> rs'[i] == rs[i];
    assert rs'[|rs|] == r;
  }

  lemma HashedNames(s: State, n: string, hash: string, name: string)
    requires WithHash(s, n, hash).Some?
    ensures HasName(WithHash(s, n, hash).value.sandboxes, name) <==> HasName(s.sandboxes, name)
  {
    var rs, rs' := s.sandboxes, WithHash(s, n, hash).value.sandboxes;
    assert |rs| == |rs'| && forall i :: 0 <= i < |rs| ==> rs'[i].name == rs[i].name;
  }

  lemma NamesWithout(rs: seq<Record>, n: nat, name: string)
    requires NamesDistinct(rs) && n < |rs|
    ensures HasName(rs[..n] + rs[n + 1..], name) <==> HasName(rs, name) && rs[n].name != name
  {
    var rest := rs[..n] + rs[n + 1..];
    if HasName(rs, name) && rs[n].name != name {
      var i :| 0 <= i < |rs| && rs[i].name == name;
      assert rest[if i < n then i else i - 1] == rs[i];
    }
    if HasName(rest, name) {
      var i :| 0 <= i < |rest| && rest[i].name == name;
      assert rs[if i < n then i else i + 1].name == name;
    }
  }

  lemma RemovedNames(s: State, key: string, name: string)
    requires NamesDistinct(s.sandboxes) && RemoveFrom(s, key).Some?
    ensures var (rest, gone) := RemoveFrom(s, key).value;
            HasName(rest.sandboxes, name) <==> HasName(s.sandboxes, name) && gone.name != name
  {
    NamesWithout(s.sandboxes, Position(s.sandboxes, key).value, name);
    hide HasName, NamesDistinct;
  }

  /** A step takes a stored sandbox out of the store if and only if it is one of those saves. */
  lemma StoredStep(setting: Setting, s: System, pid: nat, name: string)
    requires Coherent(s) && Happens(s, Step(pid)) && Stored(s.disk, name)
    ensures Stored(Next(setting, s, Step(pid)).disk, name) <==> !Unstores(Actor(s, pid), name)
  {
    var p := Actor(s, pid);
    assert Proper(p.loaded, s.issued);
    StepIndex(setting, s, pid);
    hide Coherent, Next, InsertInto, WithHash, RemoveFrom, HasName;
    if Saving(p).Some? {
      match p.todo[0] {
        case WriteEmptyIndex => EmptyHasNoName(name);
        case SaveInserted => InsertedNames(p.loaded, p.record.value, name);
        case SaveHashed(n, hash) => HashedNames(p.loaded, n, hash, name);
        case SaveRemoved(key) => RemovedNames(p.loaded, key, name);
        case _ =>
      }
    }
  }

  lemma EmptyHasNoName(name: string)
    ensures !HasName(EMPTY_STATE.sandboxes, name)
  {
  }
}
