/**
 What holds over runs of commands by one process at a time: after every single write, so
 that a run may stop anywhere, and between completed commands.
 */
module Lifecycle {
  import opened Wrappers
  import opened Policy
  import opened State
  import opened ConfigDir
  import opened Store
  import opened MacRuntime
  import opened Commands

  // ---------- States: what each change keeps ----------

  ghost predicate StateSound(s: State) {
    NamesDistinct(s.sandboxes) && LastUsedStored(s)
  }

  lemma InsertKeepsSound(s: State, r: Record)
    requires StateSound(s) && InsertInto(s, r).Some?
    ensures StateSound(InsertInto(s, r).value)
  {
    var rs := s.sandboxes + [r];
    assert rs[|s.sandboxes|].name == r.name;
  }

  lemma TouchKeepsSound(s: State, name: string)
    requires StateSound(s) && HasName(s.sandboxes, name)
    ensures StateSound(Touched(s, name))
  {
  }

  lemma HashKeepsSound(s: State, name: string, hash: string)
    requires StateSound(s) && WithHash(s, name, hash).Some?
    ensures StateSound(WithHash(s, name, hash).value)
  {
    var n := NamePosition(s.sandboxes, name).value;
    var rs := s.sandboxes[n := s.sandboxes[n].(policyHash := hash)];
    assert rs[n].name == name;
  }

  lemma RemoveKeepsSound(s: State, key: string)
    requires StateSound(s) && RemoveFrom(s, key).Some?
    ensures StateSound(RemoveFrom(s, key).value.0)
  {
    var n := Position(s.sandboxes, key).value;
    var gone := s.sandboxes[n];
    var rest := s.sandboxes[..n] + s.sandboxes[n + 1..];
    if s.lastUsed == Some(gone.name) {
      if rest != [] {
        assert rest[|rest| - 1].name == LastName(rest).value;
      }
    } else {
      var i :| 0 <= i < |s.sandboxes| && s.sandboxes[i].name == s.lastUsed.value;
      assert i != n;
      assert rest[if i < n then i else i - 1] == s.sandboxes[i];
    }
  }

  // ---------- Disks ----------

  /** The files a record depends on are there: a policy that loads, and a mac record's directory. */
  ghost predicate RecordSound(setting: Setting, d: Disk, r: Record) {
    && SingleComponent(r.name)
    && r.name in d.policies
    && setting.yaml.Load(d.policies[r.name]).Success?
    && (r.mechanism == Mac ==>
          r.runtimeId == MacRuntimeId(setting.root, r.name) && InstanceDir(setting.root, r.name) in d.instances)
  }

  ghost predicate RecordsSound(setting: Setting, d: Disk, rs: seq<Record>) {
    forall i :: 0 <= i < |rs| ==> RecordSound(setting, d, rs[i])
  }

  /** The crash invariant. */
  ghost predicate Sound(setting: Setting, d: Disk) {
    d.index.Some? ==> StateSound(d.index.value) && RecordsSound(setting, d, d.index.value.sandboxes)
  }

  ghost predicate AllSound(setting: Setting, ds: seq<Disk>) {
    forall i :: 0 <= i < |ds| ==> Sound(setting, ds[i])
  }

  predicate NameOk(c: Command) {
    c.Create? ==> SingleComponent(NameOf(c.input))
  }

  lemma AllSoundConcat(setting: Setting, a: seq<Disk>, b: seq<Disk>)
    requires AllSound(setting, a) && AllSound(setting, b)
    ensures AllSound(setting, a + b)
  {
  }

  lemma AllSoundAfter(setting: Setting, d: Disk, ds: seq<Disk>)
    requires Sound(setting, d) && AllSound(setting, ds)
    ensures Sound(setting, After(d, ds))
  {
  }

  /** More policies that load and more directories harm no record. */
  lemma SoundGrows(setting: Setting, d: Disk, d': Disk)
    requires Sound(setting, d) && d'.index == d.index
    requires forall k :: k in d.policies ==> k in d'.policies
    requires forall k :: k in d.policies ==>
               d'.policies[k] == d.policies[k] || setting.yaml.Load(d'.policies[k]).Success?
    requires forall k :: k in d.instances ==> k in d'.instances
    ensures Sound(setting, d')
  {
    hide StateSound;
    if d.index.Some? {
      var rs := d.index.value.sandboxes;
      forall i | 0 <= i < |rs|
        ensures RecordSound(setting, d', rs[i])
      {
        assert RecordSound(setting, d, rs[i]);
      }
    }
  }

  // ---------- create ----------

  lemma PreparedIsValid(setting: Setting, input: CreateInput)
    requires Prepared(setting, input).Success?
    ensures Complaint(Prepared(setting, input).value).None?
  {
    hide Complaint, CommandPolicy;
  }

  lemma SavedIsSound(setting: Setting, d: Disk, name: string, policy: SandboxPolicy)
    requires setting.yaml.RoundTrip() && Sound(setting, d) && Complaint(policy).None?
    ensures var saved := SavedPolicy(d, setting.yaml, name, policy);
            Sound(setting, saved) && setting.yaml.Load(saved.policies[name]).Success?
  {
    LoadPrinted(setting.yaml, policy);
    hide Complaint, RecordsSound, StateSound;
    SoundGrows(setting, d, SavedPolicy(d, setting.yaml, name, policy));
  }

  lemma MacCreateIsSound(setting: Setting, d: Disk, name: string, policy: SandboxPolicy, workdir: string)
    requires Sound(setting, d)
    ensures var ws := MacCreateWrites(d, setting, name, policy, workdir);
            && AllSound(setting, ws)
            && After(d, ws) ==
               d.(instances := d.instances[InstanceDir(setting.root, name) := Complete(setting, policy, workdir)])
  {
    hide Complete, RecordsSound, StateSound;
    var ws := MacCreateWrites(d, setting, name, policy, workdir);
    SoundGrows(setting, d, ws[0]);
    SoundGrows(setting, d, ws[1]);
    SoundGrows(setting, d, ws[2]);
    SoundGrows(setting, d, ws[3]);
  }

  lemma RuntimeIsSound(setting: Setting, d: Disk, input: CreateInput, policy: SandboxPolicy)
    requires Sound(setting, d)
    ensures var runtime := RuntimeEffect(d, setting, input, policy);
            var d' := After(d, runtime.writes);
            && AllSound(setting, runtime.writes)
            && Sound(setting, d') && d'.index == d.index && d'.policies == d.policies
            && (runtime.result.Success? && policy.mechanism == Some(Mac) ==>
                  && runtime.result.value == MacRuntimeId(setting.root, NameOf(input))
                  && d'.instances == d.instances[InstanceDir(setting.root, NameOf(input)) :=
                                                 Complete(setting, policy, input.workdir)])
            && (policy.mechanism != Some(Mac) ==> d' == d)
  {
    MacCreateIsSound(setting, d, NameOf(input), policy, input.workdir);
    hide MacCreateWrites, Sound, Complete;
  }

  lemma InsertIsSound(setting: Setting, d: Disk, r: Record, uuid: string)
    requires Sound(setting, d) && d.index.Some?
    requires RecordSound(setting, d, r)
    ensures AllSound(setting, InsertEffect(d, r, uuid).writes)
  {
    var stored := Identified(r, uuid);
    var s := InsertInto(d.index.value, stored);
    if s.Some? {
      InsertKeepsSound(d.index.value, stored);
      hide StateSound;
      var d' := d.(index := s);
      var rs := d.index.value.sandboxes;
      forall i | 0 <= i < |rs + [stored]|
        ensures RecordSound(setting, d', (rs + [stored])[i])
      {
        assert i < |rs| ==> RecordSound(setting, d, rs[i]);
      }
    }
  }

  lemma CreateIsSound(setting: Setting, d: Disk, input: CreateInput)
    requires setting.yaml.RoundTrip() && Sound(setting, d) && d.index.Some?
    requires SingleComponent(NameOf(input))
    ensures AllSound(setting, CreateEffect(d, setting, input).writes)
  {
    var prepared := Prepared(setting, input);
    if prepared.Success? {
      var policy := prepared.value;
      PreparedIsValid(setting, input);
      RuntimeIsSound(setting, d, input, policy);
      hide Prepared, RuntimeEffect, Complaint, Complete, Sound, InsertEffect;
      var runtime := RuntimeEffect(d, setting, input, policy);
      if runtime.result.Success? {
        var d1 := After(d, runtime.writes);
        var saved := SavedPolicy(d1, setting.yaml, NameOf(input), policy);
        SavedIsSound(setting, d1, NameOf(input), policy);
        var rec := NewRecord(setting, input, policy, runtime.result.value);
        assert RecordSound(setting, saved, rec);
        InsertIsSound(setting, saved, rec, input.uuid);
        var inserted := InsertEffect(saved, rec, input.uuid);
        assert AllSound(setting, [saved]);
        AllSoundConcat(setting, runtime.writes, [saved]);
        AllSoundConcat(setting, runtime.writes + [saved], inserted.writes);
      }
    }
  }

  // ---------- exec, policy set, rm ----------

  lemma FoundIsStored(s: State, key: Option<string>)
    requires GetOrLast(s, key).Some?
    ensures HasName(s.sandboxes, GetOrLast(s, key).value.name)
  {
  }

  lemma TouchIsSound(setting: Setting, d: Disk, name: string)
    requires Sound(setting, d) && d.index.Some? && HasName(d.index.value.sandboxes, name)
    ensures AllSound(setting, TouchEffect(d, name).writes)
  {
    TouchKeepsSound(d.index.value, name);
    hide StateSound;
    var d' := d.(index := Some(Touched(d.index.value, name)));
    var rs := d.index.value.sandboxes;
    forall i | 0 <= i < |rs|
      ensures RecordSound(setting, d', rs[i])
    {
      assert RecordSound(setting, d, rs[i]);
    }
  }

  lemma ExecIsSound(setting: Setting, d: Disk, key: Option<string>, mechanismOk: bool)
    requires Sound(setting, d) && d.index.Some?
    ensures AllSound(setting, ExecEffect(d, key, mechanismOk).writes)
  {
    var found := GetOrLast(d.index.value, key);
    if found.Some? {
      FoundIsStored(d.index.value, key);
      TouchIsSound(setting, d, found.value.name);
    }
    hide GetOrLast, TouchEffect, Sound;
  }

  lemma HashedIsSound(setting: Setting, d: Disk, name: string, hash: string)
    requires Sound(setting, d) && d.index.Some? && WithHash(d.index.value, name, hash).Some?
    ensures Sound(setting, d.(index := WithHash(d.index.value, name, hash)))
  {
    HashKeepsSound(d.index.value, name, hash);
    hide StateSound;
    var d' := d.(index := WithHash(d.index.value, name, hash));
    var rs, rs' := d.index.value.sandboxes, d'.index.value.sandboxes;
    forall i | 0 <= i < |rs'|
      ensures RecordSound(setting, d', rs'[i])
    {
      assert RecordSound(setting, d, rs[i]);
    }
  }

  lemma UpdateIsSound(setting: Setting, d: Disk, name: string, policy: SandboxPolicy)
    requires setting.yaml.RoundTrip() && Sound(setting, d) && d.index.Some? && Complaint(policy).None?
    ensures AllSound(setting, UpdateEffect(d, setting.yaml, name, policy).writes)
  {
    SavedIsSound(setting, d, name, policy);
    hide Complaint, Sound;
    var saved := SavedPolicy(d, setting.yaml, name, policy);
    if WithHash(d.index.value, name, setting.yaml.ContentHash(policy)).Some? {
      HashedIsSound(setting, saved, name, setting.yaml.ContentHash(policy));
    }
  }

  lemma PolicySetIsSound(setting: Setting, d: Disk, key: Option<string>, file: Option<string>)
    requires setting.yaml.RoundTrip() && Sound(setting, d) && d.index.Some?
    ensures AllSound(setting, PolicySetEffect(d, setting, key, file).writes)
  {
    hide Sound, Complaint, UpdateEffect, GetOrLastResult;
    var rec := GetOrLastResult(d, key);
    var policy := PolicyFromFile(setting.yaml, file);
    if rec.Success? && policy.Success? && Preflight(setting, policy.value).None? {
      UpdateIsSound(setting, d, rec.value.name, policy.value);
    }
  }

  /** What removing a record leaves: the other records, all of other names. */
  lemma RemovedLeaves(s: State, key: string, i: nat)
    requires NamesDistinct(s.sandboxes) && RemoveFrom(s, key).Some?
    requires i < |RemoveFrom(s, key).value.0.sandboxes|
    ensures var (rest, gone) := RemoveFrom(s, key).value;
            && rest.sandboxes[i] in s.sandboxes
            && gone in s.sandboxes
            && rest.sandboxes[i].name != gone.name
  {
    var n := Position(s.sandboxes, key).value;
    var rest := s.sandboxes[..n] + s.sandboxes[n + 1..];
    var j := if i < n then i else i + 1;
    assert rest[i] == s.sandboxes[j];
  }

  lemma RemoveIsSound(setting: Setting, d: Disk, key: string)
    requires Sound(setting, d) && d.index.Some?
    ensures AllSound(setting, RemoveEffect(d, key).writes)
    ensures RemoveEffect(d, key).result.Success? ==>
              var gone := RemoveEffect(d, key).result.value;
              && gone in d.index.value.sandboxes
              && var d' := After(d, RemoveEffect(d, key).writes);
                 && d'.index.Some? && d'.instances == d.instances
                 && forall i :: 0 <= i < |d'.index.value.sandboxes| ==> d'.index.value.sandboxes[i].name != gone.name
  {
    var s := d.index.value;
    var removed := RemoveFrom(s, key);
    if removed.Some? {
      var (rest, gone) := removed.value;
      RemoveKeepsSound(s, key);
      hide RecordSound;
      var d1 := d.(index := Some(rest));
      var d2 := d1.(policies := d.policies - {gone.name});
      assert gone in s.sandboxes by {
        RemoveTakesFound(s, key);
      }
      forall i | 0 <= i < |rest.sandboxes|
        ensures RecordSound(setting, d1, rest.sandboxes[i]) && RecordSound(setting, d2, rest.sandboxes[i])
        ensures rest.sandboxes[i].name != gone.name
      {
        RemovedLeaves(s, key, i);
        assert RecordSound(setting, d, rest.sandboxes[i]);
        OtherPolicyRemoved(setting, d, rest, gone, rest.sandboxes[i]);
      }
      hide StateSound;
      hide RemoveFrom;
    }
  }

  lemma OtherPolicyRemoved(setting: Setting, d: Disk, s: State, gone: Record, r: Record)
    requires RecordSound(setting, d, r) && r.name != gone.name
    ensures RecordSound(setting, d.(index := Some(s)), r)
    ensures RecordSound(setting, d.(index := Some(s), policies := d.policies - {gone.name}), r)
  {
  }

  lemma UnmadeIsSound(setting: Setting, d: Disk, gone: Record)
    requires Sound(setting, d) && d.index.Some? && SingleComponent(gone.name)
    requires gone.mechanism == Mac ==> gone.runtimeId == MacRuntimeId(setting.root, gone.name)
    requires forall i :: 0 <= i < |d.index.value.sandboxes| ==> d.index.value.sandboxes[i].name != gone.name
    ensures gone.mechanism == Mac ==> AllSound(setting, MacRemoveWrites(d, gone.runtimeId))
  {
    if gone.mechanism == Mac {
      DirOfCreated(setting.root, gone.name);
      var dir := InstanceDir(setting.root, gone.name);
      var d' := d.(instances := WithoutTree(d.instances, dir));
      assert MacRemoveWrites(d, gone.runtimeId) == [d'];
      hide StateSound, DirOf;
      var rs := d.index.value.sandboxes;
      forall i | 0 <= i < |rs|
        ensures RecordSound(setting, d', rs[i])
      {
        assert RecordSound(setting, d, rs[i]);
        OtherDirsSurvive(setting.root, gone.name, rs[i].name);
        hide InstanceDir;
      }
    }
  }

  lemma RmIsSound(setting: Setting, d: Disk, target: string, mechanismOk: bool)
    requires Sound(setting, d) && d.index.Some?
    ensures AllSound(setting, RmEffect(d, target, mechanismOk).writes)
  {
    RemoveIsSound(setting, d, target);
    var removed := RemoveEffect(d, target);
    if removed.result.Success? {
      var gone := removed.result.value;
      assert RecordSound(setting, d, gone) by {
        var i :| 0 <= i < |d.index.value.sandboxes| && d.index.value.sandboxes[i] == gone;
      }
      hide RemoveEffect;
      var d1 := After(d, removed.writes);
      AllSoundAfter(setting, d, removed.writes);
      UnmadeIsSound(setting, d1, gone);
      hide MacRemoveWrites, Sound;
      AllSoundConcat(setting, removed.writes, UnmakeEffect(d1, gone, mechanismOk).writes);
    }
  }

  // ---------- Every write of every command ----------

  lemma CommandIsSound(setting: Setting, d: Disk, c: Command)
    requires setting.yaml.RoundTrip() && Sound(setting, d) && NameOk(c)
    ensures AllSound(setting, CommandEffect(d, setting, c).writes)
  {
    var init := OpenWrites(d);
    assert AllSound(setting, init);
    AllSoundAfter(setting, d, init);
    var d0 := After(d, init);
    assert d0.index.Some?;
    hide Sound, CreateEffect, ExecEffect, PolicySetEffect, RmEffect, PolicyGetResult;
    match c {
      case Create(input) => CreateIsSound(setting, d0, input);
      case Exec(key, ok) => ExecIsSound(setting, d0, key, ok);
      case PolicyGet(key) =>
      case PolicySet(key, file) => PolicySetIsSound(setting, d0, key, file);
      case Rm(target, ok) => RmIsSound(setting, d0, target, ok);
    }
    AllSoundConcat(setting, init, BodyEffect(d0, setting, c).writes);
  }

  /** A command, and after how many of its writes the process stopped. */
  datatype Cut = Cut(command: Command, stop: nat)

  function CutWrites(d: Disk, setting: Setting, cut: Cut): seq<Disk> {
    var ws := CommandEffect(d, setting, cut.command).writes;
    if cut.stop <= |ws| then ws[..cut.stop] else ws
  }

  /** A run of commands each of which may stop between any two writes. */
  function RunCuts(setting: Setting, cuts: seq<Cut>): Disk {
    if cuts == [] then NEW_DISK else
    var last := |cuts| - 1;
    var d := RunCuts(setting, cuts[..last]);
    After(d, CutWrites(d, setting, cuts[last]))
  }

  /** Crash consistency: wherever the commands of a run stop, the directory is sound. */
  lemma {:induction false} CrashSafety(setting: Setting, cuts: seq<Cut>)
    requires setting.yaml.RoundTrip()
    requires forall i :: 0 <= i < |cuts| ==> NameOk(cuts[i].command)
    ensures Sound(setting, RunCuts(setting, cuts))
  {
    hide Sound, CommandEffect;
    if cuts == [] {
      NewDiskIsSound(setting);
    } else {
      var last := |cuts| - 1;
      CrashSafety(setting, cuts[..last]);
      var d := RunCuts(setting, cuts[..last]);
      CommandIsSound(setting, d, cuts[last].command);
      AllSoundAfter(setting, d, CutWrites(d, setting, cuts[last]));
    }
  }

  lemma NewDiskIsSound(setting: Setting)
    ensures Sound(setting, NEW_DISK)
  {
  }

  /**
   In terms of the store: after any run with any stops, every stored sandbox has a policy
   that loads, a mac sandbox has its instance directory, the names are distinct, and asking
   for the last used sandbox finds a stored one whenever there is one.
   */
  lemma CrashConsistency(setting: Setting, cuts: seq<Cut>, s: State)
    requires setting.yaml.RoundTrip()
    requires forall i :: 0 <= i < |cuts| ==> NameOk(cuts[i].command)
    requires RunCuts(setting, cuts).index == Some(s)
    ensures var d := RunCuts(setting, cuts);
            && NamesDistinct(s.sandboxes)
            && (s.lastUsed.None? <==> s.sandboxes == [])
            && (s.sandboxes != [] ==> GetOrLast(s, None) == Find(s.sandboxes, s.lastUsed.value))
            && forall i :: 0 <= i < |s.sandboxes| ==>
                 var r := s.sandboxes[i];
                 && LoadedPolicy(d, setting.yaml, r.name).Success?
                 && (r.mechanism == Mac ==> LaunchOf(d, setting.yaml, r.runtimeId).Some?
                                            && InstanceDir(setting.root, r.name) in d.instances)
  {
    CrashSafety(setting, cuts);
    var d := RunCuts(setting, cuts);
    hide RunCuts;
    if s.sandboxes != [] {
      GetOrLastUsesLast(s);
    }
    hide Find, LaunchOf;
    forall i | 0 <= i < |s.sandboxes|
      ensures var r := s.sandboxes[i];
              && LoadedPolicy(d, setting.yaml, r.name).Success?
              && (r.mechanism == Mac ==> LaunchOf(d, setting.yaml, r.runtimeId).Some?
                                         && InstanceDir(setting.root, r.name) in d.instances)
    {
      var r := s.sandboxes[i];
      assert RecordSound(setting, d, r);
      if r.mechanism == Mac {
        LaunchExists(setting, d, r.name);
      }
    }
  }

  lemma LaunchExists(setting: Setting, d: Disk, name: string)
    ensures LaunchOf(d, setting.yaml, MacRuntimeId(setting.root, name)).Some?
  {
    DirOfCreated(setting.root, name);
  }
}
