/** The instances of mac sandboxes: what agrees in them, and which create `exec` runs under. */
module Instances {
  import opened Wrappers
  import opened Policy
  import opened State
  import opened ConfigDir
  import opened Store
  import opened MacRuntime
  import opened Commands
  import opened Lifecycle
  import opened Runs
  import Seatbelt

  // ---------- What a create makes of an instance ----------

  function MacFiles(setting: Setting, input: CreateInput): Instance
    requires MacPrepared(setting, input)
  {
    Complete(setting, Prepared(setting, input).value, input.workdir)
  }

  /** What runs of that create's policy and workdir. */
  function MacLaunch(setting: Setting, input: CreateInput): Launch
    requires MacPrepared(setting, input)
  {
    var policy := Prepared(setting, input).value;
    Launch(Some(Seatbelt.CompiledProfile(policy, setting.canonical(input.workdir))), policy, input.workdir)
  }

  // ---------- Instances between commands ----------

  /** The three files of an instance belong together. */
  ghost predicate Intact(setting: Setting, instance: Instance) {
    exists policy, workdir :: instance == Complete(setting, policy, workdir)
  }

  ghost predicate InstancesIntact(setting: Setting, d: Disk) {
    forall k :: k in d.instances ==> Intact(setting, d.instances[k])
  }

  /** What a completed command does to the instances. */
  lemma InstancesAfter(setting: Setting, d: Disk, c: Command)
    requires Sound(setting, d)
    ensures var d' := Done(d, setting, c);
            match c
            case Create(input) =>
              d'.instances == if MacPrepared(setting, input)
                              then d.instances[InstanceDir(setting.root, NameOf(input)) := MacFiles(setting, input)]
                              else d.instances
            case Rm(target, ok) =>
              var removed := if d.index.Some? then RemoveFrom(d.index.value, target) else None;
              d'.instances == if removed.Some? && removed.value.1.mechanism == Mac
                              then WithoutTree(d.instances, InstanceDir(setting.root, removed.value.1.name))
                              else d.instances
            case _ => d'.instances == d.instances
  {
    var d0 := After(d, OpenWrites(d));
    DoneAfterOpening(d, setting, c);
    hide Done, CommandEffect, CreateEffect, Prepared, Complete;
    match c {
      case Create(input) => CreateInstances(setting, d0, input);
      case Exec(key, ok) =>
        ExecEnds(d0, key, ok);
        hide ExecEffect, GetOrLast;
      case PolicyGet(key) =>
      case PolicySet(key, file) => PolicySetInstances(setting, d0, key, file);
      case Rm(target, ok) =>
        hide RmEffect, RemoveFrom;
        RmInstances(setting, d0, target, ok);
    }
  }

  lemma PolicySetInstances(setting: Setting, d: Disk, key: Option<string>, file: Option<string>)
    ensures After(d, PolicySetEffect(d, setting, key, file).writes).instances == d.instances
  {
    hide GetOrLast, Preflight, WithHash;
  }

  lemma RmInstances(setting: Setting, d: Disk, target: string, mechanismOk: bool)
    requires Sound(setting, d) && d.index.Some?
    ensures var removed := RemoveFrom(d.index.value, target);
            After(d, RmEffect(d, target, mechanismOk).writes).instances ==
            if removed.Some? && removed.value.1.mechanism == Mac
            then WithoutTree(d.instances, InstanceDir(setting.root, removed.value.1.name))
            else d.instances
  {
    RmEnds(d, target, mechanismOk);
    hide RmEffect;
    if RemoveFrom(d.index.value, target).Some? {
      RemovedIsSound(setting, d, target);
      hide RemoveFrom, DirOf, InstanceDir;
      var gone := RemoveFrom(d.index.value, target).value.1;
      if gone.mechanism == Mac {
        DirOfCreated(setting.root, gone.name);
      }
    }
  }

  lemma RemovedIsSound(setting: Setting, d: Disk, target: string)
    requires Sound(setting, d) && d.index.Some? && RemoveFrom(d.index.value, target).Some?
    ensures RecordSound(setting, d, RemoveFrom(d.index.value, target).value.1)
  {
    var n := Position(d.index.value.sandboxes, target).value;
    assert RecordSound(setting, d, d.index.value.sandboxes[n]);
  }

  lemma CreateInstances(setting: Setting, d: Disk, input: CreateInput)
    requires d.index.Some?
    ensures var d' := After(d, CreateEffect(d, setting, input).writes);
            d'.instances == if MacPrepared(setting, input)
                            then d.instances[InstanceDir(setting.root, NameOf(input)) := MacFiles(setting, input)]
                            else d.instances
  {
    var prepared := Prepared(setting, input);
    if prepared.Success? {
      RuntimeInstances(setting, d, input, prepared.value);
      hide Prepared, RuntimeEffect, Complete, NewRecord;
      var runtime := RuntimeEffect(d, setting, input, prepared.value);
      if runtime.result.Success? {
        var saved := SavedPolicy(After(d, runtime.writes), setting.yaml, NameOf(input), prepared.value);
        var rec := NewRecord(setting, input, prepared.value, runtime.result.value);
        assert After(saved, InsertEffect(saved, rec, input.uuid).writes).instances == saved.instances;
        AfterThree(d, runtime.writes, saved, InsertEffect(saved, rec, input.uuid).writes);
      }
    }
  }

  lemma AfterThree(d: Disk, a: seq<Disk>, b: Disk, c: seq<Disk>)
    ensures After(d, a + [b] + c) == After(b, c)
  {
  }

  lemma RuntimeInstances(setting: Setting, d: Disk, input: CreateInput, policy: SandboxPolicy)
    ensures After(d, RuntimeEffect(d, setting, input, policy).writes).instances ==
            if policy.mechanism == Some(Mac) && setting.platform == MacOs
            then d.instances[InstanceDir(setting.root, NameOf(input)) := Complete(setting, policy, input.workdir)]
            else d.instances
  {
    hide Complete;
  }

  lemma IntactStep(setting: Setting, d: Disk, c: Command)
    requires Sound(setting, d) && InstancesIntact(setting, d)
    ensures InstancesIntact(setting, Done(d, setting, c))
  {
    InstancesAfter(setting, d, c);
    hide Done, Prepared, Complete, RemoveFrom, Sound;
    if c.Create? && MacPrepared(setting, c.input) {
      assert Intact(setting, MacFiles(setting, c.input));
    }
  }

  /** Between completed commands every instance is intact. */
  lemma {:induction false} InstancesStayIntact(setting: Setting, d: Disk, cs: seq<Command>)
    requires setting.yaml.RoundTrip() && Sound(setting, d) && InstancesIntact(setting, d)
    requires forall i :: 0 <= i < |cs| ==> NameOk(cs[i])
    ensures Sound(setting, RunAll(setting, d, cs)) && InstancesIntact(setting, RunAll(setting, d, cs))
    decreases |cs|
  {
    hide Sound, InstancesIntact, Done;
    if cs != [] {
      var init := cs[..|cs| - 1];
      InstancesStayIntact(setting, d, init);
      DoneIsSound(setting, RunAll(setting, d, init), cs[|cs| - 1]);
      IntactStep(setting, RunAll(setting, d, init), cs[|cs| - 1]);
    }
  }

  /**
   After any run of completed commands, launching a stored mac sandbox finds the policy and
   the workdir of its instance, and the profile is the compilation of that policy for that
   workdir.
   */
  lemma LaunchIsConsistent(setting: Setting, cs: seq<Command>, r: Record)
    requires setting.yaml.RoundTrip()
    requires forall i :: 0 <= i < |cs| ==> NameOk(cs[i])
    requires var d := RunAll(setting, NEW_DISK, cs); d.index.Some? && r in d.index.value.sandboxes
    requires r.mechanism == Mac
    ensures var launch := LaunchOf(RunAll(setting, NEW_DISK, cs), setting.yaml, r.runtimeId);
            && launch.Some?
            && launch.value.profile ==
               Some(Seatbelt.CompiledProfile(launch.value.policy, setting.canonical(launch.value.workdir)))
  {
    NewDiskIsSound(setting);
    InstancesStayIntact(setting, NEW_DISK, cs);
    var d := RunAll(setting, NEW_DISK, cs);
    assert RecordSound(setting, d, r);
    hide RunAll, Sound;
    IntactLaunch(setting, d, r.name);
  }

  lemma IntactLaunch(setting: Setting, d: Disk, name: string)
    requires setting.yaml.RoundTrip() && InstancesIntact(setting, d)
    requires InstanceDir(setting.root, name) in d.instances
    ensures var launch := LaunchOf(d, setting.yaml, MacRuntimeId(setting.root, name));
            && launch.Some?
            && launch.value.profile ==
               Some(Seatbelt.CompiledProfile(launch.value.policy, setting.canonical(launch.value.workdir)))
  {
    var instance := d.instances[InstanceDir(setting.root, name)];
    assert Intact(setting, instance);
    var policy, workdir :| instance == Complete(setting, policy, workdir);
    LaunchOfComplete(setting, d, name, policy, workdir);
  }

  lemma LaunchOfComplete(setting: Setting, d: Disk, name: string, policy: SandboxPolicy, workdir: string)
    requires setting.yaml.RoundTrip()
    requires InstanceDir(setting.root, name) in d.instances
    requires d.instances[InstanceDir(setting.root, name)] == Complete(setting, policy, workdir)
    ensures LaunchOf(d, setting.yaml, MacRuntimeId(setting.root, name)) ==
            Some(Launch(Some(Seatbelt.CompiledProfile(policy, setting.canonical(workdir))), policy, workdir))
  {
    DirOfCreated(setting.root, name);
    hide DirOf, Seatbelt.CompiledProfile;
    assert setting.yaml.parse(setting.yaml.render(policy)) == Some(policy);
  }

  // ---------- Under which policy exec runs ----------

  predicate MacCreates(setting: Setting, c: Command, name: string) {
    c.Create? && NameOf(c.input) == name && MacPrepared(setting, c.input)
  }

  /** The last create of the name that got as far as its instance directory, stored or refused. */
  function LastMacCreate(setting: Setting, cs: seq<Command>, name: string): (last: Option<CreateInput>)
    ensures last.Some? ==> MacPrepared(setting, last.value) && NameOf(last.value) == name
  {
    if cs == [] then None else
    var c := cs[|cs| - 1];
    if MacCreates(setting, c, name) then Some(c.input) else LastMacCreate(setting, cs[..|cs| - 1], name)
  }

  ghost predicate StoredMac(d: Disk, name: string) {
    && d.index.Some?
    && exists i :: 0 <= i < |d.index.value.sandboxes|
         && d.index.value.sandboxes[i].name == name && d.index.value.sandboxes[i].mechanism == Mac
  }

  lemma CreateStoresMac(setting: Setting, d: Disk, input: CreateInput, name: string)
    requires d.index.Some? && StoredMac(After(d, CreateEffect(d, setting, input).writes), name)
    ensures StoredMac(d, name) || MacCreates(setting, Create(input), name)
  {
    CreateEnds(d, setting, input);
    if ReachesStore(d, setting, input) {
      CreatedRecordIs(d, setting, input);
    }
    hide CreateEffect, Prepared, ReachesStore, CreatedRecord;
    var d' := After(d, CreateEffect(d, setting, input).writes);
    var i :| 0 <= i < |d'.index.value.sandboxes|
      && d'.index.value.sandboxes[i].name == name && d'.index.value.sandboxes[i].mechanism == Mac;
    if i < |d.index.value.sandboxes| {
      assert d.index.value.sandboxes[i] == d'.index.value.sandboxes[i];
    }
  }

  lemma PolicySetKeepsMac(setting: Setting, d: Disk, key: Option<string>, file: Option<string>, name: string)
    requires d.index.Some? && StoredMac(After(d, PolicySetEffect(d, setting, key, file).writes), name)
    ensures StoredMac(d, name)
  {
    hide GetOrLast, Preflight;
    var d' := After(d, PolicySetEffect(d, setting, key, file).writes);
    var i :| 0 <= i < |d'.index.value.sandboxes|
      && d'.index.value.sandboxes[i].name == name && d'.index.value.sandboxes[i].mechanism == Mac;
    assert d.index.value.sandboxes[i].name == name && d.index.value.sandboxes[i].mechanism == Mac;
  }

  lemma RmKeepsMac(setting: Setting, d: Disk, target: string, ok: bool, name: string)
    requires Sound(setting, d) && d.index.Some? && StoredMac(After(d, RmEffect(d, target, ok).writes), name)
    ensures StoredMac(d, name)
    ensures RemoveFrom(d.index.value, target).Some? ==> RemoveFrom(d.index.value, target).value.1.name != name
  {
    RmEnds(d, target, ok);
    hide RmEffect;
    var d' := After(d, RmEffect(d, target, ok).writes);
    if RemoveFrom(d.index.value, target).Some? {
      var i :| 0 <= i < |d'.index.value.sandboxes|
        && d'.index.value.sandboxes[i].name == name && d'.index.value.sandboxes[i].mechanism == Mac;
      RemovedLeaves(d.index.value, target, i);
    }
  }

  /** A mac sandbox that is stored after a command was stored before, or the command is its create. */
  lemma MacStoredBefore(setting: Setting, d: Disk, c: Command, name: string)
    requires Sound(setting, d) && !MacCreates(setting, c, name) && StoredMac(Done(d, setting, c), name)
    ensures StoredMac(d, name)
    ensures c.Rm? && RemoveFrom(d.index.value, c.target).Some? ==>
              RemoveFrom(d.index.value, c.target).value.1.name != name
  {
    var d0 := After(d, OpenWrites(d));
    DoneAfterOpening(d, setting, c);
    assert Sound(setting, d0) && (StoredMac(d0, name) ==> StoredMac(d, name));
    hide Done, CommandEffect, Sound, MacCreates;
    match c {
      case Create(input) =>
        CreateStoresMac(setting, d0, input, name);
      case Exec(key, ok) =>
        ExecEnds(d0, key, ok);
        hide ExecEffect, GetOrLast;
      case PolicyGet(key) =>
      case PolicySet(key, file) =>
        PolicySetKeepsMac(setting, d0, key, file, name);
      case Rm(target, ok) =>
        RmKeepsMac(setting, d0, target, ok, name);
    }
  }

  /** Only its own create and its own rm touch the instance of a sandbox that stays stored. */
  lemma InstanceStays(setting: Setting, d: Disk, c: Command, name: string)
    requires Sound(setting, d) && NameOk(c) && SingleComponent(name)
    requires !MacCreates(setting, c, name) && StoredMac(Done(d, setting, c), name)
    ensures StoredMac(d, name)
    ensures FileIn(Done(d, setting, c), InstanceDir(setting.root, name)) == FileIn(d, InstanceDir(setting.root, name))
  {
    MacStoredBefore(setting, d, c, name);
    InstancesAfter(setting, d, c);
    match c {
      case Create(input) =>
        if MacPrepared(setting, input) {
          OtherDirsSurvive(setting.root, NameOf(input), name);
        }
        hide Done, Sound, MacPrepared, InstanceDir, Complete;
      case Rm(target, ok) =>
        if RemoveFrom(d.index.value, target).Some? {
          RemovedIsSound(setting, d, target);
          OtherDirsSurvive(setting.root, RemoveFrom(d.index.value, target).value.1.name, name);
        }
        hide Done, Sound, InstanceDir, Within, RemoveFrom;
      case _ =>
    }
  }

  lemma CreateFillsInstance(setting: Setting, d: Disk, c: Command, name: string)
    requires Sound(setting, d) && MacCreates(setting, c, name)
    ensures InstanceDir(setting.root, name) in Done(d, setting, c).instances
    ensures FileIn(Done(d, setting, c), InstanceDir(setting.root, name)) == MacFiles(setting, c.input)
  {
    InstancesAfter(setting, d, c);
    hide Done, MacPrepared, MacFiles, Sound, InstanceDir;
  }

  /** After any run the instance of a stored mac sandbox is that of the last create of its name. */
  lemma {:induction false} InstanceOverRun(setting: Setting, d: Disk, cs: seq<Command>, name: string)
    requires setting.yaml.RoundTrip() && Sound(setting, d) && SingleComponent(name)
    requires forall i :: 0 <= i < |cs| ==> NameOk(cs[i])
    requires StoredMac(RunAll(setting, d, cs), name)
    ensures var dir := InstanceDir(setting.root, name);
            match LastMacCreate(setting, cs, name)
            case Some(input) => FileIn(RunAll(setting, d, cs), dir) == MacFiles(setting, input)
            case None => StoredMac(d, name) && FileIn(RunAll(setting, d, cs), dir) == FileIn(d, dir)
    decreases |cs|
  {
    hide Sound, Done, StoredMac, MacPrepared, MacFiles, FileIn, InstanceDir;
    if cs != [] {
      var init, last := cs[..|cs| - 1], cs[|cs| - 1];
      var mid := RunAll(setting, d, init);
      RunIsSound(setting, d, init);
      if MacCreates(setting, last, name) {
        CreateFillsInstance(setting, mid, last, name);
      } else {
        InstanceStays(setting, mid, last, name);
        InstanceOverRun(setting, d, init, name);
      }
    }
  }

  lemma StoredMacRecord(setting: Setting, d: Disk, r: Record)
    requires Sound(setting, d) && d.index.Some? && r in d.index.value.sandboxes && r.mechanism == Mac
    ensures StoredMac(d, r.name) && SingleComponent(r.name) && r.runtimeId == MacRuntimeId(setting.root, r.name)
    ensures InstanceDir(setting.root, r.name) in d.instances
  {
    assert RecordSound(setting, d, r);
  }

  lemma LaunchOfMacFiles(setting: Setting, d: Disk, name: string, input: CreateInput)
    requires setting.yaml.RoundTrip() && MacPrepared(setting, input)
    requires InstanceDir(setting.root, name) in d.instances
    requires FileIn(d, InstanceDir(setting.root, name)) == MacFiles(setting, input)
    ensures LaunchOf(d, setting.yaml, MacRuntimeId(setting.root, name)) == Some(MacLaunch(setting, input))
  {
    hide Prepared, LaunchOf, InstanceDir, Seatbelt.CompiledProfile;
    LaunchOfComplete(setting, d, name, Prepared(setting, input).value, input.workdir);
  }

  /**
   Whatever commands were completed, a stored mac sandbox runs under the policy and in the
   workdir of the last create of its name, which may be one that was refused.
   */
  lemma ExecRunsUnderLastCreate(setting: Setting, cs: seq<Command>, r: Record)
    requires setting.yaml.RoundTrip()
    requires forall i :: 0 <= i < |cs| ==> NameOk(cs[i])
    requires var d := RunAll(setting, NEW_DISK, cs); d.index.Some? && r in d.index.value.sandboxes
    requires r.mechanism == Mac
    ensures var last := LastMacCreate(setting, cs, r.name);
            && last.Some?
            && LaunchOf(RunAll(setting, NEW_DISK, cs), setting.yaml, r.runtimeId) ==
               Some(MacLaunch(setting, last.value))
  {
    NewDiskIsSound(setting);
    RunIsSound(setting, NEW_DISK, cs);
    StoredMacRecord(setting, RunAll(setting, NEW_DISK, cs), r);
    InstanceOverRun(setting, NEW_DISK, cs, r.name);
    hide RunAll, Sound, FileIn, InstanceDir, MacLaunch, MacFiles, MacPrepared, LaunchOf, MacRuntimeId;
    LaunchOfMacFiles(setting, RunAll(setting, NEW_DISK, cs), r.name, LastMacCreate(setting, cs, r.name).value);
  }

  /** The policy and workdir that two creates were given are the same. */
  predicate SameInstance(setting: Setting, a: CreateInput, b: CreateInput)
    requires MacPrepared(setting, a) && MacPrepared(setting, b)
  {
    Prepared(setting, a).value == Prepared(setting, b).value && a.workdir == b.workdir
  }

  lemma SameInstanceLaunch(setting: Setting, a: CreateInput, b: CreateInput)
    requires MacPrepared(setting, a) && MacPrepared(setting, b)
    ensures MacLaunch(setting, a) == MacLaunch(setting, b) <==> SameInstance(setting, a, b)
  {
    hide Prepared, Seatbelt.CompiledProfile;
  }

  /**
   After a create and any further commands, `policy set` included, exec runs under the policy
   and in the workdir of that create if and only if the last later create of the name, stored
   or refused, had the same.
   */
  lemma ExecRunsUnderCreatePolicy(setting: Setting, d: Disk, input: CreateInput, cs: seq<Command>, r: Record)
    requires setting.yaml.RoundTrip() && Sound(setting, d)
    requires NameOk(Create(input)) && (forall i :: 0 <= i < |cs| ==> NameOk(cs[i]))
    requires MacCreates(setting, Create(input), r.name)
    requires var d2 := RunAll(setting, Done(d, setting, Create(input)), cs);
             d2.index.Some? && r in d2.index.value.sandboxes
    requires r.mechanism == Mac
    ensures var d2 := RunAll(setting, Done(d, setting, Create(input)), cs);
            var later := LastMacCreate(setting, cs, r.name);
            LaunchOf(d2, setting.yaml, r.runtimeId) == Some(MacLaunch(setting, input)) <==>
            (later.None? || SameInstance(setting, later.value, input))
  {
    var d1 := Done(d, setting, Create(input));
    var d2 := RunAll(setting, d1, cs);
    var later := LastMacCreate(setting, cs, r.name);
    DoneIsSound(setting, d, Create(input));
    CreateFillsInstance(setting, d, Create(input), r.name);
    RunIsSound(setting, d1, cs);
    StoredMacRecord(setting, d2, r);
    InstanceOverRun(setting, d1, cs, r.name);
    hide Done, RunAll, Sound, FileIn, InstanceDir, MacFiles, MacLaunch, LaunchOf, MacRuntimeId, MacPrepared;
    hide SameInstance, LastMacCreate;
    LaunchOfMacFiles(setting, d2, r.name, if later.Some? then later.value else input);
    if later.Some? {
      SameInstanceLaunch(setting, later.value, input);
    }
  }

  /** On a mac a create of a stored name is refused, and leaves the stored sandbox running under the refused policy. */
  lemma RefusedCreateReplacesLaunch(setting: Setting, d: Disk, input: CreateInput, r: Record)
    requires setting.yaml.RoundTrip() && Sound(setting, d)
    requires d.index.Some? && r in d.index.value.sandboxes && r.mechanism == Mac
    requires MacCreates(setting, Create(input), r.name)
    ensures CommandEffect(d, setting, Create(input)).result == Failure(AlreadyExists)
    ensures Done(d, setting, Create(input)).index == d.index
    ensures LaunchOf(Done(d, setting, Create(input)), setting.yaml, r.runtimeId) == Some(MacLaunch(setting, input))
  {
    assert HasName(d.index.value.sandboxes, NameOf(input));
    CreateRefused(setting, d, input);
    StoredMacRecord(setting, d, r);
    CreateFillsInstance(setting, d, Create(input), r.name);
    hide Done, Sound, FileIn, InstanceDir, MacLaunch, MacFiles, LaunchOf, MacRuntimeId, MacPrepared, CommandEffect;
    LaunchOfMacFiles(setting, Done(d, setting, Create(input)), r.name, input);
  }

  lemma CreateRefused(setting: Setting, d: Disk, input: CreateInput)
    requires d.index.Some? && HasName(d.index.value.sandboxes, NameOf(input)) && MacPrepared(setting, input)
    ensures CommandEffect(d, setting, Create(input)).result == Failure(AlreadyExists)
    ensures Done(d, setting, Create(input)).index == d.index
  {
    DoneInOpenStore(d, setting, Create(input));
    CreateEnds(d, setting, input);
    MacReachesStore(d, setting, input);
    hide Prepared, Done, CommandEffect, CreateEffect, ReachesStore, CreatedRecord;
  }

  /**
   One command changes what a stored mac sandbox runs under if and only if it is a create of
   the same name with another policy or workdir.
   */
  lemma LaunchStep(setting: Setting, d: Disk, c: Command, name: string)
    requires setting.yaml.RoundTrip() && Sound(setting, d) && InstancesIntact(setting, d) && NameOk(c)
    requires SingleComponent(name) && InstanceDir(setting.root, name) in d.instances
    requires StoredMac(Done(d, setting, c), name)
    ensures var id := MacRuntimeId(setting.root, name);
            var launch := LaunchOf(d, setting.yaml, id);
            && launch.Some?
            && (LaunchOf(Done(d, setting, c), setting.yaml, id) != launch <==>
                && MacCreates(setting, c, name)
                && (Prepared(setting, c.input).value != launch.value.policy || c.input.workdir != launch.value.workdir))
  {
    var d' := Done(d, setting, c);
    var id := MacRuntimeId(setting.root, name);
    IntactLaunch(setting, d, name);
    if MacCreates(setting, c, name) {
      CreateFillsInstance(setting, d, c, name);
      hide Done, Sound, InstancesIntact, FileIn, InstanceDir, MacFiles, LaunchOf, MacRuntimeId, Prepared;
      hide Seatbelt.CompiledProfile;
      LaunchOfMacFiles(setting, d', name, c.input);
    } else {
      InstanceStays(setting, d, c, name);
      hide Done, Sound, InstancesIntact, InstanceDir, Prepared, Seatbelt.CompiledProfile;
      LaunchFollowsFiles(setting, d, d', name);
    }
  }

  lemma LaunchFollowsFiles(setting: Setting, d: Disk, d': Disk, name: string)
    requires FileIn(d, InstanceDir(setting.root, name)) == FileIn(d', InstanceDir(setting.root, name))
    ensures LaunchOf(d, setting.yaml, MacRuntimeId(setting.root, name)) ==
            LaunchOf(d', setting.yaml, MacRuntimeId(setting.root, name))
  {
    DirOfCreated(setting.root, name);
  }

  // ---------- Instances after a stop ----------

  /**
   The stops that leave an instance mixed: within a create's four writes of it, unless what
   was not yet written would have been the same. Before `profile.sb` nothing of an instance
   that was there has changed; before `workdir` the profile has; before `policy.yaml` the
   workdir has as well.
   */
  ghost predicate CutMixes(setting: Setting, d: Disk, cut: Cut) {
    cut.command.Create? && MacPrepared(setting, cut.command.input) &&
    var input := cut.command.input;
    var k := cut.stop - |OpenWrites(d)|;
    var id := MacRuntimeId(setting.root, NameOf(input));
    var made := MacLaunch(setting, input);
    1 <= k <= 3 &&
    (InstanceDir(setting.root, NameOf(input)) in d.instances && LaunchOf(d, setting.yaml, id).Some? ==>
       var there := LaunchOf(d, setting.yaml, id).value;
       || (k == 2 && made.profile != there.profile)
       || (k == 3 && made.profile != Some(Seatbelt.CompiledProfile(there.policy, setting.canonical(input.workdir)))))
  }

  /** An instance with a new profile only is intact if and only if the profile is the old one. */
  lemma ProfileReplaced(setting: Setting, policy: SandboxPolicy, workdir: string, profile: Seatbelt.Profile)
    requires setting.yaml.RoundTrip()
    ensures Intact(setting, Complete(setting, policy, workdir).(profile := Some(profile))) <==>
            profile == Seatbelt.CompiledProfile(policy, setting.canonical(workdir))
  {
    hide Seatbelt.CompiledProfile;
    var mixed := Complete(setting, policy, workdir).(profile := Some(profile));
    if profile == Seatbelt.CompiledProfile(policy, setting.canonical(workdir)) {
      assert mixed == Complete(setting, policy, workdir);
    }
    if Intact(setting, mixed) {
      var p, w :| mixed == Complete(setting, p, w);
      assert setting.yaml.parse(setting.yaml.render(p)) == Some(p);
      assert setting.yaml.parse(setting.yaml.render(policy)) == Some(policy);
    }
  }

  /** With the first `k` of its four files written. */
  function PartlyMade(setting: Setting, there: Instance, policy: SandboxPolicy, workdir: string, k: nat): Instance {
    var i1 := there.(profile := Some(Seatbelt.CompiledProfile(policy, setting.canonical(workdir))));
    if k == 1 then there
    else if k == 2 then i1
    else if k == 3 then i1.(workdir := Some(workdir))
    else Complete(setting, policy, workdir)
  }

  lemma CutMacWrites(d: Disk, setting: Setting, name: string, policy: SandboxPolicy, workdir: string, k: nat)
    requires 1 <= k <= 4
    ensures var dir := InstanceDir(setting.root, name);
            After(d, MacCreateWrites(d, setting, name, policy, workdir)[..k]).instances ==
            d.instances[dir := PartlyMade(setting, FileIn(d, dir), policy, workdir, k)]
  {
    hide InstanceDir, Seatbelt.CompiledProfile;
  }

  /** Putting one instance into a directory of intact ones. */
  lemma IntactWith(setting: Setting, d: Disk, d': Disk, dir: string, made: Instance)
    requires InstancesIntact(setting, d) && d'.instances == d.instances[dir := made]
    ensures InstancesIntact(setting, d') <==> Intact(setting, made)
  {
    hide Intact;
    assert d'.instances[dir] == made;
  }

  lemma EmptyIsNotIntact(setting: Setting, policy: SandboxPolicy, workdir: string, k: nat)
    requires 1 <= k <= 3
    ensures !Intact(setting, PartlyMade(setting, Instance(None, None, None), policy, workdir, k))
  {
    hide Seatbelt.CompiledProfile;
  }

  /** A create stopped among its four instance writes. */
  lemma CutMacCreate(setting: Setting, d: Disk, input: CreateInput, k: nat)
    requires setting.yaml.RoundTrip() && InstancesIntact(setting, d) && d.index.Some?
    requires MacPrepared(setting, input) && 1 <= k <= 3
    ensures var ws := MacCreateWrites(d, setting, NameOf(input), Prepared(setting, input).value, input.workdir);
            InstancesIntact(setting, After(d, ws[..k])) <==> !CutMixes(setting, d, Cut(Create(input), k))
  {
    var name, policy, workdir := NameOf(input), Prepared(setting, input).value, input.workdir;
    var dir := InstanceDir(setting.root, name);
    var there := FileIn(d, dir);
    var made := PartlyMade(setting, there, policy, workdir, k);
    CutMacWrites(d, setting, name, policy, workdir, k);
    IntactWith(setting, d, After(d, MacCreateWrites(d, setting, name, policy, workdir)[..k]), dir, made);
    if dir in d.instances {
      assert Intact(setting, there);
      var p0, w0 :| there == Complete(setting, p0, w0);
      LaunchOfComplete(setting, d, name, p0, w0);
      ProfileReplaced(setting, p0, w0, Seatbelt.CompiledProfile(policy, setting.canonical(workdir)));
      ProfileReplaced(setting, p0, workdir, Seatbelt.CompiledProfile(policy, setting.canonical(workdir)));
      hide Prepared, InstanceDir, LaunchOf, MacRuntimeId, MacCreateWrites, Intact, InstancesIntact;
      hide Seatbelt.CompiledProfile;
    } else {
      EmptyIsNotIntact(setting, policy, workdir, k);
      hide Prepared, InstanceDir, LaunchOf, MacRuntimeId, MacCreateWrites, Intact, InstancesIntact;
      hide Seatbelt.CompiledProfile;
    }
  }

  lemma CutOfMacCreate(setting: Setting, d: Disk, input: CreateInput, k: nat)
    requires MacPrepared(setting, input) && k <= |CreateEffect(d, setting, input).writes|
    ensures var ws := MacCreateWrites(d, setting, NameOf(input), Prepared(setting, input).value, input.workdir);
            var d' := After(d, CreateEffect(d, setting, input).writes[..k]);
            && |CreateEffect(d, setting, input).writes| >= 5
            && (k <= 4 ==> d' == After(d, ws[..k]))
            && (k > 4 ==> d'.instances == After(d, ws).instances)
  {
    hide Prepared, MacCreateWrites, NewRecord;
    var policy := Prepared(setting, input).value;
    var ws := MacCreateWrites(d, setting, NameOf(input), policy, input.workdir);
    FourMacWrites(d, setting, NameOf(input), policy, input.workdir);
    var runtime := RuntimeEffect(d, setting, input, policy);
    assert runtime.writes == ws && runtime.result.Success?;
    var saved := SavedPolicy(After(d, ws), setting.yaml, NameOf(input), policy);
    var rec := NewRecord(setting, input, policy, runtime.result.value);
    var more := InsertEffect(saved, rec, input.uuid).writes;
    assert |more| <= 1 && forall w :: w in more ==> w.instances == saved.instances;
    assert CreateEffect(d, setting, input).writes == ws + [saved] + more;
    hide CreateEffect, RuntimeEffect, InsertEffect, SavedPolicy;
    CutAcross(d, ws, saved, more, k);
  }

  lemma FourMacWrites(d: Disk, setting: Setting, name: string, policy: SandboxPolicy, workdir: string)
    ensures |MacCreateWrites(d, setting, name, policy, workdir)| == 4
  {
    hide Complete;
  }

  lemma CutAcross(d: Disk, a: seq<Disk>, b: Disk, c: seq<Disk>, k: nat)
    requires k <= |a + [b] + c| && b.instances == After(d, a).instances
    requires forall w :: w in c ==> w.instances == b.instances
    ensures k <= |a| ==> After(d, (a + [b] + c)[..k]) == After(d, a[..k])
    ensures k > |a| ==> After(d, (a + [b] + c)[..k]).instances == After(d, a).instances
  {
    var all := a + [b] + c;
    if k <= |a| {
      assert all[..k] == a[..k];
    } else if k > |a| + 1 {
      assert all[..k][k - 1] == c[k - |a| - 2];
    }
  }

  lemma CutOtherCreate(setting: Setting, d: Disk, input: CreateInput, k: nat)
    requires !MacPrepared(setting, input) && k <= |CreateEffect(d, setting, input).writes|
    ensures After(d, CreateEffect(d, setting, input).writes[..k]).instances == d.instances
  {
    var prepared := Prepared(setting, input);
    hide Prepared, MacCreateWrites, NewRecord;
    if prepared.Success? {
      var runtime := RuntimeEffect(d, setting, input, prepared.value);
      assert runtime.writes == [];
      hide RuntimeEffect;
    }
  }

  /** No write but those of a create changes what instances hold, up to the last write of an rm. */
  lemma CutElsewhere(setting: Setting, d: Disk, c: Command, k: nat)
    requires d.index.Some? && k < |BodyEffect(d, setting, c).writes|
    requires c.Create? ==> !MacPrepared(setting, c.input)
    ensures After(d, BodyEffect(d, setting, c).writes[..k]).instances == d.instances
  {
    match c {
      case Create(input) =>
        CutOtherCreate(setting, d, input, k);
        hide CreateEffect, MacPrepared;
      case Exec(key, ok) => hide GetOrLast;
      case PolicyGet(key) =>
      case PolicySet(key, file) => hide GetOrLast, Preflight, WithHash, PolicyFromFile;
      case Rm(target, ok) => hide RemoveFrom, DirOf, WithoutTree;
    }
  }

  /** On an open store, a command stopped before its last write. */
  lemma CutInstances(setting: Setting, d: Disk, c: Command, k: nat)
    requires setting.yaml.RoundTrip() && InstancesIntact(setting, d) && d.index.Some?
    requires k < |BodyEffect(d, setting, c).writes|
    ensures InstancesIntact(setting, After(d, BodyEffect(d, setting, c).writes[..k])) <==>
            !CutMixes(setting, d, Cut(c, k))
  {
    var d' := After(d, BodyEffect(d, setting, c).writes[..k]);
    if c.Create? && MacPrepared(setting, c.input) {
      var policy := Prepared(setting, c.input).value;
      CutOfMacCreate(setting, d, c.input, k);
      FourMacWrites(d, setting, NameOf(c.input), policy, c.input.workdir);
      var ws := MacCreateWrites(d, setting, NameOf(c.input), policy, c.input.workdir);
      hide CreateEffect, Prepared, MacCreateWrites, InstancesIntact, LaunchOf, Seatbelt.CompiledProfile;
      if 1 <= k <= 3 {
        CutMacCreate(setting, d, c.input, k);
      } else if k == 0 {
        assert ws[..0] == [];
      } else {
        assert ws[..4] == ws;
        CutMacWrites(d, setting, NameOf(c.input), policy, c.input.workdir, 4);
        IntactWith(setting, d, d', InstanceDir(setting.root, NameOf(c.input)), MacFiles(setting, c.input));
      }
    } else {
      CutElsewhere(setting, d, c, k);
      hide BodyEffect, MacPrepared;
      IntactFrame(setting, d, d');
    }
  }

  lemma IntactFrame(setting: Setting, d: Disk, d': Disk)
    requires InstancesIntact(setting, d) && d'.instances == d.instances
    ensures InstancesIntact(setting, d')
  {
    hide Intact;
  }

  /** A command that stops anywhere leaves every instance intact if and only if the stop is none of those. */
  lemma CutInstanceStep(setting: Setting, d: Disk, cut: Cut)
    requires setting.yaml.RoundTrip() && Sound(setting, d) && InstancesIntact(setting, d)
    ensures InstancesIntact(setting, After(d, CutWrites(d, setting, cut))) <==> !CutMixes(setting, d, cut)
  {
    var c := cut.command;
    var d0 := After(d, OpenWrites(d));
    var ws := CommandEffect(d, setting, c).writes;
    IntactFrame(setting, d, d0);
    if cut.stop >= |ws| {
      assert cut.stop == |ws| ==> ws[..cut.stop] == ws;
      IntactStep(setting, d, c);
      if c.Create? && MacPrepared(setting, c.input) {
        CutOfMacCreate(setting, d0, c.input, 0);
      }
      hide MacPrepared, InstancesIntact, LaunchOf, Sound;
    } else if cut.stop < |OpenWrites(d)| {
      assert ws[..cut.stop] == [];
    } else {
      var k := cut.stop - |OpenWrites(d)|;
      assert ws[..cut.stop] == OpenWrites(d) + BodyEffect(d0, setting, c).writes[..k];
      assert After(d, ws[..cut.stop]) == After(d0, BodyEffect(d0, setting, c).writes[..k]);
      CutInstances(setting, d0, c, k);
      MixesAlike(setting, d, cut);
    }
  }

  lemma MixesAlike(setting: Setting, d: Disk, cut: Cut)
    requires cut.stop >= |OpenWrites(d)|
    ensures CutMixes(setting, d, cut) <==>
            CutMixes(setting, After(d, OpenWrites(d)), Cut(cut.command, cut.stop - |OpenWrites(d)|))
  {
    hide MacPrepared, MacRuntimeId, InstanceDir, Seatbelt.CompiledProfile, DirOf, MacLaunch;
  }

  /** Over any run with any stops, every instance stays intact all the way if and only if no stop mixes one. */
  lemma InstancesAcrossStops(setting: Setting, cuts: seq<Cut>)
    requires setting.yaml.RoundTrip()
    requires forall i :: 0 <= i < |cuts| ==> NameOk(cuts[i].command)
    ensures (forall n :: 0 <= n <= |cuts| ==> InstancesIntact(setting, RunCuts(setting, cuts[..n]))) <==>
            (forall i :: 0 <= i < |cuts| ==> !CutMixes(setting, RunCuts(setting, cuts[..i]), cuts[i]))
  {
    hide Sound, CutMixes, CutWrites, RunCuts, Intact;
    assert InstancesIntact(setting, NEW_DISK);
    hide InstancesIntact;
    forall i | 0 <= i < |cuts| && InstancesIntact(setting, RunCuts(setting, cuts[..i]))
      ensures var d := RunCuts(setting, cuts[..i]);
              InstancesIntact(setting, After(d, CutWrites(d, setting, cuts[i]))) <==> !CutMixes(setting, d, cuts[i])
    {
      CrashSafety(setting, cuts[..i]);
      CutInstanceStep(setting, RunCuts(setting, cuts[..i]), cuts[i]);
    }
    var keeps: Disk -> bool := d => InstancesIntact(setting, d);
    var breaks: (Disk, Cut) -> bool := (d, cut) => CutMixes(setting, d, cut);
    RunThroughout(setting, cuts, keeps, breaks);
    assert forall n :: 0 <= n <= |cuts| ==>
      keeps(RunCuts(setting, cuts[..n])) == InstancesIntact(setting, RunCuts(setting, cuts[..n]));
    assert forall i :: 0 <= i < |cuts| ==>
      breaks(RunCuts(setting, cuts[..i]), cuts[i]) == CutMixes(setting, RunCuts(setting, cuts[..i]), cuts[i]);
  }
}
