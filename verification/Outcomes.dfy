/**
 What each operation of the store and each command comes to, outright: in terms of the records,
 the files and the arguments, case by case.
 */
module Outcomes {
  import opened Wrappers
  import opened Policy
  import opened State
  import opened ConfigDir
  import opened Store
  import opened MacRuntime
  import opened Commands
  import opened Runs
  import Seatbelt
  import Size

  // ---------- Lookup ----------

  /** No record has the name or id. */
  ghost predicate Unknown(rs: seq<Record>, key: string) {
    forall i :: 0 <= i < |rs| ==> rs[i].name != key && rs[i].id != key
  }

  /** The first record that has the name or id. */
  ghost predicate FirstFor(rs: seq<Record>, key: string, i: nat) {
    && i < |rs| && (rs[i].name == key || rs[i].id == key)
    && forall j :: 0 <= j < i ==> rs[j].name != key && rs[j].id != key
  }

  ghost predicate FirstNamed(rs: seq<Record>, name: string, i: nat) {
    i < |rs| && rs[i].name == name && forall j :: 0 <= j < i ==> rs[j].name != name
  }

  lemma FindMeans(rs: seq<Record>, key: string, i: nat)
    ensures Unknown(rs, key) <==> Find(rs, key) == None
    ensures FirstFor(rs, key, i) ==> Find(rs, key) == Some(rs[i]) && Position(rs, key) == Some(i)
  {
    var p := Position(rs, key);
    if p.Some? {
      assert Answers(rs[p.value], key);
    }
    if FirstFor(rs, key, i) {
      assert Answers(rs[i], key);
      assert forall j :: 0 <= j < i ==> !Answers(rs[j], key);
    }
    assert Unknown(rs, key) <==> forall j :: 0 <= j < |rs| ==> !Answers(rs[j], key);
  }

  /** A given key finds the first record that has it, or nothing, whatever was used last. */
  lemma KeyFinds(s: State, key: string, i: nat)
    ensures Unknown(s.sandboxes, key) <==> GetOrLast(s, Some(key)) == None
    ensures FirstFor(s.sandboxes, key, i) ==> GetOrLast(s, Some(key)) == Some(s.sandboxes[i])
  {
    FindMeans(s.sandboxes, key, i);
    hide Find;
  }

  /** No key finds the first record of the last used name, and without one the newest record. */
  lemma NoKeyFinds(s: State, i: nat)
    ensures s.lastUsed.Some? && FirstFor(s.sandboxes, s.lastUsed.value, i) ==>
              GetOrLast(s, None) == Some(s.sandboxes[i])
    ensures s.lastUsed.None? || Unknown(s.sandboxes, s.lastUsed.value) ==>
              GetOrLast(s, None) ==
              if s.sandboxes == [] then None else Some(s.sandboxes[|s.sandboxes| - 1])
  {
    if s.lastUsed.Some? {
      FindMeans(s.sandboxes, s.lastUsed.value, i);
    }
    hide Find, FirstFor, Unknown;
  }

  // ---------- Changes of the index ----------

  lemma InsertMeans(s: State, r: Record)
    ensures (exists i :: 0 <= i < |s.sandboxes| && s.sandboxes[i].name == r.name) ==> InsertInto(s, r) == None
    ensures (forall i :: 0 <= i < |s.sandboxes| ==> s.sandboxes[i].name != r.name) ==>
              InsertInto(s, r) == Some(State(Some(r.name), s.sandboxes + [r]))
  {
  }

  /** Removing the last used sandbox makes the newest remaining one the last used. */
  lemma RemoveMeans(s: State, key: string, i: nat)
    ensures Unknown(s.sandboxes, key) ==> RemoveFrom(s, key) == None
    ensures FirstFor(s.sandboxes, key, i) ==>
              var rest := s.sandboxes[..i] + s.sandboxes[i + 1..];
              var last := if s.lastUsed != Some(s.sandboxes[i].name) then s.lastUsed
                          else if rest == [] then None else Some(rest[|rest| - 1].name);
              RemoveFrom(s, key) == Some((State(last, rest), s.sandboxes[i]))
  {
    FindMeans(s.sandboxes, key, i);
    hide Position;
  }

  lemma HashMeans(s: State, name: string, hash: string, i: nat)
    ensures (forall j :: 0 <= j < |s.sandboxes| ==> s.sandboxes[j].name != name) ==> WithHash(s, name, hash) == None
    ensures FirstNamed(s.sandboxes, name, i) ==>
              WithHash(s, name, hash) ==
              Some(State(Some(name), s.sandboxes[i := s.sandboxes[i].(policyHash := hash)]))
  {
    hide HasName;
    var p := NamePosition(s.sandboxes, name);
    assert p.None? ==> forall j :: 0 <= j < |s.sandboxes| ==> s.sandboxes[j].name != name by {
      NoneNamed(s.sandboxes, name);
    }
  }

  lemma NoneNamed(rs: seq<Record>, name: string)
    ensures !HasName(rs, name) <==> forall j :: 0 <= j < |rs| ==> rs[j].name != name
  {
  }

  lemma TouchMeans(s: State, name: string)
    ensures Touched(s, name).lastUsed == Some(name) && Touched(s, name).sandboxes == s.sandboxes
  {
  }

  // ---------- Policy files ----------

  /** A text loads as a policy if and only if it parses as that policy and the policy is valid. */
  lemma LoadMeans(yaml: Yaml, text: string, p: SandboxPolicy)
    ensures yaml.Load(text) == Success(p) <==> yaml.parse(text) == Some(p) && Valid(p)
    ensures yaml.parse(text).None? ==> yaml.Load(text) == Failure(Unreadable)
    ensures yaml.parse(text) == Some(p) && !Valid(p) ==> yaml.Load(text) == Failure(Complaint(p).value)
    ensures yaml.ContentHash(p) == yaml.digest(yaml.render(p))
  {
    hide Complaint;
  }

  /** The first complaint, check by check. */
  lemma ComplaintMeans(p: SandboxPolicy)
    ensures p.version != 1 ==> Complaint(p) == Some(BadVersion)
    ensures var bad := p.resources.cpus.Number? && (p.resources.cpus.negative || p.resources.cpus.magnitude == 0);
            p.version == 1 && bad ==> Complaint(p) == Some(BadCpus)
    ensures var fine := p.version == 1 && (p.resources.cpus.NotANumber? ||
                          (!p.resources.cpus.negative && p.resources.cpus.magnitude > 0));
            var memory := Size.ParseSize(p.resources.memory);
            && (fine && memory.Failure? ==> Complaint(p) == Some(BadMemory(memory.error)))
            && (fine && memory.Success? && p.network.mode == Allowlist && p.network.endpoints == [] ==>
                  Complaint(p) == Some(NoEndpoints))
            && (fine && memory.Success? && (p.network.mode != Allowlist || p.network.endpoints != []) ==>
                  Complaint(p) ==
                  if exists i :: 0 <= i < |p.secrets| && (p.secrets[i].env == "" || p.secrets[i].from == "")
                  then Some(EmptySecret) else None)
  {
    hide Size.ParseSize;
    assert forall i :: 0 <= i < |p.secrets| ==>
      (SecretOk(p.secrets[i]) <==> !(p.secrets[i].env == "" || p.secrets[i].from == ""));
  }

  lemma LoadedMeans(d: Disk, yaml: Yaml, name: string, p: SandboxPolicy)
    ensures name !in d.policies ==> LoadedPolicy(d, yaml, name) == Failure(Io)
    ensures name in d.policies ==>
              (LoadedPolicy(d, yaml, name) == Success(p) <==> yaml.parse(d.policies[name]) == Some(p) && Valid(p))
  {
    if name in d.policies {
      LoadMeans(yaml, d.policies[name], p);
    }
    hide Complaint, Valid;
  }

  // ---------- Store operations that fail ----------

  /** Without an index every operation fails; an update has then written its policy file already. */
  lemma WithoutIndex(d: Disk, yaml: Yaml, key: Option<string>, name: string, r: Record, uuid: string, p: SandboxPolicy)
    requires d.index.None?
    ensures GetOrLastResult(d, key) == Failure(Io) && InsertEffect(d, r, uuid) == Effect([], Failure(Io))
    ensures RemoveEffect(d, name) == Effect([], Failure(Io)) && TouchEffect(d, name) == Effect([], Failure(Io))
    ensures UpdateEffect(d, yaml, name, p) ==
            Effect([d.(policies := d.policies[name := yaml.render(p)])], Failure(Io))
  {
  }

  /** An update under a name that no record has leaves a policy file behind, and the index alone. */
  lemma UpdateOfUnknown(d: Disk, yaml: Yaml, name: string, p: SandboxPolicy)
    requires d.index.Some? && forall i :: 0 <= i < |d.index.value.sandboxes| ==> d.index.value.sandboxes[i].name != name
    ensures UpdateEffect(d, yaml, name, p) ==
            Effect([d.(policies := d.policies[name := yaml.render(p)])], Failure(NotFound))
  {
    HashMeans(d.index.value, name, yaml.ContentHash(p), 0);
    hide WithHash;
  }

  // ---------- Commands on a sandbox that is looked up ----------

  /** The index that a command finds: opening makes an empty one where there is none. */
  function Found(d: Disk): State {
    if d.index.Some? then d.index.value else State(None, [])
  }

  ghost predicate OnlyOpens(d: Disk, effect: Effect<()>) {
    effect.writes == if d.index.Some? then [] else [d.(index := Some(State(None, [])))]
  }

  /** With a key that no record has, exec, policy and rm write nothing and report not-found. */
  lemma UnknownKey(setting: Setting, d: Disk, key: string, ok: bool, file: Option<string>, c: Command)
    requires Unknown(Found(d).sandboxes, key)
    requires c in {Exec(Some(key), ok), PolicyGet(Some(key)), PolicySet(Some(key), file), Rm(key, ok)}
    ensures var effect := CommandEffect(d, setting, c);
            OnlyOpens(d, effect) && effect.result == Failure(NotFound)
  {
    KeyFinds(Found(d), key, 0);
    RemoveMeans(Found(d), key, 0);
    hide GetOrLast, RemoveFrom, Unknown;
    var d0 := After(d, OpenWrites(d));
    assert d0.index == Some(Found(d));
  }

  /** Without a key in an empty store likewise. */
  lemma NothingStored(setting: Setting, d: Disk, ok: bool, file: Option<string>, c: Command)
    requires Found(d).sandboxes == []
    requires c in {Exec(None, ok), PolicyGet(None), PolicySet(None, file)}
    ensures var effect := CommandEffect(d, setting, c);
            OnlyOpens(d, effect) && effect.result == Failure(NotFound)
  {
    GetOrLastFinds(Found(d));
    hide GetOrLast;
    var d0 := After(d, OpenWrites(d));
    assert d0.index == Some(Found(d));
  }

  /** exec makes the sandbox found the last used one, and then reports what the mechanism did. */
  lemma ExecMeans(setting: Setting, d: Disk, key: Option<string>, ok: bool, r: Record)
    requires d.index.Some? && GetOrLast(d.index.value, key) == Some(r)
    ensures var effect := CommandEffect(d, setting, Exec(key, ok));
            && effect.writes == [d.(index := Some(d.index.value.(lastUsed := Some(r.name))))]
            && effect.result == if ok then Success(()) else Failure(MechanismFailed)
  {
    DoneInOpenStore(d, setting, Exec(key, ok));
    hide GetOrLast, CommandEffect;
  }

  /** policy get writes nothing and shows the file of the sandbox found. */
  lemma PolicyGetMeans(setting: Setting, d: Disk, key: Option<string>, r: Record, p: SandboxPolicy)
    requires d.index.Some? && GetOrLast(d.index.value, key) == Some(r)
    ensures CommandEffect(d, setting, PolicyGet(key)).writes == []
    ensures r.name !in d.policies ==> PolicyGetResult(d, setting.yaml, key) == Failure(Io)
    ensures r.name in d.policies ==>
              (PolicyGetResult(d, setting.yaml, key) == Success(p) <==>
               setting.yaml.parse(d.policies[r.name]) == Some(p) && Valid(p))
  {
    DoneInOpenStore(d, setting, PolicyGet(key));
    LoadedMeans(d, setting.yaml, r.name, p);
    hide GetOrLast, CommandEffect, LoadedPolicy, Valid;
  }

  /** policy set of a text that parses as a valid policy that fits: the file first, then hash and last used. */
  lemma PolicySetMeans(setting: Setting, d: Disk, key: Option<string>, text: string, p: SandboxPolicy, r: Record,
                       i: nat)
    requires d.index.Some? && GetOrLast(d.index.value, key) == Some(r)
    requires FirstNamed(d.index.value.sandboxes, r.name, i)
    requires setting.yaml.parse(text) == Some(p) && Valid(p) && setting.fits(p)
    ensures var effect := CommandEffect(d, setting, PolicySet(key, Some(text)));
            var rs := d.index.value.sandboxes;
            var printed := setting.yaml.render(p);
            var filed := d.(policies := d.policies[r.name := printed]);
            var hashed := rs[i := rs[i].(policyHash := setting.yaml.digest(printed))];
            && effect.result == Success(())
            && effect.writes == [filed, filed.(index := Some(State(Some(r.name), hashed)))]
  {
    DoneInOpenStore(d, setting, PolicySet(key, Some(text)));
    LoadMeans(setting.yaml, text, p);
    HashMeans(d.index.value, r.name, setting.yaml.ContentHash(p), i);
    hide GetOrLast, CommandEffect, Complaint, WithHash;
  }

  /** policy set of anything else leaves the store alone. */
  lemma PolicySetRefuses(setting: Setting, d: Disk, key: Option<string>, file: Option<string>, r: Record)
    requires d.index.Some? && GetOrLast(d.index.value, key) == Some(r)
    ensures var effect := CommandEffect(d, setting, PolicySet(key, file));
            var parsed := if file.Some? then setting.yaml.parse(file.value) else None;
            && (parsed.None? ==> effect == Effect([], Failure(PolicyRefused(Unreadable))))
            && (parsed.Some? && !Valid(parsed.value) ==>
                  effect == Effect([], Failure(PolicyRefused(Complaint(parsed.value).value))))
            && (parsed.Some? && Valid(parsed.value) && !setting.fits(parsed.value) ==>
                  effect == Effect([], Failure(PolicyRefused(OverCapacity))))
  {
    DoneInOpenStore(d, setting, PolicySet(key, file));
    hide GetOrLast, CommandEffect, Complaint;
  }

  lemma UnmakeMeans(d: Disk, r: Record, ok: bool)
    ensures var effect := UnmakeEffect(d, r, ok);
            && (r.mechanism != Mac || DirOf(r.runtimeId).None? ==> effect.writes == [])
            && (r.mechanism == Mac && DirOf(r.runtimeId).Some? ==>
                  effect.writes == [d.(instances := WithoutTree(d.instances, DirOf(r.runtimeId).value))])
            && effect.result == (if r.mechanism == Mac || (ok && r.mechanism != Krun) then Success(())
                                 else Failure(MechanismFailed))
  {
    hide DirOf, WithoutTree;
  }

  /** rm: the index, then the policy file, then for a mac sandbox its directory; and the result. */
  lemma RmMeans(setting: Setting, d: Disk, target: string, ok: bool, i: nat)
    requires d.index.Some? && FirstFor(d.index.value.sandboxes, target, i)
    ensures var s := d.index.value;
            var r := s.sandboxes[i];
            var effect := CommandEffect(d, setting, Rm(target, ok));
            var indexed := d.(index := Some(RemoveFrom(s, target).value.0));
            var filed := indexed.(policies := d.policies - {r.name});
            && RemoveFrom(s, target).Some?
            && (r.mechanism != Mac || DirOf(r.runtimeId).None? ==> effect.writes == [indexed, filed])
            && (r.mechanism == Mac && DirOf(r.runtimeId).Some? ==>
                  effect.writes ==
                  [indexed, filed, filed.(instances := WithoutTree(d.instances, DirOf(r.runtimeId).value))])
            && effect.result == (if r.mechanism == Mac || (ok && r.mechanism != Krun) then Success(())
                                 else Failure(MechanismFailed))
  {
    DoneInOpenStore(d, setting, Rm(target, ok));
    RemoveMeans(d.index.value, target, i);
    var r := d.index.value.sandboxes[i];
    var filed := d.(index := Some(RemoveFrom(d.index.value, target).value.0), policies := d.policies - {r.name});
    UnmakeMeans(filed, r, ok);
    hide RemoveFrom, CommandEffect, UnmakeEffect, DirOf, WithoutTree;
  }

  // ---------- create ----------

  /** Where the policy of a create comes from before anything is overridden. */
  function Given(yaml: Yaml, input: CreateInput): Option<SandboxPolicy> {
    match input.policyFile
    case None => Some(DEFAULT_POLICY)
    case Some(None) => None
    case Some(Some(text)) => yaml.parse(text)
  }

  /** The command line replaces CPU count, memory and mechanism, each by itself, and nothing else. */
  lemma OverriddenMeans(p: SandboxPolicy, input: CreateInput)
    ensures var q := Overridden(p, input);
            && q.version == p.version && q.filesystem == p.filesystem
            && q.network == p.network && q.secrets == p.secrets
            && q.resources.cpus == (match input.cpus case Some(c) => c case None => p.resources.cpus)
            && q.resources.memory == (match input.memory case Some(m) => m case None => p.resources.memory)
            && q.mechanism == (match input.mechanism case Some(m) => Some(m) case None => p.mechanism)
  {
  }

  /** A policy file must be valid before and after what the command line replaces. */
  lemma CommandPolicyMeans(yaml: Yaml, input: CreateInput)
    ensures var given := Given(yaml, input);
            && (given.None? ==> CommandPolicy(yaml, input) == Failure(Unreadable))
            && (given.Some? && input.policyFile.Some? && !Valid(given.value) ==>
                  CommandPolicy(yaml, input) == Failure(Complaint(given.value).value))
            && (given.Some? && (input.policyFile.None? || Valid(given.value)) ==>
                  var q := Overridden(given.value, input);
                  CommandPolicy(yaml, input) == if Valid(q) then Success(q) else Failure(Complaint(q).value))
  {
    hide Complaint, Overridden;
  }

  /** Automatic choice is the container engine on mac and Linux, and the seatbelt elsewhere. */
  lemma ResolveMeans(platform: Platform)
    ensures ResolveMechanism(Auto, MacOs) == Podman && ResolveMechanism(Auto, Linux) == Podman
    ensures ResolveMechanism(Auto, OtherOs) == Mac
    ensures ResolveMechanism(Mac, platform) == Mac && ResolveMechanism(Podman, platform) == Podman
    ensures ResolveMechanism(Krun, platform) == Krun
  {
  }

  /** The mechanism of a create: the policy's, resolved. */
  function Resolved(setting: Setting, p: SandboxPolicy): SandboxPolicy {
    p.(mechanism := Some(match p.mechanism
                         case Some(m) => ResolveMechanism(m, setting.platform)
                         case None => ResolveMechanism(Auto, setting.platform)))
  }

  lemma ResolvedKeepsValid(setting: Setting, p: SandboxPolicy)
    ensures Complaint(Resolved(setting, p)) == Complaint(p)
  {
    hide Size.ParseSize;
  }

  /** A create is refused for its policy, for the capacity, for the secrets and for the proxy, in this order. */
  lemma PreparedMeans(setting: Setting, input: CreateInput)
    ensures var chosen := CommandPolicy(setting.yaml, input);
            match chosen
            case Failure(e) => Prepared(setting, input) == Failure(PolicyRefused(e))
            case Success(p) =>
              var q := Resolved(setting, p);
              && Valid(p)
              && (!setting.fits(q) ==> Prepared(setting, input) == Failure(PolicyRefused(OverCapacity)))
              && (setting.fits(q) && !input.secretsOk ==> Prepared(setting, input) == Failure(SecretRefused))
              && (setting.fits(q) && input.secretsOk && q.network.mode == Allowlist && !input.proxyStarts ==>
                    Prepared(setting, input) == Failure(ProxyFailed))
              && (setting.fits(q) && input.secretsOk && (q.network.mode != Allowlist || input.proxyStarts) ==>
                    Prepared(setting, input) == Success(q))
  {
    CommandPolicyMeans(setting.yaml, input);
    var chosen := CommandPolicy(setting.yaml, input);
    if chosen.Success? {
      ResolvedKeepsValid(setting, chosen.value);
    }
    hide CommandPolicy, Complaint, ResolveMechanism, Overridden;
  }

  /** A refused create, or one whose mechanism fails, writes nothing. */
  lemma CreateRefuses(setting: Setting, d: Disk, input: CreateInput)
    requires d.index.Some?
    ensures var effect := CommandEffect(d, setting, Create(input));
            match Prepared(setting, input)
            case Failure(e) => effect == Effect([], Failure(e))
            case Success(p) =>
              var works := match p.mechanism
                           case Some(Mac) => setting.platform == MacOs
                           case Some(Podman) => input.container.Some?
                           case _ => false;
              !works ==> effect == Effect([], Failure(MechanismFailed))
  {
    DoneInOpenStore(d, setting, Create(input));
    hide Prepared, CommandEffect, MacCreateWrites, NewRecord, InsertEffect;
  }

  /** The record of a create, field by field. */
  lemma RecordMeans(d: Disk, setting: Setting, input: CreateInput)
    requires ReachesStore(d, setting, input) && input.uuid != ""
    ensures var r := CreatedRecord(d, setting, input);
            var p := Prepared(setting, input).value;
            var name := if input.name.Some? then input.name.value else "default";
            && r.id == input.uuid && r.name == name && p.mechanism == Some(r.mechanism)
            && r.policyHash == setting.yaml.digest(setting.yaml.render(p))
            && r.workdir == input.workdir && r.createdAt == input.now && r.proxyPort == input.proxyPort
            && r.logPath == Some(setting.root + "/logs/" + name + ".log") && !r.ephemeral
            && (r.mechanism == Mac ==>
                  r.runtimeId == "mac:" + (setting.root + "/mac/instances/" + name + "/profile.sb"))
            && (r.mechanism == Podman ==>
                  input.container.Some? &&
                  r.runtimeId == if input.container.value == "" then "ssbx-" + name else input.container.value)
  {
    hide Prepared, MacCreateWrites;
  }

  /** A container create: the policy file, then the record, unless the name is stored. */
  lemma ContainerCreateMeans(d: Disk, setting: Setting, input: CreateInput)
    requires d.index.Some? && input.uuid != "" && ReachesStore(d, setting, input)
    requires Prepared(setting, input).value.mechanism == Some(Podman)
    ensures var effect := CommandEffect(d, setting, Create(input));
            var r := CreatedRecord(d, setting, input);
            var filed := d.(policies := d.policies[r.name := setting.yaml.render(Prepared(setting, input).value)]);
            var rs := d.index.value.sandboxes;
            if exists i :: 0 <= i < |rs| && rs[i].name == r.name
            then effect == Effect([filed], Failure(AlreadyExists))
            else effect == Effect([filed, filed.(index := Some(State(Some(r.name), rs + [r])))], Success(()))
  {
    DoneInOpenStore(d, setting, Create(input));
    ContainerEffect(d, setting, input);
    CreatedRecordIs(d, setting, input);
    InsertMeans(d.index.value, CreatedRecord(d, setting, input));
    hide Prepared, CommandEffect, CreateEffect, InsertInto, CreatedRecord, ReachesStore;
  }

  lemma ContainerEffect(d: Disk, setting: Setting, input: CreateInput)
    requires d.index.Some? && ReachesStore(d, setting, input)
    requires Prepared(setting, input).value.mechanism == Some(Podman)
    ensures var filed := SavedPolicy(d, setting.yaml, NameOf(input), Prepared(setting, input).value);
            CreateEffect(d, setting, input) ==
            match InsertInto(d.index.value, CreatedRecord(d, setting, input))
            case None => Effect([filed], Failure(AlreadyExists))
            case Some(s) => Effect([filed, filed.(index := Some(s))], Success(()))
  {
    hide Prepared, InsertInto, NewRecord;
  }

  // ---------- Mac instances ----------

  /** The four writes of a mac create, each over what is there. */
  lemma MacWritesMean(d: Disk, setting: Setting, name: string, policy: SandboxPolicy, workdir: string)
    ensures var dir := setting.root + "/mac/instances/" + name;
            var there := if dir in d.instances then d.instances[dir] else Instance(None, None, None);
            var profile := Some(Seatbelt.CompiledProfile(policy, setting.canonical(workdir)));
            var made := Instance(profile, Some(workdir), Some(setting.yaml.render(policy)));
            MacCreateWrites(d, setting, name, policy, workdir) ==
            [d.(instances := d.instances[dir := there]),
             d.(instances := d.instances[dir := Instance(profile, there.workdir, there.policy)]),
             d.(instances := d.instances[dir := Instance(profile, Some(workdir), there.policy)]),
             d.(instances := d.instances[dir := made])]
  {
    hide Seatbelt.CompiledProfile;
  }

  /** A launch by a runtime id of this mechanism, file by file, and by any other. */
  lemma LaunchMeans(d: Disk, yaml: Yaml, root: string, name: string, other: string)
    requires |other| < 4 || other[..4] != "mac:"
    ensures var dir := root + "/mac/instances/" + name;
            var files := if dir in d.instances then d.instances[dir] else Instance(None, None, None);
            var parsed := if files.policy.Some? then yaml.parse(files.policy.value) else None;
            LaunchOf(d, yaml, "mac:" + (dir + "/profile.sb")) ==
            Some(Launch(files.profile,
                        if parsed.Some? then parsed.value else DEFAULT_POLICY,
                        if files.workdir.Some? then files.workdir.value else "."))
    ensures LaunchOf(d, yaml, other).None?
  {
    DirOfCreated(root, name);
    hide Parent;
  }

  /** The parent of a path: what stands in front of its last slash, and the empty path when there is none. */
  lemma ParentMeans(head: string, tail: string)
    requires '/' !in tail
    ensures Parent(head + "/" + tail) == Some(head)
    ensures tail != "" ==> Parent(tail) == Some("")
    ensures Parent("").None?
  {
    TailLengthOf(head, tail);
    var path := head + "/" + tail;
    assert path[..|path| - |tail| - 1] == head;
    assert TailLength(tail) == |tail|;
  }

  /** The tree at a directory: it and everything whose path goes on behind it with a slash. */
  lemma WithoutMeans(instances: map<string, Instance>, dir: string, path: string)
    ensures WithoutTree(instances, "") == instances
    ensures dir != "" ==>
              (path in WithoutTree(instances, dir) <==>
               path in instances && path != dir && !(|path| > |dir| && path[..|dir|] == dir && path[|dir|] == '/'))
    ensures path in WithoutTree(instances, dir) ==> WithoutTree(instances, dir)[path] == instances[path]
  {
    if |path| > |dir| && path[..|dir|] == dir && path[|dir|] == '/' {
      assert path[..|dir| + 1] == dir + "/";
    }
    if dir + "/" <= path {
      assert path[..|dir|] == (dir + "/")[..|dir|] == dir;
      assert path[|dir|] == (dir + "/")[|dir|];
    }
  }

  /** A record keeps the id it has, and gets one when it has none. */
  lemma IdentifiedMeans(r: Record, uuid: string)
    ensures r.id != "" ==> Identified(r, uuid) == r
    ensures r.id == "" ==> Identified(r, uuid) == r.(id := uuid)
  {
  }
}
