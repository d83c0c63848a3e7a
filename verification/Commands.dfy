/** The commands of the CLI as ordered effects on the configuration directory. */
module Commands {
  import opened Wrappers
  import opened Policy
  import opened State
  import opened ConfigDir
  import opened Store
  import opened MacRuntime
  import opened Podman

  /** The arguments of `create` and what its surroundings answer. */
  datatype CreateInput = CreateInput(
    name: Option<string>,
    policyFile: Option<Option<string>>,
    cpus: Option<Float>,
    memory: Option<string>,
    mechanism: Option<MechanismKind>,
    workdir: string,
    secretsOk: bool,
    proxyStarts: bool,
    container: Option<string>,
    uuid: string,
    now: int,
    proxyPort: Option<Port>)

  datatype Command =
    | Create(input: CreateInput)
    | Exec(key: Option<string>, mechanismOk: bool)
    | PolicyGet(key: Option<string>)
    | PolicySet(key: Option<string>, file: Option<string>)
    | Rm(target: string, mechanismOk: bool)

  // ---------- Policies given on the command line ----------

  function PolicyFromFile(yaml: Yaml, file: Option<string>): Result<SandboxPolicy, PolicyError> {
    match file
    case None => Failure(Unreadable)
    case Some(text) => yaml.Load(text)
  }

  function Overridden(p: SandboxPolicy, input: CreateInput): SandboxPolicy {
    p.(resources := Resources(if input.cpus.Some? then input.cpus.value else p.resources.cpus,
                              if input.memory.Some? then input.memory.value else p.resources.memory),
       mechanism := if input.mechanism.Some? then input.mechanism else p.mechanism)
  }

  /** The policy of a create command: the file's or the default, overridden, then validated. */
  function CommandPolicy(yaml: Yaml, input: CreateInput): Result<SandboxPolicy, PolicyError> {
    var given := match input.policyFile
                 case None => Success(DEFAULT_POLICY)
                 case Some(file) => PolicyFromFile(yaml, file);
    match given
    case Failure(e) => Failure(e)
    case Success(p) =>
      match Complaint(Overridden(p, input))
      case Some(e) => Failure(e)
      case None => Success(Overridden(p, input))
  }

  method LoadCommandPolicy(yaml: Yaml, input: CreateInput) returns (r: Result<SandboxPolicy, PolicyError>)
    ensures r == CommandPolicy(yaml, input)
  {
    hide Complaint;
    var policy := DEFAULT_POLICY;
    if input.policyFile.Some? {
      var given := PolicyFromFile(yaml, input.policyFile.value);
      if given.Failure? {
        return Failure(given.error);
      }
      policy := given.value;
    }
    if input.cpus.Some? {
      policy := policy.(resources := policy.resources.(cpus := input.cpus.value));
    }
    if input.memory.Some? {
      policy := policy.(resources := policy.resources.(memory := input.memory.value));
    }
    if input.mechanism.Some? {
      policy := policy.(mechanism := input.mechanism);
    }
    var complaint := Validate(policy);
    if complaint.Some? {
      return Failure(complaint.value);
    }
    return Success(policy);
  }

  function ResolveMechanism(kind: MechanismKind, platform: Platform): MechanismKind {
    if kind != Auto then kind
    else if platform == OtherOs then Mac
    else Podman
  }

  function Preflight(setting: Setting, p: SandboxPolicy): Option<PolicyError> {
    match Complaint(p)
    case Some(e) => Some(e)
    case None => if setting.fits(p) then None else Some(OverCapacity)
  }

  // ---------- create ----------

  function NameOf(input: CreateInput): string {
    if input.name.Some? then input.name.value else "default"
  }

  /** The policy that is stored: the mechanism resolved, the capacity, secrets and proxy accepted. */
  function Prepared(setting: Setting, input: CreateInput): Result<SandboxPolicy, Error> {
    match CommandPolicy(setting.yaml, input)
    case Failure(e) => Failure(PolicyRefused(e))
    case Success(p) =>
      var kind := ResolveMechanism(if p.mechanism.Some? then p.mechanism.value else Auto, setting.platform);
      var policy := p.(mechanism := Some(kind));
      match Preflight(setting, policy)
      case Some(e) => Failure(PolicyRefused(e))
      case None =>
        if !input.secretsOk then Failure(SecretRefused)
        else if policy.network.mode == Allowlist && !input.proxyStarts then Failure(ProxyFailed)
        else Success(policy)
  }

  /** What a mechanism's `create` writes, and the runtime id it returns. */
  function RuntimeEffect(d: Disk, setting: Setting, input: CreateInput, policy: SandboxPolicy): Effect<string> {
    match policy.mechanism
    case Some(Mac) =>
      if setting.platform != MacOs then Effect([], Failure(MechanismFailed))
      else Effect(MacCreateWrites(d, setting, NameOf(input), policy, input.workdir),
                  Success(MacRuntimeId(setting.root, NameOf(input))))
    case Some(Podman) =>
      (match input.container
       case None => Effect([], Failure(MechanismFailed))
       case Some(id) => Effect([], Success(if id == "" then ContainerName(NameOf(input)) else id)))
    case _ => Effect([], Failure(MechanismFailed))
  }

  function NewRecord(setting: Setting, input: CreateInput, policy: SandboxPolicy, runtimeId: string): Record {
    Record(
      input.uuid,
      NameOf(input),
      if policy.mechanism.Some? then policy.mechanism.value else Auto,
      runtimeId,
      setting.yaml.ContentHash(policy),
      input.workdir,
      input.now,
      input.proxyPort,
      Some(setting.root + "/logs/" + NameOf(input) + ".log"),
      false)
  }

  function CreateEffect(d: Disk, setting: Setting, input: CreateInput): Effect<()> {
    match Prepared(setting, input)
    case Failure(e) => Effect([], Failure(e))
    case Success(policy) =>
      var runtime := RuntimeEffect(d, setting, input, policy);
      match runtime.result
      case Failure(e) => Effect(runtime.writes, Failure(e))
      case Success(runtimeId) =>
        var saved := SavedPolicy(After(d, runtime.writes), setting.yaml, NameOf(input), policy);
        var inserted := InsertEffect(saved, NewRecord(setting, input, policy, runtimeId), input.uuid);
        Effect(runtime.writes + [saved] + inserted.writes,
               if inserted.result.Failure? then Failure(inserted.result.error) else Success(()))
  }

  method CmdCreate(dir: ConfigDir, setting: Setting, input: CreateInput) returns (r: Result<(), Error>)
    modifies dir
    ensures var effect := CreateEffect(old(dir.View()), setting, input);
            && r == effect.result
            && dir.log == old(dir.log) + effect.writes
            && dir.View() == After(old(dir.View()), effect.writes)
  {
    hide Prepared, RuntimeEffect, InsertEffect, NewRecord;
    var policy := Prepare(setting, input);
    if policy.Failure? {
      return Failure(policy.error);
    }
    var runtime := CreateRuntime(dir, setting, input, policy.value);
    if runtime.Failure? {
      return Failure(runtime.error);
    }
    var rec := NewRecord(setting, input, policy.value, runtime.value);
    SavePolicy(dir, setting.yaml, NameOf(input), policy.value);
    var inserted := Insert(dir, rec, input.uuid);
    if inserted.Failure? {
      return Failure(inserted.error);
    }
    return Success(());
  }

  method Prepare(setting: Setting, input: CreateInput) returns (r: Result<SandboxPolicy, Error>)
    ensures r == Prepared(setting, input)
  {
    hide CommandPolicy, Complaint;
    var loaded := LoadCommandPolicy(setting.yaml, input);
    if loaded.Failure? {
      return Failure(PolicyRefused(loaded.error));
    }
    var policy := loaded.value;
    var kind := ResolveMechanism(if policy.mechanism.Some? then policy.mechanism.value else Auto, setting.platform);
    policy := policy.(mechanism := Some(kind));
    var refused := Preflight(setting, policy);
    if refused.Some? {
      return Failure(PolicyRefused(refused.value));
    }
    if !input.secretsOk {
      return Failure(SecretRefused);
    }
    if policy.network.mode == Allowlist && !input.proxyStarts {
      return Failure(ProxyFailed);
    }
    return Success(policy);
  }

  method CreateRuntime(dir: ConfigDir, setting: Setting, input: CreateInput, policy: SandboxPolicy)
    returns (r: Result<string, Error>)
    modifies dir
    ensures var effect := RuntimeEffect(old(dir.View()), setting, input, policy);
            && r == effect.result
            && dir.log == old(dir.log) + effect.writes
            && dir.View() == After(old(dir.View()), effect.writes)
  {
    hide MacCreateWrites;
    match policy.mechanism {
      case Some(Mac) =>
        if setting.platform != MacOs {
          return Failure(MechanismFailed);
        }
        var runtimeId := MacCreate(dir, setting, NameOf(input), policy, input.workdir);
        return Success(runtimeId);
      case Some(Podman) =>
        if input.container.None? {
          return Failure(MechanismFailed);
        }
        return Success(if input.container.value == "" then ContainerName(NameOf(input)) else input.container.value);
      case _ =>
        return Failure(MechanismFailed);
    }
  }

  // ---------- exec, policy, rm ----------

  function ExecEffect(d: Disk, key: Option<string>, mechanismOk: bool): Effect<()> {
    match GetOrLastResult(d, key)
    case Failure(e) => Effect([], Failure(e))
    case Success(rec) =>
      var touched := TouchEffect(d, rec.name);
      Effect(touched.writes,
             if touched.result.Success? && !mechanismOk then Failure(MechanismFailed) else touched.result)
  }

  method CmdExec(dir: ConfigDir, key: Option<string>, mechanismOk: bool) returns (r: Result<(), Error>)
    modifies dir
    ensures var effect := ExecEffect(old(dir.View()), key, mechanismOk);
            && r == effect.result
            && dir.log == old(dir.log) + effect.writes
            && dir.View() == After(old(dir.View()), effect.writes)
  {
    var rec := GetOrLastUsed(dir, key);
    if rec.Failure? {
      return Failure(rec.error);
    }
    r := TouchLastUsed(dir, rec.value.name);
    if r.Success? && !mechanismOk {
      r := Failure(MechanismFailed);
    }
  }

  function PolicyGetResult(d: Disk, yaml: Yaml, key: Option<string>): Result<SandboxPolicy, Error> {
    match GetOrLastResult(d, key)
    case Failure(e) => Failure(e)
    case Success(rec) => LoadedPolicy(d, yaml, rec.name)
  }

  method CmdPolicyGet(dir: ConfigDir, yaml: Yaml, key: Option<string>) returns (r: Result<SandboxPolicy, Error>)
    ensures r == PolicyGetResult(dir.View(), yaml, key)
  {
    var rec := GetOrLastUsed(dir, key);
    if rec.Failure? {
      return Failure(rec.error);
    }
    r := LoadPolicy(dir, yaml, rec.value.name);
  }

  function PolicySetEffect(d: Disk, setting: Setting, key: Option<string>, file: Option<string>): Effect<()> {
    match GetOrLastResult(d, key)
    case Failure(e) => Effect([], Failure(e))
    case Success(rec) =>
      match PolicyFromFile(setting.yaml, file)
      case Failure(e) => Effect([], Failure(PolicyRefused(e)))
      case Success(policy) =>
        match Preflight(setting, policy)
        case Some(e) => Effect([], Failure(PolicyRefused(e)))
        case None => UpdateEffect(d, setting.yaml, rec.name, policy)
  }

  method CmdPolicySet(dir: ConfigDir, setting: Setting, key: Option<string>, file: Option<string>)
    returns (r: Result<(), Error>)
    modifies dir
    ensures var effect := PolicySetEffect(old(dir.View()), setting, key, file);
            && r == effect.result
            && dir.log == old(dir.log) + effect.writes
            && dir.View() == After(old(dir.View()), effect.writes)
  {
    hide UpdateEffect;
    var rec := GetOrLastUsed(dir, key);
    if rec.Failure? {
      return Failure(rec.error);
    }
    var policy := PolicyFromFile(setting.yaml, file);
    if policy.Failure? {
      return Failure(PolicyRefused(policy.error));
    }
    var refused := Preflight(setting, policy.value);
    if refused.Some? {
      return Failure(PolicyRefused(refused.value));
    }
    r := UpdatePolicy(dir, setting.yaml, rec.value.name, policy.value);
  }

  /** A mechanism's `remove`: only the mac one touches the directory, and it never fails. */
  function UnmakeEffect(d: Disk, rec: Record, mechanismOk: bool): Effect<()> {
    match rec.mechanism
    case Mac => Effect(MacRemoveWrites(d, rec.runtimeId), Success(()))
    case Podman => Effect([], if mechanismOk then Success(()) else Failure(MechanismFailed))
    case Krun => Effect([], Failure(MechanismFailed))
    case Auto => Effect([], if mechanismOk then Success(()) else Failure(MechanismFailed))
  }

  function RmEffect(d: Disk, target: string, mechanismOk: bool): Effect<()> {
    var removed := RemoveEffect(d, target);
    match removed.result
    case Failure(e) => Effect(removed.writes, Failure(e))
    case Success(rec) =>
      var unmade := UnmakeEffect(After(d, removed.writes), rec, mechanismOk);
      Effect(removed.writes + unmade.writes, unmade.result)
  }

  method CmdRm(dir: ConfigDir, target: string, mechanismOk: bool) returns (r: Result<(), Error>)
    modifies dir
    ensures var effect := RmEffect(old(dir.View()), target, mechanismOk);
            && r == effect.result
            && dir.log == old(dir.log) + effect.writes
            && dir.View() == After(old(dir.View()), effect.writes)
  {
    hide RemoveEffect, MacRemoveWrites;
    var rec := Remove(dir, target);
    if rec.Failure? {
      return Failure(rec.error);
    }
    match rec.value.mechanism {
      case Mac =>
        MacRemove(dir, rec.value.runtimeId);
        r := Success(());
      case Podman => r := if mechanismOk then Success(()) else Failure(MechanismFailed);
      case Krun => r := Failure(MechanismFailed);
      case Auto => r := if mechanismOk then Success(()) else Failure(MechanismFailed);
    }
  }

  // ---------- One invocation of the program ----------

  function BodyEffect(d: Disk, setting: Setting, c: Command): Effect<()> {
    match c
    case Create(input) => CreateEffect(d, setting, input)
    case Exec(key, ok) => ExecEffect(d, key, ok)
    case PolicyGet(key) =>
      var r := PolicyGetResult(d, setting.yaml, key);
      Effect([], if r.Failure? then Failure(r.error) else Success(()))
    case PolicySet(key, file) => PolicySetEffect(d, setting, key, file)
    case Rm(target, ok) => RmEffect(d, target, ok)
  }

  function CommandEffect(d: Disk, setting: Setting, c: Command): Effect<()> {
    var init := OpenWrites(d);
    var body := BodyEffect(After(d, init), setting, c);
    Effect(init + body.writes, body.result)
  }

  method RunCommand(dir: ConfigDir, setting: Setting, c: Command) returns (r: Result<(), Error>)
    modifies dir
    ensures var effect := CommandEffect(old(dir.View()), setting, c);
            && r == effect.result
            && dir.log == old(dir.log) + effect.writes
            && dir.View() == After(old(dir.View()), effect.writes)
  {
    hide CreateEffect, ExecEffect, PolicySetEffect, RmEffect, PolicyGetResult;
    Open(dir);
    match c {
      case Create(input) => r := CmdCreate(dir, setting, input);
      case Exec(key, ok) => r := CmdExec(dir, key, ok);
      case PolicyGet(key) =>
        var policy := CmdPolicyGet(dir, setting.yaml, key);
        r := if policy.Failure? then Failure(policy.error) else Success(());
      case PolicySet(key, file) => r := CmdPolicySet(dir, setting, key, file);
      case Rm(target, ok) => r := CmdRm(dir, target, ok);
    }
  }
}
