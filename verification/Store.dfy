/**
 The sandbox store. Every mutator loads the index, changes the copy and writes it back.
 An operation is specified by its effect: the disks after each of its writes, and its result.
 */
module Store {
  import opened Wrappers
  import opened Policy
  import opened State
  import opened ConfigDir

  datatype Error =
    | Io
    | NotFound
    | AlreadyExists
    | PolicyRefused(policy: PolicyError)
    | SecretRefused
    | ProxyFailed
    | MechanismFailed

  /** The disk after each write, oldest first, and the result. */
  datatype Effect<+T> = Effect(writes: seq<Disk>, result: Result<T, Error>)

  // ---------- What each operation does to a disk ----------

  function OpenWrites(d: Disk): seq<Disk> {
    if d.index.None? then [d.(index := Some(EMPTY_STATE))] else []
  }

  function GetOrLastResult(d: Disk, key: Option<string>): Result<Record, Error> {
    if d.index.None? then Failure(Io) else
    match GetOrLast(d.index.value, key)
    case None => Failure(NotFound)
    case Some(r) => Success(r)
  }

  function Identified(r: Record, uuid: string): Record {
    if r.id == "" then r.(id := uuid) else r
  }

  function InsertEffect(d: Disk, r: Record, uuid: string): Effect<Record> {
    if d.index.None? then Effect([], Failure(Io)) else
    match InsertInto(d.index.value, Identified(r, uuid))
    case None => Effect([], Failure(AlreadyExists))
    case Some(s) => Effect([d.(index := Some(s))], Success(Identified(r, uuid)))
  }

  function SavedPolicy(d: Disk, yaml: Yaml, name: string, policy: SandboxPolicy): Disk {
    d.(policies := d.policies[name := yaml.render(policy)])
  }

  function LoadedPolicy(d: Disk, yaml: Yaml, name: string): Result<SandboxPolicy, Error> {
    if name !in d.policies then Failure(Io) else
    match yaml.Load(d.policies[name])
    case Failure(e) => Failure(PolicyRefused(e))
    case Success(p) => Success(p)
  }

  function UpdateEffect(d: Disk, yaml: Yaml, name: string, policy: SandboxPolicy): Effect<()> {
    var saved := SavedPolicy(d, yaml, name, policy);
    if d.index.None? then Effect([saved], Failure(Io)) else
    match WithHash(d.index.value, name, yaml.ContentHash(policy))
    case None => Effect([saved], Failure(NotFound))
    case Some(s) => Effect([saved, saved.(index := Some(s))], Success(()))
  }

  function RemoveEffect(d: Disk, key: string): Effect<Record> {
    if d.index.None? then Effect([], Failure(Io)) else
    match RemoveFrom(d.index.value, key)
    case None => Effect([], Failure(NotFound))
    case Some((s, gone)) =>
      var indexed := d.(index := Some(s));
      Effect([indexed, indexed.(policies := d.policies - {gone.name})], Success(gone))
  }

  function TouchEffect(d: Disk, name: string): Effect<()> {
    if d.index.None? then Effect([], Failure(Io))
    else Effect([d.(index := Some(Touched(d.index.value, name)))], Success(()))
  }

  // ---------- The operations ----------

  method Open(dir: ConfigDir)
    modifies dir
    ensures dir.log == old(dir.log) + OpenWrites(old(dir.View()))
    ensures dir.View() == After(old(dir.View()), OpenWrites(old(dir.View())))
    ensures dir.index.Some?
  {
    if dir.index.None? {
      dir.WriteIndex(EMPTY_STATE);
    }
  }

  method LoadIndex(dir: ConfigDir) returns (r: Result<State, Error>)
    ensures r == if dir.index.None? then Failure(Io) else Success(dir.index.value)
  {
    r := if dir.index.None? then Failure(Io) else Success(dir.index.value);
  }

  method Get(dir: ConfigDir, key: string) returns (r: Result<Record, Error>)
    ensures r == GetOrLastResult(dir.View(), Some(key))
  {
    var state := LoadIndex(dir);
    if state.Failure? {
      return Failure(state.error);
    }
    var found := Find(state.value.sandboxes, key);
    return if found.Some? then Success(found.value) else Failure(NotFound);
  }

  method GetOrLastUsed(dir: ConfigDir, key: Option<string>) returns (r: Result<Record, Error>)
    ensures r == GetOrLastResult(dir.View(), key)
  {
    var loaded := LoadIndex(dir);
    if loaded.Failure? {
      return Failure(loaded.error);
    }
    var state := loaded.value;
    if key.Some? {
      var found := Find(state.sandboxes, key.value);
      return if found.Some? then Success(found.value) else Failure(NotFound);
    }
    if state.lastUsed.Some? {
      var found := Find(state.sandboxes, state.lastUsed.value);
      if found.Some? {
        return Success(found.value);
      }
    }
    if state.sandboxes == [] {
      return Failure(NotFound);
    }
    return Success(state.sandboxes[|state.sandboxes| - 1]);
  }

  method Insert(dir: ConfigDir, record: Record, uuid: string) returns (r: Result<Record, Error>)
    modifies dir
    ensures var effect := InsertEffect(old(dir.View()), record, uuid);
            && r == effect.result
            && dir.log == old(dir.log) + effect.writes
            && dir.View() == After(old(dir.View()), effect.writes)
  {
    var loaded := LoadIndex(dir);
    if loaded.Failure? {
      return Failure(loaded.error);
    }
    var state := loaded.value;
    if HasName(state.sandboxes, record.name) {
      return Failure(AlreadyExists);
    }
    var stored := record;
    if stored.id == "" {
      stored := stored.(id := uuid);
    }
    state := state.(lastUsed := Some(stored.name));
    state := state.(sandboxes := state.sandboxes + [stored]);
    dir.WriteIndex(state);
    return Success(stored);
  }

  method SavePolicy(dir: ConfigDir, yaml: Yaml, name: string, policy: SandboxPolicy)
    modifies dir
    ensures dir.View() == SavedPolicy(old(dir.View()), yaml, name, policy)
    ensures dir.log == old(dir.log) + [dir.View()]
  {
    dir.WritePolicy(name, yaml.render(policy));
  }

  method LoadPolicy(dir: ConfigDir, yaml: Yaml, name: string) returns (r: Result<SandboxPolicy, Error>)
    ensures r == LoadedPolicy(dir.View(), yaml, name)
  {
    if name !in dir.policies {
      return Failure(Io);
    }
    var loaded := yaml.Load(dir.policies[name]);
    return if loaded.Failure? then Failure(PolicyRefused(loaded.error)) else Success(loaded.value);
  }

  method UpdatePolicy(dir: ConfigDir, yaml: Yaml, name: string, policy: SandboxPolicy) returns (r: Result<(), Error>)
    modifies dir
    ensures var effect := UpdateEffect(old(dir.View()), yaml, name, policy);
            && r == effect.result
            && dir.log == old(dir.log) + effect.writes
            && dir.View() == After(old(dir.View()), effect.writes)
  {
    var hash := yaml.ContentHash(policy);
    SavePolicy(dir, yaml, name, policy);
    var loaded := LoadIndex(dir);
    if loaded.Failure? {
      return Failure(loaded.error);
    }
    var state := loaded.value;
    var found := NamePosition(state.sandboxes, name);
    if found.None? {
      return Failure(NotFound);
    }
    var n := found.value;
    state := state.(sandboxes := state.sandboxes[n := state.sandboxes[n].(policyHash := hash)]);
    state := state.(lastUsed := Some(name));
    dir.WriteIndex(state);
    return Success(());
  }

  method Remove(dir: ConfigDir, key: string) returns (r: Result<Record, Error>)
    modifies dir
    ensures var effect := RemoveEffect(old(dir.View()), key);
            && r == effect.result
            && dir.log == old(dir.log) + effect.writes
            && dir.View() == After(old(dir.View()), effect.writes)
  {
    var loaded := LoadIndex(dir);
    if loaded.Failure? {
      return Failure(loaded.error);
    }
    var state := loaded.value;
    var found := Position(state.sandboxes, key);
    if found.None? {
      return Failure(NotFound);
    }
    var n := found.value;
    var rec := state.sandboxes[n];
    state := state.(sandboxes := state.sandboxes[..n] + state.sandboxes[n + 1..]);
    if state.lastUsed == Some(rec.name) {
      state := state.(lastUsed := LastName(state.sandboxes));
    }
    dir.WriteIndex(state);
    dir.RemovePolicy(rec.name);
    return Success(rec);
  }

  method TouchLastUsed(dir: ConfigDir, name: string) returns (r: Result<(), Error>)
    modifies dir
    ensures var effect := TouchEffect(old(dir.View()), name);
            && r == effect.result
            && dir.log == old(dir.log) + effect.writes
            && dir.View() == After(old(dir.View()), effect.writes)
  {
    var loaded := LoadIndex(dir);
    if loaded.Failure? {
      return Failure(loaded.error);
    }
    var state := loaded.value;
    state := state.(lastUsed := Some(name));
    dir.WriteIndex(state);
    return Success(());
  }
}
