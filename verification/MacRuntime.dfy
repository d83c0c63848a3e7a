/** The mac mechanism's instance directories: create, launch and remove by runtime id. */
module MacRuntime {
  import opened Wrappers
  import opened Policy
  import opened Seatbelt
  import opened ConfigDir

  /** What the program takes from its surroundings. */
  datatype Setting = Setting(
    yaml: Yaml,
    canonical: string -> string,
    fits: SandboxPolicy -> bool,
    platform: Platform,
    root: string)

  datatype Platform = MacOs | Linux | OtherOs

  /** A sandbox name that is one path component. */
  predicate SingleComponent(name: string) {
    name != "" && '/' !in name && name != "." && name != ".."
  }

  function InstanceDir(root: string, name: string): string {
    root + "/mac/instances/" + name
  }

  function ProfilePath(root: string, name: string): string {
    InstanceDir(root, name) + "/profile.sb"
  }

  function MacRuntimeId(root: string, name: string): string {
    "mac:" + ProfilePath(root, name)
  }

  /** The number of characters after the last slash. */
  function TailLength(s: string): (n: nat)
    ensures n <= |s|
    ensures n < |s| ==> s[|s| - n - 1] == '/'
  {
    if s == "" || s[|s| - 1] == '/' then 0 else 1 + TailLength(s[..|s| - 1])
  }

  /** `Path::parent`, for a path without trailing or doubled separators. */
  function Parent(path: string): Option<string> {
    var n := TailLength(path);
    if path == "" then None
    else if n == |path| then Some("")
    else Some(path[..|path| - n - 1])
  }

  /** The profile path in a runtime id; None when it is not one of this mechanism's. */
  function ProfileOf(runtimeId: string): Option<string> {
    if "mac:" <= runtimeId then Some(runtimeId[4..]) else None
  }

  /** The instance directory a runtime id names. */
  function DirOf(runtimeId: string): Option<string> {
    match ProfileOf(runtimeId)
    case None => None
    case Some(path) => Parent(path)
  }

  // ---------- Create ----------

  function Complete(setting: Setting, policy: SandboxPolicy, workdir: string): Instance {
    Instance(Some(CompiledProfile(policy, setting.canonical(workdir))),
             Some(workdir),
             Some(setting.yaml.render(policy)))
  }

  /** The directory is made, then profile, workdir and policy are written, each over what was there. */
  function MacCreateWrites(d: Disk, setting: Setting, name: string, policy: SandboxPolicy, workdir: string): seq<Disk> {
    var dir := InstanceDir(setting.root, name);
    var i0 := if dir in d.instances then d.instances[dir] else Instance(None, None, None);
    var i1 := i0.(profile := Some(CompiledProfile(policy, setting.canonical(workdir))));
    var i2 := i1.(workdir := Some(workdir));
    [d.(instances := d.instances[dir := i0]),
     d.(instances := d.instances[dir := i1]),
     d.(instances := d.instances[dir := i2]),
     d.(instances := d.instances[dir := Complete(setting, policy, workdir)])]
  }

  method MacCreate(dir: ConfigDir, setting: Setting, name: string, policy: SandboxPolicy, workdir: string)
    returns (runtimeId: string)
    modifies dir
    ensures runtimeId == MacRuntimeId(setting.root, name)
    ensures dir.log == old(dir.log) + MacCreateWrites(old(dir.View()), setting, name, policy, workdir)
    ensures dir.View() == After(old(dir.View()), MacCreateWrites(old(dir.View()), setting, name, policy, workdir))
  {
    hide CompiledProfile;
    var profile := GenerateSeatbeltProfile(policy, workdir, setting.canonical);
    var path := InstanceDir(setting.root, name);
    var i0 := if path in dir.instances then dir.instances[path] else Instance(None, None, None);
    dir.WriteInstance(path, i0);
    var i1 := i0.(profile := Some(profile));
    dir.WriteInstance(path, i1);
    Overwritten(old(dir.instances), path, i0, i1);
    var i2 := i1.(workdir := Some(workdir));
    dir.WriteInstance(path, i2);
    Overwritten(old(dir.instances), path, i1, i2);
    var i3 := i2.(policy := Some(setting.yaml.render(policy)));
    dir.WriteInstance(path, i3);
    Overwritten(old(dir.instances), path, i2, i3);
    return "mac:" + (path + "/profile.sb");
  }

  lemma Overwritten(m: map<string, Instance>, k: string, a: Instance, b: Instance)
    ensures m[k := a][k := b] == m[k := b]
  {
  }

  // ---------- Launch ----------

  /** What `exec` starts a command under. */
  datatype Launch = Launch(profile: Option<Profile>, policy: SandboxPolicy, workdir: string)

  function FileIn(d: Disk, dir: string): Instance {
    if dir in d.instances then d.instances[dir] else Instance(None, None, None)
  }

  function LaunchOf(d: Disk, yaml: Yaml, runtimeId: string): Option<Launch> {
    match DirOf(runtimeId)
    case None => None
    case Some(dir) =>
      var files := FileIn(d, dir);
      var stored := if files.policy.Some? then yaml.parse(files.policy.value) else None;
      Some(Launch(
        files.profile,
        if stored.Some? then stored.value else DEFAULT_POLICY,
        if files.workdir.Some? then files.workdir.value else "."))
  }

  // ---------- Remove ----------

  function MacRemoveWrites(d: Disk, runtimeId: string): seq<Disk> {
    match DirOf(runtimeId)
    case None => []
    case Some(dir) => [d.(instances := WithoutTree(d.instances, dir))]
  }

  method MacRemove(dir: ConfigDir, runtimeId: string)
    modifies dir
    ensures dir.log == old(dir.log) + MacRemoveWrites(old(dir.View()), runtimeId)
    ensures dir.View() == After(old(dir.View()), MacRemoveWrites(old(dir.View()), runtimeId))
  {
    var profile := ProfileOf(runtimeId);
    if profile.Some? {
      var parent := Parent(profile.value);
      if parent.Some? {
        dir.RemoveInstanceTree(parent.value);
      }
    }
  }

  // ---------- Runtime ids lead back to their directory, and to no other ----------

  lemma {:induction false} TailLengthOf(head: string, tail: string)
    requires '/' !in tail
    ensures TailLength(head + "/" + tail) == |tail|
  {
    var s := head + "/" + tail;
    if tail == "" {
      assert s[|s| - 1] == '/';
    } else {
      var last := |tail| - 1;
      assert tail[last] in tail;
      assert s[|s| - 1] == tail[last];
      assert s[..|s| - 1] == head + "/" + tail[..last];
      TailLengthOf(head, tail[..last]);
    }
  }

  lemma DirOfCreated(root: string, name: string)
    ensures DirOf(MacRuntimeId(root, name)) == Some(InstanceDir(root, name))
  {
    var dir := InstanceDir(root, name);
    var path := ProfilePath(root, name);
    assert path == dir + "/" + "profile.sb";
    TailLengthOf(dir, "profile.sb");
    assert path[..|path| - 10 - 1] == dir;
    assert MacRuntimeId(root, name)[4..] == path;
  }

  lemma OtherDirsSurvive(root: string, name: string, other: string)
    requires SingleComponent(name) && SingleComponent(other)
    ensures Within(InstanceDir(root, other), InstanceDir(root, name)) <==> other == name
  {
    var base := root + "/mac/instances/";
    assert (base + other)[|base|..] == other && (base + name)[|base|..] == name;
    if InstanceDir(root, name) + "/" <= InstanceDir(root, other) {
      BelowHasSlash(base, name, other);
    }
  }

  lemma BelowHasSlash(base: string, name: string, other: string)
    requires base + name + "/" <= base + other
    ensures '/' in other
  {
    assert (base + other)[|base + name|] == (base + name + "/")[|base + name|] == '/';
    assert other[|name|] == '/';
  }
}
