/** The sandbox policy, its validation, and the resolver of its file-system lists. */
module Policy {
  import opened Wrappers
  import opened Paths
  import Size

  datatype MechanismKind = Podman | Mac | Krun | Auto

  datatype NetworkMode = NoNetwork | Allowlist | Unrestricted

  type Port = n: nat | n < 0x1_0000

  datatype Endpoint = Endpoint(host: string, port: Port)

  datatype SecretRef = SecretRef(env: string, from: string)

  datatype Filesystem = Filesystem(workdir: bool, readOnly: seq<string>, readWrite: seq<string>)

  datatype Network = Network(mode: NetworkMode, endpoints: seq<Endpoint>)

  /** The exponent and fraction bits of a 64-bit float that is a number; the largest is infinity. */
  type Magnitude = n: nat | n <= 0x7FF0_0000_0000_0000

  /** A 64-bit float. There is one not-a-number, as printing and parsing know only one. */
  datatype Float = NotANumber | Number(negative: bool, magnitude: Magnitude)

  /** Comparison `x <= 0.0`: false for not-a-number, true for both zeros. */
  predicate AtMostZero(x: Float) {
    x.Number? && (x.negative || x.magnitude == 0)
  }

  const TWO := Number(false, 0x4000_0000_0000_0000)

  datatype Resources = Resources(cpus: Float, memory: string)

  datatype SandboxPolicy = SandboxPolicy(
    version: nat,
    filesystem: Filesystem,
    network: Network,
    resources: Resources,
    mechanism: Option<MechanismKind>,
    secrets: seq<SecretRef>)

  const DEFAULT_POLICY := SandboxPolicy(
    1,
    Filesystem(true, [], ["/workspace", "/tmp"]),
    Network(NoNetwork, []),
    Resources(TWO, "2G"),
    None,
    [])

  datatype PolicyError =
    | BadVersion
    | BadCpus
    | BadMemory(size: Size.SizeError)
    | NoEndpoints
    | EmptySecret
    | Unreadable
    | OverCapacity

  // ---------- Validation ----------

  predicate SecretOk(s: SecretRef) {
    s.env != "" && s.from != ""
  }

  /** The first complaint about a policy, in the order the checks are made. */
  function Complaint(p: SandboxPolicy): Option<PolicyError> {
    var memory := Size.ParseSize(p.resources.memory);
    if p.version != 1 then Some(BadVersion)
    else if AtMostZero(p.resources.cpus) then Some(BadCpus)
    else if memory.Failure? then Some(BadMemory(memory.error))
    else if p.network.mode == Allowlist && p.network.endpoints == [] then Some(NoEndpoints)
    else if exists i :: 0 <= i < |p.secrets| && !SecretOk(p.secrets[i]) then Some(EmptySecret)
    else None
  }

  predicate Valid(p: SandboxPolicy) {
    Complaint(p).None?
  }

  method Validate(p: SandboxPolicy) returns (complaint: Option<PolicyError>)
    ensures complaint == Complaint(p)
  {
    if p.version != 1 {
      return Some(BadVersion);
    }
    if AtMostZero(p.resources.cpus) {
      return Some(BadCpus);
    }
    var memory := Size.ParseSize(p.resources.memory);
    if memory.Failure? {
      return Some(BadMemory(memory.error));
    }
    if p.network.mode == Allowlist && p.network.endpoints == [] {
      return Some(NoEndpoints);
    }
    for i := 0 to |p.secrets|
      invariant forall j :: 0 <= j < i ==> SecretOk(p.secrets[j])
    {
      if p.secrets[i].env == "" || p.secrets[i].from == "" {
        return Some(EmptySecret);
      }
    }
    return None;
  }

  /**
   Validity in the terms of the policy file: the memory text denotes a 64-bit size, and the
   CPU count is positive or, which the comparison lets through, not a number.
   */
  lemma ValidMeans(p: SandboxPolicy)
    ensures Valid(p) <==>
            && p.version == 1
            && (p.resources.cpus == NotANumber || (!p.resources.cpus.negative && p.resources.cpus.magnitude > 0))
            && Size.DenotesU64(p.resources.memory)
            && (p.network.mode == Allowlist ==> p.network.endpoints != [])
            && forall i :: 0 <= i < |p.secrets| ==> p.secrets[i].env != "" && p.secrets[i].from != ""
  {
    hide Size.ParseSize, Size.DenotesU64;
    Size.ParseSizeSucceeds(p.resources.memory);
    assert forall i :: 0 <= i < |p.secrets| ==>
      (SecretOk(p.secrets[i]) <==> p.secrets[i].env != "" && p.secrets[i].from != "");
  }

  // ---------- Policy files ----------

  /**
   What the program uses and this model does not define: YAML printing and parsing, and
   the SHA-256 digest in hexadecimal.
   */
  datatype Yaml = Yaml(
    render: SandboxPolicy -> string,
    parse: string -> Option<SandboxPolicy>,
    digest: string -> string)
  {
    /** Parsing what was printed gives the policy back. */
    ghost predicate RoundTrip() {
      forall p :: parse(render(p)) == Some(p)
    }

    /** `SandboxPolicy::parse_yaml`: parse, then validate. */
    function Load(text: string): Result<SandboxPolicy, PolicyError> {
      match parse(text)
      case None => Failure(Unreadable)
      case Some(p) =>
        match Complaint(p)
        case Some(e) => Failure(e)
        case None => Success(p)
    }

    function ContentHash(p: SandboxPolicy): string {
      digest(render(p))
    }
  }

  lemma LoadPrinted(yaml: Yaml, p: SandboxPolicy)
    requires yaml.RoundTrip()
    ensures yaml.Load(yaml.render(p)) ==
            match Complaint(p) case Some(e) => Failure(e) case None => Success(p)
  {
    assert yaml.parse(yaml.render(p)) == Some(p);
  }

  // ---------- Host paths ----------

  function ResolveAll(ps: seq<string>, workdir: string): (r: seq<string>)
    ensures |r| == |ps|
    ensures forall i :: 0 <= i < |ps| ==> r[i] == Join(workdir, ps[i])
  {
    seq(|ps|, i requires 0 <= i < |ps| => Join(workdir, ps[i]))
  }

  predicate Lists(paths: seq<string>, p: string) {
    exists i :: 0 <= i < |paths| && SamePath(paths[i], p)
  }

  /** The read-only and read-write host paths of a policy, the workdir added once. */
  method ResolveHostPaths(fs: Filesystem, workdir: string) returns (ro: seq<string>, rw: seq<string>)
    ensures ro == ResolveAll(fs.readOnly, workdir)
    ensures rw == HostWritePaths(fs, workdir)
  {
    ro := ResolveAll(fs.readOnly, workdir);
    rw := ResolveAll(fs.readWrite, workdir);
    if fs.workdir {
      if !Lists(rw, workdir) {
        rw := rw + [workdir];
      }
    }
  }

  function HostWritePaths(fs: Filesystem, workdir: string): seq<string> {
    var rw := ResolveAll(fs.readWrite, workdir);
    if fs.workdir && !Lists(rw, workdir) then rw + [workdir] else rw
  }

  /** Some listed path is `x` or above it. */
  predicate AnyAbove(paths: seq<string>, x: seq<string>) {
    exists i :: 0 <= i < |paths| && Under(x, paths[i])
  }

  /** Whether or not the workdir had to be added, exactly it and the listed paths are covered. */
  lemma HostWritePathsCover(fs: Filesystem, workdir: string, x: seq<string>)
    ensures AnyAbove(HostWritePaths(fs, workdir), x) <==>
            || (fs.workdir && Under(x, workdir))
            || AnyAbove(ResolveAll(fs.readWrite, workdir), x)
  {
    var rw := ResolveAll(fs.readWrite, workdir);
    var all := HostWritePaths(fs, workdir);
    forall i | 0 <= i < |rw| && Under(x, rw[i])
      ensures AnyAbove(all, x)
    {
      assert all[i] == rw[i];
    }
    if fs.workdir && Under(x, workdir) {
      if Lists(rw, workdir) {
        var i :| 0 <= i < |rw| && SamePath(rw[i], workdir);
        assert Under(x, all[i]);
      } else {
        assert all[|rw|] == workdir;
      }
    }
  }
}
