/**
 The seatbelt profile compiler: a policy becomes a list of allow and deny rules. The rules
 get an evaluator, the policy gets a direct meaning, and the two are proved to agree.
 */
module Seatbelt {
  import opened Paths
  import opened Policy

  // ---------- Rules ----------

  datatype Operation =
    | AnyOperation
    | ProcessAny
    | SysctlAny
    | MachAny
    | IpcAny
    | Signal
    | FileReadMetadata
    | FileReadAny
    | FileWriteAny
    | FileIoctl
    | NetworkAny
    | NetworkBind

  datatype Filter =
    | Anything
    | Subpath(root: string)
    | Literal(path: string)
    | RemoteLocalhost
    | LocalLocalhost

  datatype Rule = Rule(allow: bool, op: Operation, filter: Filter)

  type Profile = seq<Rule>

  const DENY_DEFAULT := Rule(false, AnyOperation, Anything)

  const SYSTEM_READS := [
    "/usr", "/bin", "/sbin", "/System", "/Library", "/private/var/db", "/dev",
    "/private/tmp", "/tmp", "/etc", "/private/etc", "/Applications"]

  const TEMP_WRITES := ["/tmp", "/private/tmp", "/var/folders", "/private/var/folders"]

  const BASE_RULES := [
    Rule(true, ProcessAny, Anything),
    Rule(true, SysctlAny, Anything),
    Rule(true, MachAny, Anything),
    Rule(true, IpcAny, Anything),
    Rule(true, Signal, Anything),
    Rule(true, FileReadMetadata, Anything)]

  function DeviceRules(slash: string, device: string, helper: string): Profile {
    [Rule(true, FileReadAny, Literal(slash)),
     Rule(true, FileIoctl, Literal(device)),
     Rule(true, FileWriteAny, Literal(device)),
     Rule(true, FileWriteAny, Literal(helper))]
  }

  const DEVICE_RULES := DeviceRules("/", "/dev/null", "/dev/dtracehelper")

  function ReadRule(root: string): Rule {
    Rule(true, FileReadAny, Subpath(root))
  }

  function WriteRule(root: string): Rule {
    Rule(true, FileWriteAny, Subpath(root))
  }

  function ReadRules(roots: seq<string>): Profile {
    seq(|roots|, i requires 0 <= i < |roots| => ReadRule(roots[i]))
  }

  function WriteRules(roots: seq<string>): Profile {
    seq(|roots|, i requires 0 <= i < |roots| => WriteRule(roots[i]))
  }

  function ReadWriteRules(roots: seq<string>): Profile {
    if roots == [] then [] else
    var last := |roots| - 1;
    ReadWriteRules(roots[..last]) + [ReadRule(roots[last]), WriteRule(roots[last])]
  }

  function NetworkRules(mode: NetworkMode): Profile {
    match mode
    case NoNetwork => [Rule(false, NetworkAny, Anything)]
    case Allowlist => [Rule(true, NetworkAny, RemoteLocalhost), Rule(true, NetworkBind, LocalLocalhost)]
    case Unrestricted => [Rule(true, NetworkAny, Anything)]
  }

  function FixedRules(): Profile {
    BASE_RULES + ReadRules(SYSTEM_READS) + DEVICE_RULES
  }

  /** The part of a profile that the file-system policy decides. */
  function PolicyRules(fs: Filesystem, workdir: string): Profile {
    (if fs.workdir then [ReadRule(workdir), WriteRule(workdir)] else [])
    + ReadRules(ResolveAll(fs.readOnly, workdir))
    + ReadWriteRules(ResolveAll(fs.readWrite, workdir))
  }

  /** Everything after the leading deny-by-default rule. */
  function AllowRules(policy: SandboxPolicy, workdir: string): Profile {
    FixedRules() + PolicyRules(policy.filesystem, workdir) + WriteRules(TEMP_WRITES)
    + NetworkRules(policy.network.mode)
  }

  function CompiledProfile(policy: SandboxPolicy, workdir: string): Profile {
    [DENY_DEFAULT] + AllowRules(policy, workdir)
  }

  method PushReads(lines: Profile, roots: seq<string>) returns (r: Profile)
    ensures r == lines + ReadRules(roots)
  {
    r := lines;
    for i := 0 to |roots|
      invariant r == lines + ReadRules(roots[..i])
    {
      r := r + [ReadRule(roots[i])];
      assert ReadRules(roots[..i + 1]) == ReadRules(roots[..i]) + [ReadRule(roots[i])];
    }
    assert roots[..|roots|] == roots;
  }

  method PushReadWrites(lines: Profile, paths: seq<string>, workdir: string) returns (r: Profile)
    ensures r == lines + ReadWriteRules(ResolveAll(paths, workdir))
  {
    r := lines;
    ghost var roots := ResolveAll(paths, workdir);
    for i := 0 to |paths|
      invariant r == lines + ReadWriteRules(roots[..i])
    {
      var path := Join(workdir, paths[i]);
      r := r + [ReadRule(path)];
      r := r + [WriteRule(path)];
      assert roots[..i + 1][..i] == roots[..i];
    }
    assert roots[..|roots|] == roots;
  }

  /** The generator: rules are pushed onto a list of lines that starts by denying everything. */
  method GenerateSeatbeltProfile(policy: SandboxPolicy, rawWorkdir: string, canonical: string -> string)
    returns (lines: Profile)
    ensures lines == CompiledProfile(policy, canonical(rawWorkdir))
  {
    var workdir := canonical(rawWorkdir);
    lines := [DENY_DEFAULT] + BASE_RULES;
    lines := PushReads(lines, SYSTEM_READS);
    lines := lines + DEVICE_RULES;
    lines := PushPolicyRules(lines, policy.filesystem, workdir);
    lines := lines + WriteRules(TEMP_WRITES);
    lines := lines + NetworkRules(policy.network.mode);
    Reassociate([DENY_DEFAULT], BASE_RULES, ReadRules(SYSTEM_READS), DEVICE_RULES,
                PolicyRules(policy.filesystem, workdir), WriteRules(TEMP_WRITES), NetworkRules(policy.network.mode));
  }

  method PushPolicyRules(lines: Profile, fs: Filesystem, workdir: string) returns (r: Profile)
    ensures r == lines + PolicyRules(fs, workdir)
  {
    r := lines;
    if fs.workdir {
      r := r + [ReadRule(workdir)];
      r := r + [WriteRule(workdir)];
    }
    ghost var bind := if fs.workdir then [ReadRule(workdir), WriteRule(workdir)] else [];
    assert r == lines + bind;
    ghost var ro := ResolveAll(fs.readOnly, workdir);
    ghost var rw := ResolveAll(fs.readWrite, workdir);
    r := PushReads(r, ResolveAll(fs.readOnly, workdir));
    r := PushReadWrites(r, fs.readWrite, workdir);
    Reassociate3(lines, bind, ReadRules(ro), ReadWriteRules(rw));
  }

  lemma Reassociate3(a: Profile, b: Profile, c: Profile, d: Profile)
    ensures a + b + c + d == a + (b + c + d)
  {
  }

  lemma Reassociate(a: Profile, b: Profile, c: Profile, d: Profile, e: Profile, f: Profile, g: Profile)
    ensures a + b + c + d + e + f + g == a + (b + c + d + e + f + g)
  {
  }

  // ---------- The evaluator ----------

  /** What a sandboxed process may ask for; paths are absolute component lists. */
  datatype Request =
    | ReadData(path: seq<string>)
    | ReadMetadata(path: seq<string>)
    | Write(path: seq<string>)
    | Ioctl(path: seq<string>)
    | Outbound(localhost: bool)
    | Inbound(localhost: bool)
    | Bind(localhost: bool)
    | StartProcess
    | Sysctl
    | Mach
    | Ipc
    | SendSignal

  predicate Covers(op: Operation, req: Request) {
    match op
    case AnyOperation => true
    case ProcessAny => req.StartProcess?
    case SysctlAny => req.Sysctl?
    case MachAny => req.Mach?
    case IpcAny => req.Ipc?
    case Signal => req.SendSignal?
    case FileReadMetadata => req.ReadMetadata?
    case FileReadAny => req.ReadData? || req.ReadMetadata?
    case FileWriteAny => req.Write?
    case FileIoctl => req.Ioctl?
    case NetworkAny => req.Outbound? || req.Inbound? || req.Bind?
    case NetworkBind => req.Bind?
  }

  predicate HasPath(req: Request) {
    req.ReadData? || req.ReadMetadata? || req.Write? || req.Ioctl?
  }

  predicate Selects(filter: Filter, req: Request) {
    match filter
    case Anything => true
    case Subpath(root) => HasPath(req) && Under(req.path, root)
    case Literal(path) => HasPath(req) && req.path == Components(path)
    case RemoteLocalhost => (req.Outbound? || req.Inbound?) && req.localhost
    case LocalLocalhost => req.Bind? && req.localhost
  }

  predicate Matches(rule: Rule, req: Request) {
    Covers(rule.op, req) && Selects(rule.filter, req)
  }

  /** The kernel's reading: the last matching rule decides. */
  predicate LastMatch(rules: Profile, req: Request) {
    if rules == [] then false else
    var last := |rules| - 1;
    if Matches(rules[last], req) then rules[last].allow else LastMatch(rules[..last], req)
  }

  /** The other reading: the first matching rule decides, and nothing matching means no. */
  predicate FirstMatch(rules: Profile, req: Request) {
    if rules == [] then false
    else if Matches(rules[0], req) then rules[0].allow
    else FirstMatch(rules[1..], req)
  }

  predicate AnyAllow(rules: Profile, req: Request) {
    exists i :: 0 <= i < |rules| && rules[i].allow && Matches(rules[i], req)
  }

  /** No request is answered both ways by two rules of the list. */
  predicate Consistent(rules: Profile, req: Request) {
    forall i, j :: 0 <= i < |rules| && 0 <= j < |rules| && Matches(rules[i], req) && Matches(rules[j], req) ==>
      rules[i].allow == rules[j].allow
  }

  lemma {:induction false} LastMatchConsistent(rules: Profile, req: Request)
    requires Consistent(rules, req)
    ensures LastMatch([DENY_DEFAULT] + rules, req) <==> AnyAllow(rules, req)
  {
    var all := [DENY_DEFAULT] + rules;
    if rules == [] {
      assert !LastMatch(all, req);
    } else {
      var last := |rules| - 1;
      assert all[..|all| - 1] == [DENY_DEFAULT] + rules[..last];
      assert all[|all| - 1] == rules[last];
      if Matches(rules[last], req) {
        assert LastMatch(all, req) == rules[last].allow;
      } else {
        LastMatchConsistent(rules[..last], req);
        assert AnyAllow(rules, req) <==> AnyAllow(rules[..last], req) by {
          if AnyAllow(rules, req) {
            var i :| 0 <= i < |rules| && rules[i].allow && Matches(rules[i], req);
            assert rules[..last][i] == rules[i];
          }
        }
      }
    }
  }

  lemma {:induction false} FirstMatchConsistent(rules: Profile, req: Request)
    requires Consistent(rules, req)
    ensures FirstMatch(rules, req) <==> AnyAllow(rules, req)
  {
    if rules != [] && !Matches(rules[0], req) {
      FirstMatchConsistent(rules[1..], req);
      if AnyAllow(rules, req) {
        var i :| 0 <= i < |rules| && rules[i].allow && Matches(rules[i], req);
        assert rules[1..][i - 1] == rules[i];
      }
    }
  }

  // ---------- No generated profile contradicts itself ----------

  lemma {:induction false} ReadWriteRulesAllow(roots: seq<string>)
    ensures forall r :: r in ReadWriteRules(roots) ==>
              r.allow && (r.op == FileReadAny || r.op == FileWriteAny)
  {
    if roots != [] {
      ReadWriteRulesAllow(roots[..|roots| - 1]);
    }
  }

  predicate IsNetwork(op: Operation) {
    op == NetworkAny || op == NetworkBind
  }

  /** The rules other than the network rules allow, and none of them is about the network. */
  predicate Grants(rules: Profile) {
    forall i :: 0 <= i < |rules| ==>
      rules[i].allow && !IsNetwork(rules[i].op) && rules[i].op != AnyOperation
  }

  lemma PolicyRulesGrant(fs: Filesystem, workdir: string)
    ensures Grants(PolicyRules(fs, workdir))
  {
    var rw := ReadWriteRules(ResolveAll(fs.readWrite, workdir));
    ReadWriteRulesAllow(ResolveAll(fs.readWrite, workdir));
    assert Grants(rw) by {
      assert forall i :: 0 <= i < |rw| ==> rw[i] in rw;
    }
  }

  lemma FixedRulesGrant()
    ensures Grants(FixedRules())
  {
    assert Grants(BASE_RULES) && Grants(DEVICE_RULES);
    assert Grants(ReadRules(SYSTEM_READS));
  }

  lemma ProfileConsistent(policy: SandboxPolicy, workdir: string, req: Request)
    ensures Consistent(AllowRules(policy, workdir), req)
  {
    FixedRulesGrant();
    PolicyRulesGrant(policy.filesystem, workdir);
    assert Grants(WriteRules(TEMP_WRITES));
    hide FixedRules, PolicyRules, WriteRules, Selects;
    var files := FixedRules() + PolicyRules(policy.filesystem, workdir) + WriteRules(TEMP_WRITES);
    assert Grants(files);
    GrantsThenNetwork(files, policy.network.mode, req);
  }

  lemma GrantsThenNetwork(files: Profile, mode: NetworkMode, req: Request)
    requires Grants(files)
    ensures Consistent(files + NetworkRules(mode), req)
  {
    hide Selects;
    var network := NetworkRules(mode);
    var all := files + network;
    forall i, j | 0 <= i < |all| && 0 <= j < |all| && Matches(all[i], req) && Matches(all[j], req)
      ensures all[i].allow == all[j].allow
    {
      assert i < |files| ==> all[i] == files[i];
      assert j < |files| ==> all[j] == files[j];
    }
  }

  /** Permuting the rules after the default changes no answer, and either reading gives it. */
  lemma OrderIrrelevant(policy: SandboxPolicy, workdir: string, rules: Profile, req: Request)
    requires multiset(rules) == multiset(AllowRules(policy, workdir))
    ensures LastMatch([DENY_DEFAULT] + rules, req) == LastMatch(CompiledProfile(policy, workdir), req)
    ensures FirstMatch(rules, req) == LastMatch(CompiledProfile(policy, workdir), req)
  {
    var compiled := AllowRules(policy, workdir);
    ProfileConsistent(policy, workdir, req);
    hide AllowRules, Matches;
    SameElements(rules, compiled);
    SameElements(compiled, rules);
    ConsistentTransfers(compiled, rules, req);
    LastMatchConsistent(compiled, req);
    LastMatchConsistent(rules, req);
    FirstMatchConsistent(rules, req);
    SameElementsSameAllow(rules, compiled, req);
    SameElementsSameAllow(compiled, rules, req);
  }

  lemma ConsistentTransfers(a: Profile, b: Profile, req: Request)
    requires Consistent(a, req)
    requires forall r :: r in b ==> r in a
    ensures Consistent(b, req)
  {
    forall i, j | 0 <= i < |b| && 0 <= j < |b| && Matches(b[i], req) && Matches(b[j], req)
      ensures b[i].allow == b[j].allow
    {
      assert b[i] in b && b[j] in b;
      var i' :| 0 <= i' < |a| && a[i'] == b[i];
      var j' :| 0 <= j' < |a| && a[j'] == b[j];
    }
  }

  lemma SameElements(a: Profile, b: Profile)
    requires multiset(a) == multiset(b)
    ensures forall r :: r in a ==> r in b
  {
    forall r | r in a
      ensures r in b
    {
      assert r in multiset(a);
    }
  }

  lemma SameElementsSameAllow(a: Profile, b: Profile, req: Request)
    requires forall r :: r in a ==> r in b
    ensures AnyAllow(a, req) ==> AnyAllow(b, req)
  {
    if AnyAllow(a, req) {
      var i :| 0 <= i < |a| && a[i].allow && Matches(a[i], req);
      assert a[i] in a;
    }
  }

  // ---------- What a policy means ----------

  /** The policy read directly: what it permits in a sandbox whose workdir is `workdir`. */
  predicate Permitted(policy: SandboxPolicy, workdir: string, req: Request) {
    var fs := policy.filesystem;
    match req
    case ReadData(x) =>
      || AnyAbove(SYSTEM_READS, x)
      || x == Components("/")
      || (fs.workdir && Under(x, workdir))
      || AnyAbove(ResolveAll(fs.readOnly, workdir), x)
      || AnyAbove(ResolveAll(fs.readWrite, workdir), x)
    case Write(x) =>
      || x == Components("/dev/null")
      || x == Components("/dev/dtracehelper")
      || AnyAbove(TEMP_WRITES, x)
      || (fs.workdir && Under(x, workdir))
      || AnyAbove(ResolveAll(fs.readWrite, workdir), x)
    case Ioctl(x) => x == Components("/dev/null")
    case Outbound(local) => NetworkPermitted(policy.network.mode, local)
    case Inbound(local) => NetworkPermitted(policy.network.mode, local)
    case Bind(local) => NetworkPermitted(policy.network.mode, local)
    case _ => true
  }

  predicate NetworkPermitted(mode: NetworkMode, local: bool) {
    mode == Unrestricted || (mode == Allowlist && local)
  }

  lemma AnyAllowConcat(a: Profile, b: Profile, req: Request)
    ensures AnyAllow(a + b, req) <==> AnyAllow(a, req) || AnyAllow(b, req)
  {
    var all := a + b;
    forall i | 0 <= i < |all| && all[i].allow && Matches(all[i], req)
      ensures AnyAllow(a, req) || AnyAllow(b, req)
    {
      if i >= |a| {
        assert b[i - |a|] == all[i];
      }
    }
    forall i | 0 <= i < |a| && a[i].allow && Matches(a[i], req)
      ensures AnyAllow(all, req)
    {
      assert all[i] == a[i];
    }
    forall i | 0 <= i < |b| && b[i].allow && Matches(b[i], req)
      ensures AnyAllow(all, req)
    {
      assert all[|a| + i] == b[i];
    }
  }

  lemma ReadRulesMean(roots: seq<string>, req: Request)
    ensures AnyAllow(ReadRules(roots), req) <==>
            (req.ReadData? || req.ReadMetadata?) && AnyAbove(roots, req.path)
  {
    var rules := ReadRules(roots);
    if (req.ReadData? || req.ReadMetadata?) && AnyAbove(roots, req.path) {
      var i :| 0 <= i < |roots| && Under(req.path, roots[i]);
      assert rules[i].allow && Matches(rules[i], req);
    }
  }

  lemma WriteRulesMean(roots: seq<string>, req: Request)
    ensures AnyAllow(WriteRules(roots), req) <==> req.Write? && AnyAbove(roots, req.path)
  {
    var rules := WriteRules(roots);
    if req.Write? && AnyAbove(roots, req.path) {
      var i :| 0 <= i < |roots| && Under(req.path, roots[i]);
      assert rules[i].allow && Matches(rules[i], req);
    }
  }

  predicate FileAccess(req: Request) {
    req.ReadData? || req.ReadMetadata? || req.Write?
  }

  lemma PairMeans(root: string, req: Request)
    ensures AnyAllow([ReadRule(root), WriteRule(root)], req) <==> FileAccess(req) && Under(req.path, root)
  {
    var pair := [ReadRule(root), WriteRule(root)];
    assert Matches(pair[0], req) <==> (req.ReadData? || req.ReadMetadata?) && Under(req.path, root);
    assert Matches(pair[1], req) <==> req.Write? && Under(req.path, root);
  }

  lemma {:induction false} ReadWriteRulesMean(roots: seq<string>, req: Request)
    ensures AnyAllow(ReadWriteRules(roots), req) <==> FileAccess(req) && AnyAbove(roots, req.path)
  {
    if roots != [] {
      var last := |roots| - 1;
      ReadWriteRulesMean(roots[..last], req);
      PairMeans(roots[last], req);
      AnyAllowConcat(ReadWriteRules(roots[..last]), [ReadRule(roots[last]), WriteRule(roots[last])], req);
      if FileAccess(req) {
        AnyAboveLast(roots, req.path);
      }
    }
  }

  lemma AnyAboveLast(roots: seq<string>, x: seq<string>)
    requires roots != []
    ensures AnyAbove(roots, x) <==> AnyAbove(roots[..|roots| - 1], x) || Under(x, roots[|roots| - 1])
  {
    var init := roots[..|roots| - 1];
    forall i | 0 <= i < |roots| - 1
      ensures init[i] == roots[i]
    {
    }
    if AnyAbove(init, x) {
      var i :| 0 <= i < |init| && Under(x, init[i]);
      assert Under(x, roots[i]);
    }
  }

  lemma PolicyRulesMean(fs: Filesystem, workdir: string, req: Request)
    ensures AnyAllow(PolicyRules(fs, workdir), req) <==>
            && FileAccess(req)
            && ( || (fs.workdir && Under(req.path, workdir))
                 || (!req.Write? && AnyAbove(ResolveAll(fs.readOnly, workdir), req.path))
                 || AnyAbove(ResolveAll(fs.readWrite, workdir), req.path))
  {
    var bind := if fs.workdir then [ReadRule(workdir), WriteRule(workdir)] else [];
    var ro := ReadRules(ResolveAll(fs.readOnly, workdir));
    var rw := ReadWriteRules(ResolveAll(fs.readWrite, workdir));
    AnyAllowConcat(bind + ro, rw, req);
    AnyAllowConcat(bind, ro, req);
    PairMeans(workdir, req);
    ReadRulesMean(ResolveAll(fs.readOnly, workdir), req);
    ReadWriteRulesMean(ResolveAll(fs.readWrite, workdir), req);
  }

  lemma BaseRulesMean(req: Request)
    ensures AnyAllow(BASE_RULES, req) <==>
            req.StartProcess? || req.Sysctl? || req.Mach? || req.Ipc? || req.SendSignal? || req.ReadMetadata?
  {
    assert req.StartProcess? ==> Matches(BASE_RULES[0], req);
    assert req.Sysctl? ==> Matches(BASE_RULES[1], req);
    assert req.Mach? ==> Matches(BASE_RULES[2], req);
    assert req.Ipc? ==> Matches(BASE_RULES[3], req);
    assert req.SendSignal? ==> Matches(BASE_RULES[4], req);
    assert req.ReadMetadata? ==> Matches(BASE_RULES[5], req);
  }

  lemma SingleMeans(rule: Rule, req: Request)
    ensures AnyAllow([rule], req) <==> rule.allow && Matches(rule, req)
  {
    assert [rule][0] == rule;
  }

  lemma FourMean(a: Rule, b: Rule, c: Rule, d: Rule, req: Request)
    ensures AnyAllow([a, b, c, d], req) <==>
            || (a.allow && Matches(a, req)) || (b.allow && Matches(b, req))
            || (c.allow && Matches(c, req)) || (d.allow && Matches(d, req))
  {
    assert [a, b, c, d] == [a] + [b] + [c] + [d];
    AnyAllowConcat([a] + [b] + [c], [d], req);
    AnyAllowConcat([a] + [b], [c], req);
    AnyAllowConcat([a], [b], req);
    SingleMeans(a, req);
    SingleMeans(b, req);
    SingleMeans(c, req);
    SingleMeans(d, req);
  }

  /** The three device literals, whose paths stay symbolic here. */
  lemma DeviceRulesMean(slash: string, device: string, helper: string, req: Request)
    ensures AnyAllow(DeviceRules(slash, device, helper), req) <==>
            || ((req.ReadData? || req.ReadMetadata?) && req.path == Components(slash))
            || (req.Ioctl? && req.path == Components(device))
            || (req.Write? && (req.path == Components(device) || req.path == Components(helper)))
  {
    hide Components;
    FourMean(Rule(true, FileReadAny, Literal(slash)), Rule(true, FileIoctl, Literal(device)),
             Rule(true, FileWriteAny, Literal(device)), Rule(true, FileWriteAny, Literal(helper)), req);
  }

  lemma NetworkRulesMean(mode: NetworkMode, req: Request)
    ensures AnyAllow(NetworkRules(mode), req) <==>
            (req.Outbound? || req.Inbound? || req.Bind?) && NetworkPermitted(mode, req.localhost)
  {
    var rules := NetworkRules(mode);
    assert rules[0].allow ==>
      (Matches(rules[0], req) <==>
       (req.Outbound? || req.Inbound? || (req.Bind? && mode == Unrestricted)) && NetworkPermitted(mode, req.localhost));
    assert |rules| > 1 ==> rules[1].allow && (Matches(rules[1], req) <==> req.Bind? && req.localhost);
  }

  /** Compilation preserves meaning, for every policy, workdir and request. */
  lemma ProfileMeansPolicy(policy: SandboxPolicy, workdir: string, req: Request)
    ensures LastMatch(CompiledProfile(policy, workdir), req) <==> Permitted(policy, workdir, req)
  {
    ProfileConsistent(policy, workdir, req);
    LastMatchConsistent(AllowRules(policy, workdir), req);
    SegmentsMean(policy, workdir, req);
    BaseRulesMean(req);
    ReadRulesMean(SYSTEM_READS, req);
    DeviceRulesMean("/", "/dev/null", "/dev/dtracehelper", req);
    PolicyRulesMean(policy.filesystem, workdir, req);
    WriteRulesMean(TEMP_WRITES, req);
    NetworkRulesMean(policy.network.mode, req);
  }

  lemma SegmentsMean(policy: SandboxPolicy, workdir: string, req: Request)
    ensures AnyAllow(AllowRules(policy, workdir), req) <==>
            || AnyAllow(BASE_RULES, req)
            || AnyAllow(ReadRules(SYSTEM_READS), req)
            || AnyAllow(DEVICE_RULES, req)
            || AnyAllow(PolicyRules(policy.filesystem, workdir), req)
            || AnyAllow(WriteRules(TEMP_WRITES), req)
            || AnyAllow(NetworkRules(policy.network.mode), req)
  {
    var rules := PolicyRules(policy.filesystem, workdir);
    AnyAllowConcat(FixedRules() + rules + WriteRules(TEMP_WRITES), NetworkRules(policy.network.mode), req);
    AnyAllowConcat(FixedRules() + rules, WriteRules(TEMP_WRITES), req);
    AnyAllowConcat(FixedRules(), rules, req);
    AnyAllowConcat(BASE_RULES + ReadRules(SYSTEM_READS), DEVICE_RULES, req);
    AnyAllowConcat(BASE_RULES, ReadRules(SYSTEM_READS), req);
  }

  // ---------- Agreement with the policy crate's resolver ----------

  function RootsOf(paths: seq<string>): set<seq<string>> {
    set i | 0 <= i < |paths| :: Components(paths[i])
  }

  function RootsGranted(rules: Profile, op: Operation): set<seq<string>> {
    set i | 0 <= i < |rules| && rules[i].allow && rules[i].op == op && rules[i].filter.Subpath?
      :: Components(rules[i].filter.root)
  }

  lemma RootsGrantedConcat(a: Profile, b: Profile, op: Operation)
    ensures RootsGranted(a + b, op) == RootsGranted(a, op) + RootsGranted(b, op)
  {
    var all := a + b;
    forall x | x in RootsGranted(all, op)
      ensures x in RootsGranted(a, op) + RootsGranted(b, op)
    {
      var i :| 0 <= i < |all| && all[i].allow && all[i].op == op && all[i].filter.Subpath?
               && x == Components(all[i].filter.root);
      if i < |a| {
        assert a[i] == all[i];
      } else {
        assert b[i - |a|] == all[i];
      }
    }
    forall x | x in RootsGranted(a, op)
      ensures x in RootsGranted(all, op)
    {
      var i :| 0 <= i < |a| && a[i].allow && a[i].op == op && a[i].filter.Subpath?
               && x == Components(a[i].filter.root);
      assert all[i] == a[i];
    }
    forall x | x in RootsGranted(b, op)
      ensures x in RootsGranted(all, op)
    {
      var i :| 0 <= i < |b| && b[i].allow && b[i].op == op && b[i].filter.Subpath?
               && x == Components(b[i].filter.root);
      assert all[|a| + i] == b[i];
    }
  }

  lemma ReadRulesGrant(roots: seq<string>)
    ensures RootsGranted(ReadRules(roots), FileReadAny) == RootsOf(roots)
    ensures RootsGranted(ReadRules(roots), FileWriteAny) == {}
  {
    var rules := ReadRules(roots);
    forall i | 0 <= i < |roots|
      ensures Components(roots[i]) in RootsGranted(rules, FileReadAny)
    {
      assert rules[i].filter.root == roots[i];
    }
  }

  lemma SingleGrants(rule: Rule, op: Operation)
    ensures RootsGranted([rule], op) ==
            if rule.allow && rule.op == op && rule.filter.Subpath? then {Components(rule.filter.root)} else {}
  {
    assert [rule][0] == rule;
  }

  lemma PairGrants(root: string)
    ensures var pair := [ReadRule(root), WriteRule(root)];
            RootsGranted(pair, FileReadAny) == {Components(root)} == RootsGranted(pair, FileWriteAny)
  {
    assert [ReadRule(root), WriteRule(root)] == [ReadRule(root)] + [WriteRule(root)];
    RootsGrantedConcat([ReadRule(root)], [WriteRule(root)], FileReadAny);
    RootsGrantedConcat([ReadRule(root)], [WriteRule(root)], FileWriteAny);
    SingleGrants(ReadRule(root), FileReadAny);
    SingleGrants(ReadRule(root), FileWriteAny);
    SingleGrants(WriteRule(root), FileReadAny);
    SingleGrants(WriteRule(root), FileWriteAny);
  }

  lemma {:induction false} ReadWriteRulesGrant(roots: seq<string>)
    ensures RootsGranted(ReadWriteRules(roots), FileReadAny) == RootsOf(roots)
    ensures RootsGranted(ReadWriteRules(roots), FileWriteAny) == RootsOf(roots)
  {
    if roots != [] {
      var last := |roots| - 1;
      ReadWriteRulesGrant(roots[..last]);
      PairGrants(roots[last]);
      var pair := [ReadRule(roots[last]), WriteRule(roots[last])];
      RootsGrantedConcat(ReadWriteRules(roots[..last]), pair, FileReadAny);
      RootsGrantedConcat(ReadWriteRules(roots[..last]), pair, FileWriteAny);
      RootsOfConcat(roots[..last], [roots[last]]);
      assert roots == roots[..last] + [roots[last]];
      assert RootsOf([roots[last]]) == {Components(roots[last])} by {
        assert [roots[last]][0] == roots[last];
      }
    }
  }

  lemma RootsOfConcat(a: seq<string>, b: seq<string>)
    ensures RootsOf(a + b) == RootsOf(a) + RootsOf(b)
  {
    var all := a + b;
    forall i | 0 <= i < |a|
      ensures Components(a[i]) in RootsOf(all)
    {
      assert all[i] == a[i];
    }
    forall i | 0 <= i < |b|
      ensures Components(b[i]) in RootsOf(all)
    {
      assert all[|a| + i] == b[i];
    }
  }

  lemma HostWriteRoots(fs: Filesystem, workdir: string)
    ensures RootsOf(HostWritePaths(fs, workdir)) ==
            RootsOf(ResolveAll(fs.readWrite, workdir)) + if fs.workdir then {Components(workdir)} else {}
  {
    var rw := ResolveAll(fs.readWrite, workdir);
    if fs.workdir {
      if Lists(rw, workdir) {
        var i :| 0 <= i < |rw| && SamePath(rw[i], workdir);
        assert Components(rw[i]) in RootsOf(rw);
      } else {
        RootsOfConcat(rw, [workdir]);
        assert [workdir][0] == workdir;
      }
    }
  }

  /**
   The write roots the policy puts in a profile are, as sets of paths, exactly the resolver's
   read-write list, and the read roots are its two lists together.
   */
  lemma ProfileRootsAreHostPaths(fs: Filesystem, workdir: string)
    ensures var rules := PolicyRules(fs, workdir);
            && RootsGranted(rules, FileWriteAny) == RootsOf(HostWritePaths(fs, workdir))
            && RootsGranted(rules, FileReadAny) ==
               RootsOf(ResolveAll(fs.readOnly, workdir)) + RootsOf(HostWritePaths(fs, workdir))
  {
    var bind := if fs.workdir then [ReadRule(workdir), WriteRule(workdir)] else [];
    var ro := ResolveAll(fs.readOnly, workdir);
    var rw := ResolveAll(fs.readWrite, workdir);
    HostWriteRoots(fs, workdir);
    PairGrants(workdir);
    ReadRulesGrant(ro);
    ReadWriteRulesGrant(rw);
    RootsGrantedConcat(bind + ReadRules(ro), ReadWriteRules(rw), FileWriteAny);
    RootsGrantedConcat(bind, ReadRules(ro), FileWriteAny);
    RootsGrantedConcat(bind + ReadRules(ro), ReadWriteRules(rw), FileReadAny);
    RootsGrantedConcat(bind, ReadRules(ro), FileReadAny);
  }

  /** A process may write to a path exactly when the resolver lists a path above it, or it is a fixed one. */
  lemma WritesFollowHostPaths(policy: SandboxPolicy, workdir: string, x: seq<string>)
    ensures LastMatch(CompiledProfile(policy, workdir), Write(x)) <==>
            || AnyAbove(HostWritePaths(policy.filesystem, workdir), x)
            || AnyAbove(TEMP_WRITES, x)
            || x == Components("/dev/null")
            || x == Components("/dev/dtracehelper")
  {
    ProfileMeansPolicy(policy, workdir, Write(x));
    HostWritePathsCover(policy.filesystem, workdir, x);
  }
}
