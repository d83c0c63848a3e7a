/**
 What generated profiles grant, with every fixed place spelled out as path components, and what
 the default policy comes to.
 */
module Grants {
  import opened Wrappers
  import opened Text
  import opened Paths
  import opened Policy
  import opened Seatbelt
  import Size

  lemma PathOf(segments: seq<string>, text: string)
    requires forall i :: 0 <= i < |segments| ==> Plain(segments[i])
    requires Written(segments) == text
    ensures Components(text) == segments
  {
    ComponentsWritten(segments);
  }

  lemma OneSegment(a: string, text: string)
    requires Plain(a) && text == "/" + a
    ensures Components(text) == [a]
  {
    assert [a][1..] == [];
    assert Written([a]) == "/" + a + "";
    PathOf([a], text);
  }

  lemma TwoSegments(a: string, b: string, text: string)
    requires Plain(a) && Plain(b) && text == "/" + a + "/" + b
    ensures Components(text) == [a, b]
  {
    assert [a, b][1..] == [b] && [b][1..] == [];
    assert Written([b]) == "/" + b + "";
    assert Written([a, b]) == "/" + a + Written([b]);
    PathOf([a, b], text);
  }

  lemma ThreeSegments(a: string, b: string, c: string, text: string)
    requires Plain(a) && Plain(b) && Plain(c) && text == "/" + a + "/" + b + "/" + c
    ensures Components(text) == [a, b, c]
  {
    assert [a, b, c][1..] == [b, c] && [b, c][1..] == [c] && [c][1..] == [];
    assert Written([c]) == "/" + c + "";
    assert Written([b, c]) == "/" + b + Written([c]);
    assert Written([a, b, c]) == "/" + a + Written([b, c]);
    PathOf([a, b, c], text);
  }

  lemma FixedComponents()
    ensures Components("/usr") == ["usr"] && Components("/bin") == ["bin"] && Components("/sbin") == ["sbin"]
    ensures Components("/System") == ["System"] && Components("/Library") == ["Library"]
    ensures Components("/dev") == ["dev"] && Components("/tmp") == ["tmp"] && Components("/etc") == ["etc"]
    ensures Components("/Applications") == ["Applications"]
  {
    hide Components;
    OneSegment("usr", "/usr");
    OneSegment("bin", "/bin");
    OneSegment("sbin", "/sbin");
    OneSegment("System", "/System");
    OneSegment("Library", "/Library");
    OneSegment("dev", "/dev");
    OneSegment("tmp", "/tmp");
    OneSegment("etc", "/etc");
    OneSegment("Applications", "/Applications");
  }

  lemma LongerComponents()
    ensures Components("/private/var/db") == ["private", "var", "db"]
    ensures Components("/private/tmp") == ["private", "tmp"]
    ensures Components("/private/etc") == ["private", "etc"]
    ensures Components("/var/folders") == ["var", "folders"]
    ensures Components("/private/var/folders") == ["private", "var", "folders"]
  {
    hide Components;
    ThreeSegments("private", "var", "db", "/private/var/db");
    TwoSegments("private", "tmp", "/private/tmp");
    TwoSegments("private", "etc", "/private/etc");
    TwoSegments("var", "folders", "/var/folders");
    ThreeSegments("private", "var", "folders", "/private/var/folders");
  }

  lemma DeviceComponents()
    ensures Components("/dev/null") == ["dev", "null"]
    ensures Components("/dev/dtracehelper") == ["dev", "dtracehelper"]
    ensures Components("/") == []
  {
    hide Components;
    TwoSegments("dev", "null", "/dev/null");
    TwoSegments("dev", "dtracehelper", "/dev/dtracehelper");
    assert "/" == "" + "/" + "";
    ComponentsOfSlash("", "");
    ComponentsOfNothing();
  }

  /** Below some path of the list. */
  ghost predicate Below(roots: seq<seq<string>>, x: seq<string>) {
    exists i :: 0 <= i < |roots| && roots[i] <= x
  }

  lemma AboveIsBelow(paths: seq<string>, roots: seq<seq<string>>, x: seq<string>)
    requires |paths| == |roots| && forall i :: 0 <= i < |paths| ==> Components(paths[i]) == roots[i]
    ensures AnyAbove(paths, x) <==> Below(roots, x)
  {
    hide Components;
    forall i | 0 <= i < |paths|
      ensures Under(x, paths[i]) <==> roots[i] <= x
    {
    }
  }

  lemma SystemReads(x: seq<string>)
    ensures AnyAbove(SYSTEM_READS, x) <==>
            Below([["usr"], ["bin"], ["sbin"], ["System"], ["Library"], ["private", "var", "db"], ["dev"],
                   ["private", "tmp"], ["tmp"], ["etc"], ["private", "etc"], ["Applications"]], x)
  {
    FixedComponents();
    LongerComponents();
    hide Components;
    AboveIsBelow(SYSTEM_READS, [["usr"], ["bin"], ["sbin"], ["System"], ["Library"], ["private", "var", "db"], ["dev"],
                   ["private", "tmp"], ["tmp"], ["etc"], ["private", "etc"], ["Applications"]], x);
  }

  lemma TempWrites(x: seq<string>)
    ensures AnyAbove(TEMP_WRITES, x) <==>
            Below([["tmp"], ["private", "tmp"], ["var", "folders"], ["private", "var", "folders"]], x)
  {
    FixedComponents();
    LongerComponents();
    hide Components;
    AboveIsBelow(TEMP_WRITES, [["tmp"], ["private", "tmp"], ["var", "folders"], ["private", "var", "folders"]], x);
  }

  /** Some listed path, read from the workdir, is `x` or above it. */
  ghost predicate BelowListed(paths: seq<string>, workdir: string, x: seq<string>) {
    exists i :: 0 <= i < |paths| && Components(Join(workdir, paths[i])) <= x
  }

  lemma ResolvedIsListed(paths: seq<string>, workdir: string, x: seq<string>)
    ensures AnyAbove(ResolveAll(paths, workdir), x) <==> BelowListed(paths, workdir, x)
  {
    hide Components, Join;
    var all := ResolveAll(paths, workdir);
    forall i | 0 <= i < |paths|
      ensures Under(x, all[i]) <==> Components(Join(workdir, paths[i])) <= x
    {
    }
  }

  /** What a profile lets be written: two devices, the temporary places, the workdir, the read-write list. */
  lemma WritesGranted(policy: SandboxPolicy, workdir: string, x: seq<string>)
    ensures LastMatch(CompiledProfile(policy, workdir), Write(x)) <==>
            || x == ["dev", "null"] || x == ["dev", "dtracehelper"]
            || Below([["tmp"], ["private", "tmp"], ["var", "folders"], ["private", "var", "folders"]], x)
            || (policy.filesystem.workdir && Components(workdir) <= x)
            || BelowListed(policy.filesystem.readWrite, workdir, x)
  {
    ProfileMeansPolicy(policy, workdir, Write(x));
    DeviceComponents();
    TempWrites(x);
    ResolvedIsListed(policy.filesystem.readWrite, workdir, x);
    hide CompiledProfile, LastMatch, Components, AnyAbove, Below, BelowListed, ResolveAll;
  }

  /** What a profile lets be read: the root itself, the system's places, the workdir, both lists. */
  lemma ReadsGranted(policy: SandboxPolicy, workdir: string, x: seq<string>)
    ensures LastMatch(CompiledProfile(policy, workdir), ReadData(x)) <==>
            || x == []
            || Below([["usr"], ["bin"], ["sbin"], ["System"], ["Library"], ["private", "var", "db"], ["dev"],
                      ["private", "tmp"], ["tmp"], ["etc"], ["private", "etc"], ["Applications"]], x)
            || (policy.filesystem.workdir && Components(workdir) <= x)
            || BelowListed(policy.filesystem.readOnly, workdir, x)
            || BelowListed(policy.filesystem.readWrite, workdir, x)
  {
    ProfileMeansPolicy(policy, workdir, ReadData(x));
    DeviceComponents();
    SystemReads(x);
    ResolvedIsListed(policy.filesystem.readOnly, workdir, x);
    ResolvedIsListed(policy.filesystem.readWrite, workdir, x);
    hide CompiledProfile, LastMatch, Components, AnyAbove, Below, BelowListed, ResolveAll;
  }

  /** The network: none, the local host only, or all of it. */
  lemma NetworkGranted(policy: SandboxPolicy, workdir: string, local: bool)
    ensures var profile := CompiledProfile(policy, workdir);
            var granted := match policy.network.mode
                           case NoNetwork => false
                           case Allowlist => local
                           case Unrestricted => true;
            && LastMatch(profile, Outbound(local)) == granted
            && LastMatch(profile, Inbound(local)) == granted
            && LastMatch(profile, Bind(local)) == granted
  {
    ProfileMeansPolicy(policy, workdir, Outbound(local));
    ProfileMeansPolicy(policy, workdir, Inbound(local));
    ProfileMeansPolicy(policy, workdir, Bind(local));
    hide CompiledProfile, LastMatch;
  }

  /** Everything else that a profile grants or refuses. */
  lemma RestGranted(policy: SandboxPolicy, workdir: string, x: seq<string>)
    ensures var profile := CompiledProfile(policy, workdir);
            && LastMatch(profile, ReadMetadata(x)) && LastMatch(profile, StartProcess) && LastMatch(profile, Sysctl)
            && LastMatch(profile, Mach) && LastMatch(profile, Ipc) && LastMatch(profile, SendSignal)
            && (LastMatch(profile, Ioctl(x)) <==> x == ["dev", "null"])
  {
    ProfileMeansPolicy(policy, workdir, ReadMetadata(x));
    ProfileMeansPolicy(policy, workdir, StartProcess);
    ProfileMeansPolicy(policy, workdir, Sysctl);
    ProfileMeansPolicy(policy, workdir, Mach);
    ProfileMeansPolicy(policy, workdir, Ipc);
    ProfileMeansPolicy(policy, workdir, SendSignal);
    ProfileMeansPolicy(policy, workdir, Ioctl(x));
    DeviceComponents();
    hide CompiledProfile, LastMatch, Components;
  }

  // ---------- The host path lists ----------

  /** The read-write list: the listed paths in order, and the workdir behind them unless an equal path is listed. */
  lemma HostPathsMean(fs: Filesystem, workdir: string)
    ensures var rw := HostWritePaths(fs, workdir);
            var n := |fs.readWrite|;
            var listed := exists i :: 0 <= i < n
                            && Components(Join(workdir, fs.readWrite[i])) == Components(workdir)
                            && IsAbsolute(Join(workdir, fs.readWrite[i])) == IsAbsolute(workdir);
            && |rw| == n + (if fs.workdir && !listed then 1 else 0)
            && (forall i :: 0 <= i < n ==> rw[i] == Join(workdir, fs.readWrite[i]))
            && (fs.workdir && !listed ==> rw[n] == workdir)
  {
    hide Components, Join, IsAbsolute;
    var all := ResolveAll(fs.readWrite, workdir);
    forall i | 0 <= i < |fs.readWrite|
      ensures SamePath(all[i], workdir) <==>
              Components(Join(workdir, fs.readWrite[i])) == Components(workdir)
              && IsAbsolute(Join(workdir, fs.readWrite[i])) == IsAbsolute(workdir)
    {
    }
  }

  lemma TwoGigabytes()
    ensures Size.ParseSize("2G") == Success(2147483648)
  {
    assert "2"[..0] == "";
    assert Value("2") == 2;
    hide Size.ParseSize;
    assert "" + "" + "2" + "G" + "" == "2G";
    Size.UnitsMean("", "", "2", "");
  }

  /** The default policy, field by field. */
  lemma DefaultPolicyIs()
    ensures DEFAULT_POLICY.version == 1 && DEFAULT_POLICY.mechanism.None? && DEFAULT_POLICY.secrets == []
    ensures DEFAULT_POLICY.filesystem == Filesystem(true, [], ["/workspace", "/tmp"])
    ensures DEFAULT_POLICY.network == Network(NoNetwork, [])
    ensures DEFAULT_POLICY.resources.cpus == Number(false, 0x4000_0000_0000_0000)
    ensures Size.ParseSize(DEFAULT_POLICY.resources.memory) == Success(2147483648)
    ensures Valid(DEFAULT_POLICY)
  {
    TwoGigabytes();
    hide Size.ParseSize;
  }

  lemma Names()
    ensures "workspace" != "work" && "tmp" != "work" && "etc" != "work" && "home" != "work"
    ensures "etc" != "tmp" && "etc" != "private" && "etc" != "var" && "etc" != "workspace" && "etc" != "dev"
    ensures "work" != "private" && "work" != "var"
  {
    assert "workspace"[4] == 's' && |"work"| == 4;
    assert "tmp"[0] == 't' && "etc"[0] == 'e' && "home"[0] == 'h' && "work"[0] == 'w' && "private"[0] == 'p';
    assert "var"[0] == 'v' && "dev"[0] == 'd' && "workspace"[0] == 'w';
  }

  /** Two absolute paths, neither of them the workdir. */
  lemma TwoListed(a: string, b: string, workdir: string, x: seq<string>)
    requires IsAbsolute(a) && IsAbsolute(b)
    requires Components(a) != Components(workdir) && Components(b) != Components(workdir)
    ensures HostWritePaths(Filesystem(true, [], [a, b]), workdir) == [a, b, workdir]
    ensures BelowListed([a, b], workdir, x) <==> Components(a) <= x || Components(b) <= x
  {
    hide Components, IsAbsolute;
    JoinText(workdir, a);
    JoinText(workdir, b);
    AbsoluteIs(a);
    AbsoluteIs(b);
    hide Join;
    var paths := [a, b];
    assert paths[0] == a && paths[1] == b;
    HostPathsMean(Filesystem(true, [], paths), workdir);
  }

  lemma AbsoluteIs(p: string)
    ensures IsAbsolute(p) <==> p != "" && p[0] == '/'
  {
  }

  lemma BelowFirst(roots: seq<seq<string>>, x: seq<string>)
    requires roots != [] && roots[0] <= x
    ensures Below(roots, x)
  {
  }

  lemma WorkComponents()
    ensures Components("/work") == ["work"] && Components("/workspace") == ["workspace"]
    ensures Components("/tmp") == ["tmp"]
    ensures Components("/workspace") != Components("/work") && Components("/tmp") != Components("/work")
    ensures IsAbsolute("/workspace") && IsAbsolute("/tmp")
  {
    hide Components;
    FixedComponents();
    OneSegment("work", "/work");
    OneSegment("workspace", "/workspace");
    Names();
    assert ["workspace"][0] != ["work"][0] && ["tmp"][0] != ["work"][0];
  }

  /** The default policy in `/work`: the read-write list. */
  lemma DefaultLists()
    ensures HostWritePaths(DEFAULT_POLICY.filesystem, "/work") == ["/workspace", "/tmp", "/work"]
  {
    WorkComponents();
    hide Components, IsAbsolute, HostWritePaths;
    TwoListed("/workspace", "/tmp", "/work", []);
  }

  /** What the default policy in `/work` lets be written: two devices and what lies below six places. */
  lemma DefaultWrites(x: seq<string>)
    ensures LastMatch(CompiledProfile(DEFAULT_POLICY, "/work"), Write(x)) <==>
            || x == ["dev", "null"] || x == ["dev", "dtracehelper"]
            || Below([["tmp"], ["private", "tmp"], ["var", "folders"], ["private", "var", "folders"]], x)
            || ["work"] <= x || ["workspace"] <= x
  {
    WorkComponents();
    hide Components, IsAbsolute, HostWritePaths, LastMatch, CompiledProfile, BelowListed, Below;
    WritesGranted(DEFAULT_POLICY, "/work", x);
    TwoListed("/workspace", "/tmp", "/work", x);
    if ["tmp"] <= x {
      BelowFirst([["tmp"], ["private", "tmp"], ["var", "folders"], ["private", "var", "folders"]], x);
    }
  }

  /** A write outside those places is refused, one in the workdir allowed. */
  lemma DefaultRefuses()
    ensures !LastMatch(CompiledProfile(DEFAULT_POLICY, "/work"), Write(["etc", "passwd"]))
    ensures LastMatch(CompiledProfile(DEFAULT_POLICY, "/work"), Write(["work", "src"]))
  {
    hide LastMatch, CompiledProfile;
    DefaultWrites(["etc", "passwd"]);
    DefaultWrites(["work", "src"]);
    Names();
    assert ["work", "src"][..1] == ["work"];
    forall root | root in [["tmp"], ["private", "tmp"], ["var", "folders"], ["private", "var", "folders"],
                           ["work"], ["workspace"]]
      ensures !(root <= ["etc", "passwd"])
    {
      assert root[0] != ["etc", "passwd"][0];
    }
    assert ["etc", "passwd"][0] != ["dev", "null"][0];
    assert ["etc", "passwd"][0] != ["dev", "dtracehelper"][0];
    NotBelow(["etc", "passwd"]);
  }

  lemma NotBelow(x: seq<string>)
    requires var places := [["tmp"], ["private", "tmp"], ["var", "folders"], ["private", "var", "folders"],
                            ["work"], ["workspace"]];
             forall root :: root in places ==> !(root <= x)
    ensures !Below([["tmp"], ["private", "tmp"], ["var", "folders"], ["private", "var", "folders"]], x)
    ensures !(["work"] <= x) && !(["workspace"] <= x)
  {
    var all := [["tmp"], ["private", "tmp"], ["var", "folders"], ["private", "var", "folders"],
                ["work"], ["workspace"]];
    assert all[0] in all && all[1] in all && all[2] in all && all[3] in all && all[4] in all && all[5] in all;
  }
}
