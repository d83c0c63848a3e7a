/**
 Allowlist mode patches a compiled argument list: it filters tokens, searches for the
 image and inserts the proxy variables in front of it. The patched list is proved to be
 the unrestricted compilation plus exactly the proxy settings.
 */
module AllowlistArgs {
  import opened Wrappers
  import opened Text
  import opened Policy
  import opened Podman
  import opened ContainerCli
  import Size

  /** The cleanup: `--network` and the token after it are dropped, wherever they stand. */
  function SkipNetwork(tokens: seq<string>): seq<string>
    decreases |tokens|
  {
    if tokens == [] then []
    else if tokens[0] == "--network" then if |tokens| == 1 then [] else SkipNetwork(tokens[2..])
    else [tokens[0]] + SkipNetwork(tokens[1..])
  }

  function Insert(s: seq<string>, i: nat, x: string): seq<string>
    requires i <= |s|
  {
    s[..i] + [x] + s[i..]
  }

  /** The position of the first token equal to `x`, or the length. */
  function FirstIndex(s: seq<string>, x: string): (n: nat)
    ensures n <= |s| && x !in s[..n]
    ensures n < |s| ==> s[n] == x
  {
    if s == [] || s[0] == x then 0 else
    var n := 1 + FirstIndex(s[1..], x);
    assert s[..n] == [s[0]] + s[1..][..n - 1];
    n
  }

  function ProxyUrl(port: string): string {
    "http://host.docker.internal:" + port
  }

  /** The proxy settings in the order in which they end up on the command line. */
  function ProxyWords(port: string): seq<string> {
    ["NO_PROXY" + "=" + "localhost,127.0.0.1",
     "http_proxy" + "=" + ProxyUrl(port),
     "https_proxy" + "=" + ProxyUrl(port),
     "HTTP_PROXY" + "=" + ProxyUrl(port),
     "HTTPS_PROXY" + "=" + ProxyUrl(port)]
  }

  function ProxyArgs(proxyPort: Option<string>): seq<string> {
    match proxyPort
    case None => []
    case Some(port) => Repeat("-e", ProxyWords(port))
  }

  function Unrestrict(req: CreateRequest): CreateRequest {
    req.(policy := req.policy.(network := req.policy.network.(mode := Unrestricted)))
  }

  /** The filtered list with the gateway host behind its first token. */
  function Hosted(args: seq<string>): seq<string>
    requires SkipNetwork(args) != []
  {
    var cleaned := SkipNetwork(args);
    [cleaned[0], "--add-host", GATEWAY] + cleaned[1..]
  }

  /** What the patching does to an argument list, for any image token. */
  function Patched(args: seq<string>, image: string, proxyPort: Option<string>): seq<string>
    requires SkipNetwork(args) != []
  {
    var hosted := Hosted(args);
    var n := FirstIndex(hosted, image);
    hosted[..n] + ProxyArgs(proxyPort) + hosted[n..]
  }

  // ---------- The patching code ----------

  method RemoveNetwork(args: seq<string>) returns (cleaned: seq<string>)
    ensures cleaned == SkipNetwork(args)
  {
    cleaned := [];
    var skipNext := false;
    for i := 0 to |args|
      invariant SkipNetwork(args) ==
                cleaned + SkipNetwork(if skipNext && i < |args| then args[i + 1..] else args[i..])
    {
      var a := args[i];
      if skipNext {
        skipNext := false;
        continue;
      }
      assert args[i..][1..] == args[i + 1..];
      if a == "--network" {
        skipNext := true;
        assert i + 1 < |args| ==> args[i..][2..] == args[i + 2..];
        continue;
      }
      cleaned := cleaned + [a];
    }
  }

  method InsertSetting(s: seq<string>, i: nat, word: string) returns (r: seq<string>)
    requires i <= |s|
    ensures |r| == |s| + 2 && r[..i] == s[..i] && r[i..] == ["-e", word] + s[i..]
  {
    r := Insert(s, i, "-e");
    r := Insert(r, i + 1, word);
  }

  method BuildAllowlistArgs(req: CreateRequest, host: Host, image: string, name: string, detach: bool)
    returns (r: Result<seq<string>, Size.SizeError>)
    ensures var memory := Size.ParseSize(req.policy.resources.memory);
            match memory
            case Failure(e) => r == Failure(e)
            case Success(bytes) =>
              var args := RunArgs(Unrestrict(req), host, image, name, detach, bytes);
              SkipNetwork(args) != [] && r == Success(Patched(args, image, host.proxyPort))
  {
    hide Size.ParseSize, Options, Repeat;
    var built := BuildRunArgs(Unrestrict(req), host, image, name, detach);
    if built.Failure? {
      return built;
    }
    var args := RemoveNetwork(built.value);
    assert built.value[0] == "run";
    ghost var cleaned := args;
    args := Insert(args, 1, "--add-host");
    args := Insert(args, 2, GATEWAY);
    assert args == [cleaned[0], "--add-host", GATEWAY] + cleaned[1..];
    if host.proxyPort.Some? {
      args := InsertProxy(args, FirstIndex(args, image), host.proxyPort.value);
    } else {
      var n := FirstIndex(args, image);
      assert args == args[..n] + [] + args[n..];
    }
    return Success(args);
  }

  /** Each pair is inserted at the same position, so the pair inserted last comes first. */
  method InsertProxy(args: seq<string>, n: nat, port: string) returns (r: seq<string>)
    requires n <= |args|
    ensures r == args[..n] + Repeat("-e", ProxyWords(port)) + args[n..]
  {
    var url := ProxyUrl(port);
    var e, f, g, h, i := "NO_PROXY" + "=" + "localhost,127.0.0.1", "http_proxy" + "=" + url,
                         "https_proxy" + "=" + url, "HTTP_PROXY" + "=" + url, "HTTPS_PROXY" + "=" + url;
    r := InsertSetting(args, n, i);
    r := InsertSetting(r, n, h);
    r := InsertSetting(r, n, g);
    r := InsertSetting(r, n, f);
    r := InsertSetting(r, n, e);
    RepeatFive(e, f, g, h, i);
    assert r[n..] == Repeat("-e", ProxyWords(port)) + args[n..];
    assert r == r[..n] + r[n..];
  }

  lemma RepeatFive(a: string, b: string, c: string, d: string, e: string)
    ensures Repeat("-e", [a, b, c, d, e]) == ["-e", a, "-e", b, "-e", c, "-e", d, "-e", e]
  {
    assert [a, b, c, d, e][..4] == [a, b, c, d];
    assert [a, b, c, d][..3] == [a, b, c];
    assert [a, b, c][..2] == [a, b];
    assert [a, b][..1] == [a];
    assert [a][..0] == [];
    assert Repeat("-e", [a]) == ["-e", a];
    assert Repeat("-e", [a, b]) == ["-e", a, "-e", b];
    assert Repeat("-e", [a, b, c]) == ["-e", a, "-e", b, "-e", c];
    assert Repeat("-e", [a, b, c, d]) == ["-e", a, "-e", b, "-e", c, "-e", d];
  }

  // ---------- The filter and the search meet only the tokens they should ----------

  predicate Plain(token: string) {
    token != "--network" && token != DEFAULT_IMAGE
  }

  predicate AllPlain(tokens: seq<string>) {
    forall i :: 0 <= i < |tokens| ==> Plain(tokens[i])
  }

  /** A token with an equals sign, or one that ends in `o` or `w`, is plain. */
  lemma PlainByShape(token: string)
    requires token != ""
    requires '=' in token || token[|token| - 1] == 'o' || token[|token| - 1] == 'w' || token[0] == 's'
    ensures Plain(token)
  {
    assert '=' !in "--network" && '=' !in DEFAULT_IMAGE;
    assert "--network"[8] == 'k' && DEFAULT_IMAGE[|DEFAULT_IMAGE| - 1] == '0';
    assert "--network"[0] == '-' && DEFAULT_IMAGE[0] == 'd';
  }

  lemma {:induction false} MountsPlain(host: Host, paths: seq<string>, workdir: string, readOnly: bool)
    ensures AllPlain(Mounts(host, paths, workdir, readOnly))
  {
    if paths != [] {
      var last := |paths| - 1;
      MountsPlain(host, paths[..last], workdir, readOnly);
      var spec := MountSpec(host, paths[last], workdir, readOnly);
      if spec.Some? {
        MountSpecEnds(host, paths[last], workdir, readOnly);
        PlainByShape(spec.value);
      }
    }
  }

  lemma MountSpecEnds(host: Host, path: string, workdir: string, readOnly: bool)
    requires MountSpec(host, path, workdir, readOnly).Some?
    ensures var spec := MountSpec(host, path, workdir, readOnly).value;
            spec != "" && (spec[|spec| - 1] == 'o' || spec[|spec| - 1] == 'w')
  {
  }

  lemma {:induction false} RepeatPlain(option: string, values: seq<string>)
    requires Plain(option) && AllPlain(values)
    ensures AllPlain(Repeat(option, values))
  {
    if values != [] {
      RepeatPlain(option, values[..|values| - 1]);
      assert Plain(values[|values| - 1]);
    }
  }

  lemma EnvWordsPlain(env: seq<(string, string)>)
    ensures AllPlain(EnvWords(env))
  {
    forall i | 0 <= i < |env|
      ensures Plain(EnvWords(env)[i])
    {
      var word := EnvWord(env[i]);
      assert word[|env[i].0|] == '=';
      PlainByShape(word);
    }
  }

  lemma HeadPlain(req: CreateRequest, host: Host, name: string, detach: bool, memory: nat)
    ensures AllPlain(HeadArgs(req, host, name, detach, memory))
  {
    var head := HeadArgs(req, host, name, detach, memory);
    assert ContainerName(name)[0] == 's';
    PlainByShape(head[2]);
    var cpus := host.showCpus(req.policy.resources.cpus);
    assert ("--cpus=" + cpus)[6] == '=';
    assert ("--memory=" + ShowNat(memory))[8] == '=';
    PlainByShape(head[3]);
    PlainByShape(head[4]);
    assert "--name"[2] == 'n' && |"--name"| == 6;
    assert DEFAULT_IMAGE[0] == 'd';
  }

  lemma WorkspacePlain(req: CreateRequest, host: Host)
    ensures AllPlain(WorkspaceArgs(req, host))
  {
    var bind := WorkspaceBind(req, host);
    assert bind[|bind| - 1] == 'w';
    PlainByShape(bind);
    assert DEFAULT_IMAGE[0] == 'd';
  }

  lemma OptionsPlain(req: CreateRequest, host: Host, name: string, detach: bool, memory: nat)
    requires req.policy.network.mode == Unrestricted
    ensures AllPlain(Options(req, host, name, detach, memory))
  {
    HeadPlain(req, host, name, detach, memory);
    WorkspacePlain(req, host);
    MountsPlain(host, req.policy.filesystem.readOnly, req.workdir, true);
    MountsPlain(host, req.policy.filesystem.readWrite, req.workdir, false);
    EnvWordsPlain(req.env);
    assert Plain("-v") && Plain("-e") && Plain("--tmpfs") && Plain(TMPFS) by {
      assert DEFAULT_IMAGE[0] == 'd' && "--tmpfs"[2] == 't';
    }
    assert AllPlain(ListedMounts(req, host));
    RepeatPlain("-v", ListedMounts(req, host));
    RepeatPlain("-e", EnvWords(req.env));
    hide Plain, HeadArgs, WorkspaceArgs, ListedMounts, Repeat, EnvWords;
  }

  /** The filter keeps everything in front of a token list that it must not touch. */
  lemma {:induction false} SkipNetworkKeeps(a: seq<string>, b: seq<string>)
    requires forall i :: 0 <= i < |a| ==> a[i] != "--network"
    ensures SkipNetwork(a + b) == a + SkipNetwork(b)
  {
    if a == [] {
      assert a + b == b;
    } else {
      assert (a + b)[1..] == a[1..] + b;
      SkipNetworkKeeps(a[1..], b);
      assert a == [a[0]] + a[1..];
    }
  }

  /** The filter leaves a guest command alone if and only if it has no `--network` token. */
  lemma {:induction false} GuestCommandKept(command: seq<string>)
    ensures SkipNetwork(command) == command <==> "--network" !in command
    ensures |SkipNetwork(command)| <= |command|
    decreases |command|
  {
    if command != [] {
      if command[0] == "--network" {
        if |command| > 1 {
          GuestCommandKept(command[2..]);
        }
        assert |SkipNetwork(command)| < |command|;
      } else {
        GuestCommandKept(command[1..]);
        assert command == [command[0]] + command[1..];
        assert SkipNetwork(command) == command ==> SkipNetwork(command)[1..] == command[1..];
        assert SkipNetwork(command)[1..] == SkipNetwork(command[1..]);
      }
    }
  }

  lemma {:induction false} FirstIndexOf(a: seq<string>, x: string, b: seq<string>)
    requires x !in a
    ensures FirstIndex(a + [x] + b, x) == |a|
  {
    var s := a + [x] + b;
    if a == [] {
      assert s[0] == x;
    } else {
      assert s[0] == a[0] && a[0] in a;
      assert s[1..] == a[1..] + [x] + b;
      FirstIndexOf(a[1..], x, b);
    }
  }

  /** The patched command line in front of the proxy settings and the image. */
  function Front(req: CreateRequest, host: Host, name: string, detach: bool, memory: nat): seq<string> {
    ["run", "--add-host", GATEWAY] + Options(req, host, name, detach, memory)
  }

  lemma CleanedShape(options: seq<string>, tail: seq<string>)
    requires AllPlain(options)
    ensures SkipNetwork(["run"] + options + tail) == ["run"] + options + SkipNetwork(tail)
  {
    var front := ["run"] + options;
    assert ["run"] + options + tail == front + tail;
    assert "run"[0] == 'r';
    forall i | 0 <= i < |front|
      ensures front[i] != "--network"
    {
      if 0 < i {
        assert Plain(options[i - 1]);
      }
    }
    SkipNetworkKeeps(front, tail);
  }

  /** For any image, the filter leaves the options alone and meets only the image and the guest command. */
  lemma HostedShape(req: CreateRequest, host: Host, image: string, name: string, detach: bool, memory: nat)
    requires req.policy.network.mode == Unrestricted
    ensures var args := RunArgs(req, host, image, name, detach, memory);
            && SkipNetwork(args) != []
            && Hosted(args) ==
               Front(req, host, name, detach, memory) + SkipNetwork([image] + GuestCommand(req.command))
  {
    hide Options, GuestCommand, SkipNetwork;
    var options := Options(req, host, name, detach, memory);
    var tail := [image] + GuestCommand(req.command);
    OptionsPlain(req, host, name, detach, memory);
    CleanedShape(options, tail);
    var cleaned := ["run"] + options + SkipNetwork(tail);
    assert cleaned[0] == "run" && cleaned[1..] == options + SkipNetwork(tail);
    HostedParts(options, SkipNetwork(tail));
  }

  lemma HostedParts(options: seq<string>, tail: seq<string>)
    ensures ["run", "--add-host", GATEWAY] + (options + tail) == ["run", "--add-host", GATEWAY] + options + tail
  {
  }

  lemma {:induction false} NoNetworkLeft(tokens: seq<string>)
    ensures "--network" !in SkipNetwork(tokens)
    decreases |tokens|
  {
    if tokens != [] {
      if tokens[0] == "--network" {
        if |tokens| > 1 {
          NoNetworkLeft(tokens[2..]);
        }
      } else {
        NoNetworkLeft(tokens[1..]);
      }
    }
  }

  lemma {:induction false} FirstIndexIn(a: seq<string>, x: string, b: seq<string>)
    requires x in a
    ensures FirstIndex(a + b, x) < |a|
  {
    if a[0] != x {
      assert (a + b)[1..] == a[1..] + b;
      FirstIndexIn(a[1..], x, b);
    }
  }

  lemma {:induction false} FirstIndexNone(s: seq<string>, x: string)
    requires x !in s
    ensures FirstIndex(s, x) == |s|
  {
  }

  /** The position search ends at the real image token if and only if no token before it is equal to it. */
  lemma SearchFindsImage(req: CreateRequest, host: Host, image: string, name: string, detach: bool, memory: nat)
    requires req.policy.network.mode == Unrestricted
    ensures var args := RunArgs(req, host, image, name, detach, memory);
            var front := Front(req, host, name, detach, memory);
            && SkipNetwork(args) != []
            && (FirstIndex(Hosted(args), image) == |front| < |Hosted(args)| <==>
                image !in front && image != "--network")
  {
    HostedShape(req, host, image, name, detach, memory);
    hide Front, GuestCommand, RunArgs, Hosted;
    var front := Front(req, host, name, detach, memory);
    var guest := GuestCommand(req.command);
    assert ([image] + guest)[1..] == guest;
    if image in front {
      FirstIndexIn(front, image, SkipNetwork([image] + guest));
    } else if image == "--network" {
      NoNetworkLeft([image] + guest);
      FirstIndexNone(front + SkipNetwork([image] + guest), image);
    } else {
      assert front + ([image] + SkipNetwork(guest)) == front + [image] + SkipNetwork(guest);
      FirstIndexOf(front, image, SkipNetwork(guest));
    }
  }

  /**
   Where the search finds the image, patching gives the unrestricted compilation with one
   `--add-host` at the front, the proxy settings just before the image, and the filtered guest
   command.
   */
  lemma PatchedAround(req: CreateRequest, host: Host, image: string, name: string, detach: bool, memory: nat)
    requires req.policy.network.mode == Unrestricted
    requires image !in Front(req, host, name, detach, memory) && image != "--network"
    ensures var args := RunArgs(req, host, image, name, detach, memory);
            && SkipNetwork(args) != []
            && Patched(args, image, host.proxyPort) ==
               Front(req, host, name, detach, memory) + ProxyArgs(host.proxyPort)
               + ([image] + SkipNetwork(GuestCommand(req.command)))
  {
    HostedShape(req, host, image, name, detach, memory);
    SearchFindsImage(req, host, image, name, detach, memory);
    hide Front, GuestCommand, RunArgs, Hosted, ProxyArgs;
    var front := Front(req, host, name, detach, memory);
    var guest := GuestCommand(req.command);
    assert ([image] + guest)[1..] == guest;
    assert (front + ([image] + SkipNetwork(guest)))[..|front|] == front;
    assert (front + ([image] + SkipNetwork(guest)))[|front|..] == [image] + SkipNetwork(guest);
  }

  lemma FrontPlain(options: seq<string>)
    requires AllPlain(options)
    ensures DEFAULT_IMAGE !in ["run", "--add-host", GATEWAY] + options
  {
    var front := ["run", "--add-host", GATEWAY] + options;
    assert DEFAULT_IMAGE[0] == 'd' && GATEWAY[0] == 'h';
    forall i | 0 <= i < |front|
      ensures front[i] != DEFAULT_IMAGE
    {
      if i >= 3 {
        assert Plain(options[i - 3]);
      }
    }
  }

  /** The search always finds the default image. */
  lemma PatchedShape(req: CreateRequest, host: Host, name: string, detach: bool, memory: nat)
    requires req.policy.network.mode == Unrestricted
    ensures var args := RunArgs(req, host, DEFAULT_IMAGE, name, detach, memory);
            && SkipNetwork(args) != []
            && Patched(args, DEFAULT_IMAGE, host.proxyPort) ==
               ["run", "--add-host", GATEWAY] + Options(req, host, name, detach, memory)
               + ProxyArgs(host.proxyPort) + ([DEFAULT_IMAGE] + SkipNetwork(GuestCommand(req.command)))
  {
    hide Options, ProxyArgs, GuestCommand;
    OptionsPlain(req, host, name, detach, memory);
    FrontPlain(Options(req, host, name, detach, memory));
    assert DEFAULT_IMAGE[0] == 'd';
    PatchedAround(req, host, DEFAULT_IMAGE, name, detach, memory);
  }

  // ---------- Reading the patched list back ----------

  /**
   The allowlist command line says what the unrestricted one says, plus the gateway host and
   the proxy settings after the user's own, with the guest command filtered.
   */
  lemma PatchedReadBack(req: CreateRequest, host: Host, name: string, detach: bool, memory: nat)
    requires req.policy.network.mode == Unrestricted
    ensures var args := RunArgs(req, host, DEFAULT_IMAGE, name, detach, memory);
            var plain := Intended(req, host, DEFAULT_IMAGE, name, detach, memory);
            && SkipNetwork(args) != []
            && ReadRun(Patched(args, DEFAULT_IMAGE, host.proxyPort)) ==
               Some(plain.(hosts := [GATEWAY],
                           env := EnvWords(req.env) + ProxySettings(host.proxyPort),
                           command := SkipNetwork(GuestCommand(req.command))))
  {
    hide Options, Assign, ReadOptions, GuestCommand, Patched, ProxyWords, RunArgs, SkipNetwork, ProxyArgs;
    PatchedShape(req, host, name, detach, memory);
    var options := Options(req, host, name, detach, memory);
    var guest := SkipNetwork(GuestCommand(req.command));
    var rest := ProxyArgs(host.proxyPort) + ([DEFAULT_IMAGE] + guest);
    Regroup("run", ["--add-host", GATEWAY], options, ProxyArgs(host.proxyPort), [DEFAULT_IMAGE] + guest);
    assert ["run", "--add-host", GATEWAY] == ["run"] + ["--add-host", GATEWAY];
    hide Intended;
    ReadGateway(EMPTY, ["--add-host", GATEWAY], options + rest);
    assert EMPTY.hosts + [GATEWAY] == [GATEWAY];
    ReadAllOptions([GATEWAY], req, host, name, detach, memory, rest);
    PatchedRest(req, host, name, detach, memory, guest);
  }

  lemma Regroup(run: string, a: seq<string>, b: seq<string>, c: seq<string>, d: seq<string>)
    ensures var args := [run] + a + b + c + d;
            args != [] && args[0] == run && args[1..] == a + (b + (c + d))
  {
  }

  /** Reading on after the options: the proxy settings, the image and the guest command. */
  lemma PatchedRest(req: CreateRequest, host: Host, name: string, detach: bool, memory: nat, guest: seq<string>)
    requires req.policy.network.mode == Unrestricted
    ensures var plain := Intended(req, host, "", name, detach, memory);
            ReadOptions(plain.(hosts := [GATEWAY] + plain.hosts, command := []),
                        ProxyArgs(host.proxyPort) + ([DEFAULT_IMAGE] + guest)) ==
            Some(Intended(req, host, DEFAULT_IMAGE, name, detach, memory).(
                 hosts := [GATEWAY], env := EnvWords(req.env) + ProxySettings(host.proxyPort), command := guest))
  {
    hide ReadOptions, ProxyWords, ProxyArgs, GuestCommand, ListedMounts, EnvWords;
    var plain := Intended(req, host, "", name, detach, memory);
    assert [GATEWAY] + plain.hosts == [GATEWAY];
    var cfg := plain.(hosts := [GATEWAY], command := []);
    ReadProxy(cfg, host.proxyPort, [DEFAULT_IMAGE] + guest);
    assert DEFAULT_IMAGE[0] == 'd';
    ReadImage(cfg.(env := cfg.env + ProxySettings(host.proxyPort)), DEFAULT_IMAGE, guest);
  }

  function ProxySettings(proxyPort: Option<string>): seq<string> {
    match proxyPort
    case None => []
    case Some(port) => ProxyWords(port)
  }

  lemma ReadProxy(cfg: Config, proxyPort: Option<string>, rest: seq<string>)
    ensures ReadOptions(cfg, ProxyArgs(proxyPort) + rest) ==
            ReadOptions(cfg.(env := cfg.env + ProxySettings(proxyPort)), rest)
  {
    hide ReadOptions, ProxyWords;
    match proxyPort {
      case None =>
        assert ProxyArgs(proxyPort) + rest == rest;
        assert cfg.env + [] == cfg.env;
      case Some(port) =>
        ReadEnv(cfg, ProxyWords(port), rest);
    }
  }

  lemma {:induction false} EnvironmentConcat(a: seq<string>, b: seq<string>)
    ensures Environment(a + b) == Environment(a) + Environment(b)
    decreases |b|
  {
    hide EqualsAt;
    if b == [] {
      assert a + b == a;
    } else {
      var last := |b| - 1;
      assert (a + b)[..|a + b| - 1] == a + b[..last];
      EnvironmentConcat(a, b[..last]);
    }
  }

  lemma EnvironmentSnoc(words: seq<string>, key: string, value: string)
    requires '=' !in key
    ensures Environment(words + [key + "=" + value]) == Environment(words)[key := value]
  {
    var word := key + "=" + value;
    assert (words + [word])[..|words|] == words;
    EqualsAtOf(key, value);
    assert word[..|key|] == key && word[|key| + 1..] == value;
  }

  /** The environment of the proxy settings alone. */
  lemma ProxyEnvironment(port: string)
    ensures var url := "http://host.docker.internal:" + port;
            Environment(ProxyWords(port)) == map["NO_PROXY" := "localhost,127.0.0.1"]
              ["http_proxy" := url]["https_proxy" := url]["HTTP_PROXY" := url]["HTTPS_PROXY" := url]
  {
    hide Environment;
    var url := ProxyUrl(port);
    var no := "NO_PROXY" + "=" + "localhost,127.0.0.1";
    var http, https := "http_proxy" + "=" + url, "https_proxy" + "=" + url;
    var upper, uppers := "HTTP_PROXY" + "=" + url, "HTTPS_PROXY" + "=" + url;
    EnvironmentSnoc([], "NO_PROXY", "localhost,127.0.0.1");
    EnvironmentSnoc([no], "http_proxy", url);
    EnvironmentSnoc([no, http], "https_proxy", url);
    EnvironmentSnoc([no, http, https], "HTTP_PROXY", url);
    EnvironmentSnoc([no, http, https, upper], "HTTPS_PROXY", url);
    FiveWords(no, http, https, upper, uppers);
    EnvironmentOfNothing();
  }

  lemma EnvironmentOfNothing()
    ensures Environment([]) == map[]
  {
  }

  lemma FiveWords(a: string, b: string, c: string, d: string, e: string)
    ensures [] + [a] == [a] && [a] + [b] == [a, b] && [a, b] + [c] == [a, b, c]
    ensures [a, b, c] + [d] == [a, b, c, d] && [a, b, c, d] + [e] == [a, b, c, d, e]
  {
  }

  /** Whatever the user's variables are, the proxy settings win and every other key is the user's. */
  lemma ProxySettingsOverride(env: seq<(string, string)>, port: string)
    ensures var seen := Environment(EnvWords(env) + ProxyWords(port));
            var user := Environment(EnvWords(env));
            var proxy := Environment(ProxyWords(port));
            && (forall k :: k in proxy ==> k in seen && seen[k] == proxy[k])
            && (forall k :: k !in proxy ==> (k in seen <==> k in user) && (k in user ==> seen[k] == user[k]))
  {
    EnvironmentConcat(EnvWords(env), ProxyWords(port));
  }

  // ---------- The choice between the two compilations ----------

  /** The argument list that a create request runs. */
  method CreateArgs(req: CreateRequest, host: Host) returns (r: Result<seq<string>, Size.SizeError>)
    ensures r == CreatedArgs(req, host)
  {
    hide RunArgs, Size.ParseSize;
    var args := BuildRunArgs(req, host, DEFAULT_IMAGE, req.name, !req.ephemeral);
    if args.Failure? {
      return args;
    }
    if req.policy.network.mode == Allowlist {
      args := BuildAllowlistArgs(req, host, DEFAULT_IMAGE, req.name, !req.ephemeral);
    }
    return args;
  }

  function CreatedArgs(req: CreateRequest, host: Host): Result<seq<string>, Size.SizeError> {
    match Size.ParseSize(req.policy.resources.memory)
    case Failure(e) => Failure(e)
    case Success(bytes) =>
      if req.policy.network.mode == Allowlist then
        PatchedShape(Unrestrict(req), host, req.name, !req.ephemeral, bytes);
        Success(Patched(RunArgs(Unrestrict(req), host, DEFAULT_IMAGE, req.name, !req.ephemeral, bytes),
                        DEFAULT_IMAGE, host.proxyPort))
      else
        Success(RunArgs(req, host, DEFAULT_IMAGE, req.name, !req.ephemeral, bytes))
  }

  /** What a request is meant to run as, in every network mode. */
  function Meant(req: CreateRequest, host: Host, bytes: nat): Config {
    var plain := Intended(req, host, DEFAULT_IMAGE, req.name, !req.ephemeral, bytes);
    if req.policy.network.mode != Allowlist then plain
    else plain.(networks := [], hosts := [GATEWAY],
                env := EnvWords(req.env) + ProxySettings(host.proxyPort),
                command := SkipNetwork(GuestCommand(req.command)))
  }

  /**
   Every request with a memory size compiles, and the engine reads the result as it is meant:
   cut off from the network exactly in mode none, whatever the mounts, the variables and the
   guest command contain, and with the memory limit of the policy.
   */
  lemma CreatedArgsReadBack(req: CreateRequest, host: Host)
    ensures var memory := Size.ParseSize(req.policy.resources.memory);
            match memory
            case Failure(e) => CreatedArgs(req, host) == Failure(e)
            case Success(bytes) =>
              && CreatedArgs(req, host).Success?
              && ReadRun(CreatedArgs(req, host).value) == Some(Meant(req, host, bytes))
              && (Meant(req, host, bytes).networks == ["none"] <==> req.policy.network.mode == NoNetwork)
              && Size.ParseSize(Meant(req, host, bytes).memory[0]) == memory
  {
    var memory := Size.ParseSize(req.policy.resources.memory);
    if memory.Success? {
      var bytes := memory.value;
      MemoryReadsBack(req.policy.resources.memory);
      hide Size.ParseSize, RunArgs, ReadRun, Patched;
      if req.policy.network.mode == Allowlist {
        PatchedReadBack(Unrestrict(req), host, req.name, !req.ephemeral, bytes);
      } else {
        assert DEFAULT_IMAGE[0] == 'd';
        RunArgsReadBack(req, host, DEFAULT_IMAGE, req.name, !req.ephemeral, bytes);
      }
    }
  }

  lemma MemoryReadsBack(text: string)
    requires Size.ParseSize(text).Success?
    ensures Size.ParseSize(ShowNat(Size.ParseSize(text).value)) == Size.ParseSize(text)
  {
    var v := Size.ParseSize(text).value;
    Size.ParseSizeExact(text, v);
    hide Size.ParseSize;
    Size.PrintThenParse(v);
  }

  // ---------- What a created container is told, outright ----------

  /** The filter drops the token and the one behind it, wherever they stand, and nothing else. */
  lemma SkipNetworkMeans(a: seq<string>, dropped: string, b: seq<string>)
    requires "--network" !in a
    ensures SkipNetwork(a) == a
    ensures SkipNetwork(a + ["--network"]) == a
    ensures SkipNetwork(a + ["--network", dropped] + b) == a + SkipNetwork(b)
  {
    assert a + [] == a;
    SkipNetworkKeeps(a, []);
    SkipNetworkKeeps(a, ["--network"]);
    assert a + ["--network", dropped] + b == a + (["--network", dropped] + b);
    assert (["--network", dropped] + b)[2..] == b;
    SkipNetworkKeeps(a, ["--network", dropped] + b);
  }

  /** Every setting but the volumes and, in allowlist mode, the variables. */
  lemma CreatedConfiguration(req: CreateRequest, host: Host, bytes: nat)
    requires Size.ParseSize(req.policy.resources.memory) == Success(bytes)
    ensures CreatedArgs(req, host).Success? && ReadRun(CreatedArgs(req, host).value).Some?
    ensures var c := ReadRun(CreatedArgs(req, host).value).value;
            var mode := req.policy.network.mode;
            && c.detach == !req.ephemeral && c.remove == req.ephemeral
            && c.names == ["ssbx-" + req.name]
            && c.cpus == [host.showCpus(req.policy.resources.cpus)]
            && c.memory == [ShowNat(bytes)]
            && c.networks == (if mode == NoNetwork then ["none"] else [])
            && c.workdirs == (if req.policy.filesystem.workdir then ["/workspace"] else [])
            && (req.policy.filesystem.workdir ==>
                  c.volumes != [] && c.volumes[0] == host.canonical(req.workdir) + ":/workspace:rw")
            && c.tmpfs == ["/tmp:rw,size=64m"]
            && c.hosts == (if mode == Allowlist then ["host.docker.internal:host-gateway"] else [])
            && c.image == "docker.io/library/alpine:3.20"
            && (req.command == [] ==> c.command == ["sleep", "infinity"])
            && (req.command != [] && (mode != Allowlist || "--network" !in req.command) ==> c.command == req.command)
            && |req.env| <= |c.env| && (mode != Allowlist || host.proxyPort.None? ==> |c.env| == |req.env|)
            && (forall i :: 0 <= i < |req.env| ==> c.env[i] == req.env[i].0 + "=" + req.env[i].1)
  {
    CreatedArgsReadBack(req, host);
    GuestCommandKept(GuestCommand(req.command));
    SleepIsKept();
    hide CreatedArgs, ReadRun, Size.ParseSize, Mounts, SkipNetwork, ProxyWords;
  }

  lemma SleepIsKept()
    ensures "--network" !in ["sleep", "infinity"]
  {
    assert "sleep"[0] == 's' && "infinity"[0] == 'i' && "--network"[0] == '-';
  }
}
