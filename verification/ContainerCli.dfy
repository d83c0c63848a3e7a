/**
 The reader that the container CLI applies to an argument list, and the proof that what it
 reads from a compiled request is what the request asks for.
 */
module ContainerCli {
  import opened Wrappers
  import opened Text
  import opened Policy
  import opened Podman

  /** Everything an argument list can say; repeated options keep their order. */
  datatype Config = Config(
    detach: bool,
    remove: bool,
    names: seq<string>,
    cpus: seq<string>,
    memory: seq<string>,
    networks: seq<string>,
    volumes: seq<string>,
    workdirs: seq<string>,
    tmpfs: seq<string>,
    env: seq<string>,
    hosts: seq<string>,
    image: string,
    command: seq<string>)

  const EMPTY := Config(false, false, [], [], [], [], [], [], [], [], [], "", [])

  /** The number of characters before the first equals sign. */
  function EqualsAt(s: string): (n: nat)
    ensures n <= |s|
    ensures n < |s| ==> s[n] == '='
    ensures '=' !in s[..n]
  {
    if s == "" || s[0] == '=' then 0 else
    var n := 1 + EqualsAt(s[1..]);
    assert s[..n] == [s[0]] + s[1..][..n - 1];
    n
  }

  /** One valued option; None when the CLI does not know it. */
  function Assign(cfg: Config, option: string, value: string): Option<Config> {
    if option == "--name" then Some(cfg.(names := cfg.names + [value]))
    else if option == "--cpus" then Some(cfg.(cpus := cfg.cpus + [value]))
    else if option == "--memory" then Some(cfg.(memory := cfg.memory + [value]))
    else if option == "--network" then Some(cfg.(networks := cfg.networks + [value]))
    else if option == "-v" then Some(cfg.(volumes := cfg.volumes + [value]))
    else if option == "-w" then Some(cfg.(workdirs := cfg.workdirs + [value]))
    else if option == "--tmpfs" then Some(cfg.(tmpfs := cfg.tmpfs + [value]))
    else if option == "-e" then Some(cfg.(env := cfg.env + [value]))
    else if option == "--add-host" then Some(cfg.(hosts := cfg.hosts + [value]))
    else None
  }

  predicate IsOption(token: string) {
    token != "" && token[0] == '-'
  }

  /**
   Flags stand alone, a valued option has its value after an equals sign or in the next
   token, the first token that is no option is the image, and the rest is the guest command.
   */
  function ReadOptions(cfg: Config, tokens: seq<string>): Option<Config>
    decreases |tokens|
  {
    if tokens == [] then None else
    var t := tokens[0];
    if !IsOption(t) then Some(cfg.(image := t, command := tokens[1..]))
    else if t == "-d" then ReadOptions(cfg.(detach := true), tokens[1..])
    else if t == "--rm" then ReadOptions(cfg.(remove := true), tokens[1..])
    else
      var n := EqualsAt(t);
      if n < |t| then
        match Assign(cfg, t[..n], t[n + 1..])
        case None => None
        case Some(next) => ReadOptions(next, tokens[1..])
      else if |tokens| < 2 then None
      else
        match Assign(cfg, t, tokens[1])
        case None => None
        case Some(next) => ReadOptions(next, tokens[2..])
  }

  function ReadRun(args: seq<string>): Option<Config> {
    if args == [] || args[0] != "run" then None else ReadOptions(EMPTY, args[1..])
  }

  /** What a create request asks of the container engine. */
  function Intended(req: CreateRequest, host: Host, image: string, name: string, detach: bool, memory: nat): Config {
    Config(
      detach,
      !detach,
      [ContainerName(name)],
      [host.showCpus(req.policy.resources.cpus)],
      [ShowNat(memory)],
      if req.policy.network.mode == Unrestricted then [] else ["none"],
      (if req.policy.filesystem.workdir then [WorkspaceBind(req, host)] else []) + ListedMounts(req, host),
      if req.policy.filesystem.workdir then ["/workspace"] else [],
      [TMPFS],
      EnvWords(req.env),
      if req.policy.network.mode == Allowlist && host.proxyPort.Some? then [GATEWAY] else [],
      image,
      GuestCommand(req.command))
  }

  // ---------- Reading one segment at a time ----------

  lemma {:induction false} EqualsAtOf(head: string, tail: string)
    requires '=' !in head
    ensures EqualsAt(head + "=" + tail) == |head|
  {
    if head == "" {
      assert (head + "=" + tail)[0] == '=';
    } else {
      assert head[0] in head;
      assert (head + "=" + tail)[1..] == head[1..] + "=" + tail;
      EqualsAtOf(head[1..], tail);
    }
  }

  lemma {:induction false} NoEquals(s: string)
    requires '=' !in s
    ensures EqualsAt(s) == |s|
  {
    if s != "" {
      assert s[0] in s;
      NoEquals(s[1..]);
    }
  }

  predicate IsValued(option: string) {
    IsOption(option) && '=' !in option && option != "-d" && option != "--rm"
  }

  /** An option and its value in two tokens. */
  lemma ReadPair(cfg: Config, option: string, value: string, rest: seq<string>)
    requires IsValued(option)
    ensures ReadOptions(cfg, [option, value] + rest) ==
            match Assign(cfg, option, value) case None => None case Some(next) => ReadOptions(next, rest)
  {
    hide Assign;
    var tokens := [option, value] + rest;
    NoEquals(option);
    assert tokens[0] == option && tokens[1] == value && tokens[2..] == rest;
  }

  /** An option and its value in one token. */
  lemma ReadEquals(cfg: Config, option: string, value: string, rest: seq<string>)
    requires IsValued(option)
    ensures ReadOptions(cfg, [option + "=" + value] + rest) ==
            match Assign(cfg, option, value) case None => None case Some(next) => ReadOptions(next, rest)
  {
    hide Assign;
    var t := option + "=" + value;
    var tokens := [t] + rest;
    EqualsAtOf(option, value);
    assert t[..|option|] == option && t[|option| + 1..] == value;
    assert t[0] == option[0];
    assert tokens[0] == t && tokens[1..] == rest;
    assert t != "-d" && t != "--rm" by {
      assert t[|option|] == '=';
    }
  }

  lemma ReadFlag(cfg: Config, detach: bool, rest: seq<string>)
    ensures ReadOptions(cfg, [if detach then "-d" else "--rm"] + rest) ==
            ReadOptions(if detach then cfg.(detach := true) else cfg.(remove := true), rest)
  {
    var tokens := [if detach then "-d" else "--rm"] + rest;
    assert tokens[1..] == rest;
    assert "--rm"[1] == '-' && "-d"[1] == 'd';
  }

  lemma ReadImage(cfg: Config, image: string, command: seq<string>)
    requires !IsOption(image)
    ensures ReadOptions(cfg, [image] + command) == Some(cfg.(image := image, command := command))
  {
    assert ([image] + command)[1..] == command;
  }

  /** The options the compiler uses are all valued ones. */
  lemma ValuedOptions()
    ensures IsValued("--name") && IsValued("--cpus") && IsValued("--memory") && IsValued("--network")
    ensures IsValued("-v") && IsValued("-w") && IsValued("--tmpfs") && IsValued("-e") && IsValued("--add-host")
  {
    assert "--name"[2] == 'n' && "--rm"[2] == 'r' && "--cpus"[2] == 'c';
    assert "-v"[1] == 'v' && "-w"[1] == 'w' && "-e"[1] == 'e' && "-d"[1] == 'd';
  }

  /** Each of them sets its own field. */
  lemma Assignments(cfg: Config, v: string)
    ensures Assign(cfg, "--name", v) == Some(cfg.(names := cfg.names + [v]))
    ensures Assign(cfg, "--cpus", v) == Some(cfg.(cpus := cfg.cpus + [v]))
    ensures Assign(cfg, "--memory", v) == Some(cfg.(memory := cfg.memory + [v]))
    ensures Assign(cfg, "--network", v) == Some(cfg.(networks := cfg.networks + [v]))
    ensures Assign(cfg, "-v", v) == Some(cfg.(volumes := cfg.volumes + [v]))
    ensures Assign(cfg, "-w", v) == Some(cfg.(workdirs := cfg.workdirs + [v]))
    ensures Assign(cfg, "--tmpfs", v) == Some(cfg.(tmpfs := cfg.tmpfs + [v]))
    ensures Assign(cfg, "-e", v) == Some(cfg.(env := cfg.env + [v]))
    ensures Assign(cfg, "--add-host", v) == Some(cfg.(hosts := cfg.hosts + [v]))
  {
    assert "--name"[2] == 'n' && "--cpus"[2] == 'c';
    assert "-v"[1] == 'v' && "-w"[1] == 'w' && "-e"[1] == 'e';
  }

  lemma {:induction false} ReadVolumes(cfg: Config, specs: seq<string>, rest: seq<string>)
    ensures ReadOptions(cfg, Repeat("-v", specs) + rest) == ReadOptions(cfg.(volumes := cfg.volumes + specs), rest)
    decreases |specs|
  {
    hide Assign;
    if specs == [] {
      assert Repeat("-v", specs) + rest == rest;
      assert cfg.volumes + specs == cfg.volumes;
    } else {
      var last := |specs| - 1;
      var tail := ["-v", specs[last]] + rest;
      assert Repeat("-v", specs) + rest == Repeat("-v", specs[..last]) + tail;
      ReadVolumes(cfg, specs[..last], tail);
      var mid := cfg.(volumes := cfg.volumes + specs[..last]);
      ValuedOptions();
      ReadPair(mid, "-v", specs[last], rest);
      Assignments(mid, specs[last]);
      assert cfg.volumes + specs == cfg.volumes + specs[..last] + [specs[last]];
    }
  }

  lemma {:induction false} ReadEnv(cfg: Config, words: seq<string>, rest: seq<string>)
    ensures ReadOptions(cfg, Repeat("-e", words) + rest) == ReadOptions(cfg.(env := cfg.env + words), rest)
    decreases |words|
  {
    hide Assign;
    if words == [] {
      assert Repeat("-e", words) + rest == rest;
      assert cfg.env + words == cfg.env;
    } else {
      var last := |words| - 1;
      var tail := ["-e", words[last]] + rest;
      assert Repeat("-e", words) + rest == Repeat("-e", words[..last]) + tail;
      ReadEnv(cfg, words[..last], tail);
      var mid := cfg.(env := cfg.env + words[..last]);
      ValuedOptions();
      ReadPair(mid, "-e", words[last], rest);
      Assignments(mid, words[last]);
      assert cfg.env + words == cfg.env + words[..last] + [words[last]];
    }
  }

  lemma ReadHead(hosts: seq<string>, req: CreateRequest, host: Host, name: string, detach: bool, memory: nat,
                 rest: seq<string>)
    ensures ReadOptions(EMPTY.(hosts := hosts), HeadArgs(req, host, name, detach, memory) + rest) ==
            ReadOptions(EMPTY.(hosts := hosts, detach := detach, remove := !detach, names := [ContainerName(name)],
                               cpus := [host.showCpus(req.policy.resources.cpus)], memory := [ShowNat(memory)]), rest)
  {
    hide Assign, ReadOptions;
    var cpus, mem := host.showCpus(req.policy.resources.cpus), ShowNat(memory);
    var start := EMPTY.(hosts := hosts);
    var cfg := if detach then start.(detach := true) else start.(remove := true);
    ValuedOptions();
    assert "--cpus=" == "--cpus" + "=" && "--memory=" == "--memory" + "=";
    var rest3 := ["--memory" + "=" + mem] + rest;
    var rest2 := ["--cpus" + "=" + cpus] + rest3;
    var rest1 := ["--name", ContainerName(name)] + rest2;
    assert HeadArgs(req, host, name, detach, memory) + rest == [if detach then "-d" else "--rm"] + rest1;
    ReadFlag(start, detach, rest1);
    ReadPair(cfg, "--name", ContainerName(name), rest2);
    Assignments(cfg, ContainerName(name));
    var cfg1 := cfg.(names := cfg.names + [ContainerName(name)]);
    ReadEquals(cfg1, "--cpus", cpus, rest3);
    Assignments(cfg1, cpus);
    var cfg2 := cfg1.(cpus := cfg1.cpus + [cpus]);
    ReadEquals(cfg2, "--memory", mem, rest);
    Assignments(cfg2, mem);
    assert [] + [ContainerName(name)] == [ContainerName(name)];
    assert [] + [cpus] == [cpus] && [] + [mem] == [mem];
  }

  lemma ReadNetwork(cfg: Config, mode: NetworkMode, rest: seq<string>)
    ensures ReadOptions(cfg, NetworkArgs(mode) + rest) ==
            ReadOptions(cfg.(networks := cfg.networks + if mode == Unrestricted then [] else ["none"]), rest)
  {
    hide Assign, ReadOptions;
    ValuedOptions();
    if mode == Unrestricted {
      assert NetworkArgs(mode) + rest == rest;
      assert cfg.networks + [] == cfg.networks;
    } else {
      ReadPair(cfg, "--network", "none", rest);
      Assignments(cfg, "none");
    }
  }

  lemma ReadWorkspace(cfg: Config, req: CreateRequest, host: Host, rest: seq<string>)
    requires cfg.workdirs == []
    ensures ReadOptions(cfg, WorkspaceArgs(req, host) + rest) ==
            ReadOptions(if req.policy.filesystem.workdir
                        then cfg.(volumes := cfg.volumes + [WorkspaceBind(req, host)], workdirs := ["/workspace"])
                        else cfg, rest)
  {
    hide Assign, ReadOptions, WorkspaceBind;
    ValuedOptions();
    if req.policy.filesystem.workdir {
      var bind := WorkspaceBind(req, host);
      assert WorkspaceArgs(req, host) + rest == ["-v", bind] + (["-w", "/workspace"] + rest);
      ReadPair(cfg, "-v", bind, ["-w", "/workspace"] + rest);
      Assignments(cfg, bind);
      var cfg1 := cfg.(volumes := cfg.volumes + [bind]);
      ReadPair(cfg1, "-w", "/workspace", rest);
      Assignments(cfg1, "/workspace");
      assert cfg.workdirs + ["/workspace"] == ["/workspace"];
    } else {
      assert WorkspaceArgs(req, host) + rest == rest;
    }
  }

  lemma ReadGateway(cfg: Config, args: seq<string>, rest: seq<string>)
    requires args == [] || args == ["--add-host", GATEWAY]
    ensures ReadOptions(cfg, args + rest) ==
            ReadOptions(cfg.(hosts := cfg.hosts + if args == [] then [] else [GATEWAY]), rest)
  {
    hide Assign, ReadOptions;
    ValuedOptions();
    if args == [] {
      assert args + rest == rest;
      assert cfg.hosts + [] == cfg.hosts;
    } else {
      ReadPair(cfg, "--add-host", GATEWAY, rest);
      Assignments(cfg, GATEWAY);
    }
  }

  lemma ReadTmpfs(cfg: Config, rest: seq<string>)
    ensures ReadOptions(cfg, ["--tmpfs", TMPFS] + rest) == ReadOptions(cfg.(tmpfs := cfg.tmpfs + [TMPFS]), rest)
  {
    hide Assign, ReadOptions;
    ValuedOptions();
    ReadPair(cfg, "--tmpfs", TMPFS, rest);
    Assignments(cfg, TMPFS);
  }

  /** The options of a request, read in front of anything, give its configuration. */
  lemma ReadAllOptions(hosts: seq<string>, req: CreateRequest, host: Host, name: string, detach: bool, memory: nat,
                       rest: seq<string>)
    ensures var intended := Intended(req, host, "", name, detach, memory);
            ReadOptions(EMPTY.(hosts := hosts), Options(req, host, name, detach, memory) + rest) ==
            ReadOptions(intended.(hosts := hosts + intended.hosts, command := []), rest)
  {
    hide Assign, ReadOptions, HeadArgs, NetworkArgs, WorkspaceArgs, Repeat, ListedMounts, EnvWords;
    var mode := req.policy.network.mode;
    var gateway := GatewayArgs(mode, host);
    var env := Repeat("-e", EnvWords(req.env));
    var mounts := Repeat("-v", ListedMounts(req, host));
    var rest6 := gateway + rest;
    var rest5 := env + rest6;
    var rest4 := ["--tmpfs", TMPFS] + rest5;
    var rest3 := mounts + rest4;
    var rest2 := WorkspaceArgs(req, host) + rest3;
    var rest1 := NetworkArgs(mode) + rest2;
    assert Options(req, host, name, detach, memory) + rest == HeadArgs(req, host, name, detach, memory) + rest1 by {
      Nest(HeadArgs(req, host, name, detach, memory), NetworkArgs(mode), WorkspaceArgs(req, host), mounts,
           ["--tmpfs", TMPFS], env, gateway, rest);
    }
    ReadHead(hosts, req, host, name, detach, memory, rest1);
    var cfg := EMPTY.(hosts := hosts, detach := detach, remove := !detach, names := [ContainerName(name)],
                      cpus := [host.showCpus(req.policy.resources.cpus)], memory := [ShowNat(memory)]);
    ReadNetwork(cfg, mode, rest2);
    var cfg1 := cfg.(networks := cfg.networks + if mode == Unrestricted then [] else ["none"]);
    ReadWorkspace(cfg1, req, host, rest3);
    var cfg2 := if req.policy.filesystem.workdir
                then cfg1.(volumes := cfg1.volumes + [WorkspaceBind(req, host)], workdirs := ["/workspace"]) else cfg1;
    ReadVolumes(cfg2, ListedMounts(req, host), rest4);
    var cfg3 := cfg2.(volumes := cfg2.volumes + ListedMounts(req, host));
    ReadTmpfs(cfg3, rest5);
    var cfg4 := cfg3.(tmpfs := cfg3.tmpfs + [TMPFS]);
    ReadEnv(cfg4, EnvWords(req.env), rest6);
    var cfg5 := cfg4.(env := cfg4.env + EnvWords(req.env));
    ReadGateway(cfg5, gateway, rest);
    var plain := Intended(req, host, "", name, detach, memory);
    var intended := plain.(hosts := hosts + plain.hosts, command := []);
    var final := cfg5.(hosts := cfg5.hosts + if gateway == [] then [] else [GATEWAY]);
    assert final.networks == intended.networks;
    assert final.volumes == intended.volumes;
    assert final.tmpfs == intended.tmpfs;
    assert final.env == intended.env;
    assert final == intended;
  }

  lemma Nest(a: seq<string>, b: seq<string>, c: seq<string>, d: seq<string>,
             e: seq<string>, f: seq<string>, g: seq<string>, h: seq<string>)
    ensures (a + b + c + d + e + f + g) + h == a + (b + (c + (d + (e + (f + (g + h))))))
  {
  }

  /** Whatever is read, the image is no option. */
  lemma {:induction false} ImageIsNoOption(cfg: Config, tokens: seq<string>)
    ensures ReadOptions(cfg, tokens).Some? ==> !IsOption(ReadOptions(cfg, tokens).value.image)
    decreases |tokens|
  {
    hide Assign;
    if tokens != [] && IsOption(tokens[0]) {
      var t := tokens[0];
      var n := EqualsAt(t);
      if t == "-d" {
        ImageIsNoOption(cfg.(detach := true), tokens[1..]);
      } else if t == "--rm" {
        ImageIsNoOption(cfg.(remove := true), tokens[1..]);
      } else if n < |t| {
        var next := Assign(cfg, t[..n], t[n + 1..]);
        if next.Some? {
          ImageIsNoOption(next.value, tokens[1..]);
        }
      } else if |tokens| >= 2 {
        var next := Assign(cfg, t, tokens[1]);
        if next.Some? {
          ImageIsNoOption(next.value, tokens[2..]);
        }
      }
    }
  }

  /** Read back, a compiled request is exactly the intended configuration, if and only if its image is no option. */
  lemma RunArgsReadBack(req: CreateRequest, host: Host, image: string, name: string, detach: bool, memory: nat)
    ensures var read := ReadRun(RunArgs(req, host, image, name, detach, memory));
            read == Some(Intended(req, host, image, name, detach, memory)) <==> !IsOption(image)
  {
    hide Assign, ReadOptions, Options, GuestCommand;
    var args := RunArgs(req, host, image, name, detach, memory);
    ImageIsNoOption(EMPTY, args[1..]);
    if !IsOption(image) {
      var rest := [image] + GuestCommand(req.command);
      assert args[0] == "run";
      assert args[1..] == Options(req, host, name, detach, memory) + rest;
      ReadAllOptions([], req, host, name, detach, memory, rest);
      var intended := Intended(req, host, "", name, detach, memory);
      assert [] + intended.hosts == intended.hosts;
      ReadImage(intended.(command := []), image, GuestCommand(req.command));
    }
  }

  // ---------- The environment a container sees ----------

  /** The last `-e` for a key wins; a word is split at its first equals sign. */
  function Environment(words: seq<string>): map<string, string> {
    if words == [] then map[] else
    var word := words[|words| - 1];
    var before := Environment(words[..|words| - 1]);
    var n := EqualsAt(word);
    if n < |word| then before[word[..n] := word[n + 1..]] else before
  }

  function PairsMap(env: seq<(string, string)>): map<string, string> {
    if env == [] then map[] else
    var last := |env| - 1;
    PairsMap(env[..last])[env[last].0 := env[last].1]
  }

  /** A pair reads back as itself if and only if its key has no equals sign. */
  lemma EnvWordReadsBack(pair: (string, string))
    ensures var word := EnvWord(pair);
            var n := EqualsAt(word);
            n < |word| && ((word[..n], word[n + 1..]) == pair <==> '=' !in pair.0)
  {
    var word := EnvWord(pair);
    assert word == pair.0 + "=" + pair.1;
    assert word[|pair.0|] == '=';
    assert word[..|word|] == word;
    assert '=' in word;
    if '=' !in pair.0 {
      EqualsAtOf(pair.0, pair.1);
      assert word[..|pair.0|] == pair.0 && word[|pair.0| + 1..] == pair.1;
    }
  }

  predicate KeysPlain(env: seq<(string, string)>) {
    forall i :: 0 <= i < |env| ==> '=' !in env[i].0
  }

  lemma {:induction false} PlainEnvReadsBack(env: seq<(string, string)>)
    requires KeysPlain(env)
    ensures Environment(EnvWords(env)) == PairsMap(env)
  {
    if env != [] {
      var last := |env| - 1;
      PlainEnvReadsBack(env[..last]);
      EnvWordReadsBack(env[last]);
      assert EnvWords(env)[..last] == EnvWords(env[..last]);
      assert EnvWords(env)[last] == EnvWord(env[last]);
    }
  }

  lemma {:induction false} KeysReadArePlain(words: seq<string>, key: string)
    requires key in Environment(words)
    ensures '=' !in key
  {
    var word := words[|words| - 1];
    var n := EqualsAt(word);
    if key in Environment(words[..|words| - 1]) {
      KeysReadArePlain(words[..|words| - 1], key);
    }
  }

  lemma {:induction false} KeysAreMapped(env: seq<(string, string)>, i: nat)
    requires i < |env|
    ensures env[i].0 in PairsMap(env)
  {
    if i < |env| - 1 {
      KeysAreMapped(env[..|env| - 1], i);
    }
  }

  /**
   The environment read back is the request's, the last value of a key winning, if and only
   if no key has an equals sign.
   */
  lemma EnvReadsBack(env: seq<(string, string)>)
    ensures Environment(EnvWords(env)) == PairsMap(env) <==> KeysPlain(env)
  {
    if KeysPlain(env) {
      PlainEnvReadsBack(env);
    } else {
      var i :| 0 <= i < |env| && '=' in env[i].0;
      KeysAreMapped(env, i);
      if env[i].0 in Environment(EnvWords(env)) {
        KeysReadArePlain(EnvWords(env), env[i].0);
      }
    }
  }
}
