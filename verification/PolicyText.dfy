/**
 A printer and a parser of policies that meet the one assumption made of YAML. The
 encoding is not YAML; it shows that the assumption can be met by texts.
 */
module PolicyText {
  import opened Wrappers
  import opened Text
  import opened Paths
  import opened Policy

  /** A text behind its length. */
  function Word(s: string): string {
    ShowNat(|s|) + "/" + s
  }

  function Encode(words: seq<string>): string {
    if words == [] then "" else Word(words[0]) + Encode(words[1..])
  }

  lemma DigitsHaveNoSlash(s: string)
    requires Digits(s)
    ensures '/' !in s
  {
    forall i | 0 <= i < |s|
      ensures s[i] != '/'
    {
      assert IsDigit(s[i]);
    }
  }

  lemma LengthOfWord(s: string, rest: string)
    ensures SegmentLength(Word(s) + rest) == |ShowNat(|s|)|
  {
    var n := ShowNat(|s|);
    DigitsHaveNoSlash(n);
    assert Word(s) + rest == n + ("/" + s + rest);
    assert ("/" + s + rest)[0] == '/';
    SegmentLengthOf(n, "/" + s + rest);
  }

  /** No word is the beginning of another. */
  lemma WordsApart(a: string, x: string, b: string, y: string)
    requires Word(a) + x == Word(b) + y
    ensures a == b && x == y
  {
    LengthOfWord(a, x);
    LengthOfWord(b, y);
    var m, n := ShowNat(|a|), ShowNat(|b|);
    var s, t := Word(a) + x, Word(b) + y;
    assert s[..|m|] == m && t[..|n|] == n;
    ShowNatInjective(|a|, |b|);
    assert s[|m| + 1..][..|a|] == a && t[|n| + 1..][..|b|] == b;
    assert s[|m| + 1..][|a|..] == x && t[|n| + 1..][|b|..] == y;
  }

  lemma {:induction false} EncodeInjective(a: seq<string>, b: seq<string>)
    requires Encode(a) == Encode(b)
    ensures a == b
  {
    if a != [] && b != [] {
      hide Word;
      WordsApart(a[0], Encode(a[1..]), b[0], Encode(b[1..]));
      EncodeInjective(a[1..], b[1..]);
      assert a == [a[0]] + a[1..] && b == [b[0]] + b[1..];
    }
  }

  // ---------- Policies as words ----------

  function Bit(b: bool): string {
    if b then "1" else "0"
  }

  function EndpointWords(endpoints: seq<Endpoint>): seq<string> {
    if endpoints == [] then [] else
    [endpoints[0].host, ShowNat(endpoints[0].port)] + EndpointWords(endpoints[1..])
  }

  function SecretWords(secrets: seq<SecretRef>): seq<string> {
    if secrets == [] then [] else [secrets[0].env, secrets[0].from] + SecretWords(secrets[1..])
  }

  function FloatWords(x: Float): seq<string> {
    match x
    case NotANumber => []
    case Number(negative, magnitude) => [Bit(negative), ShowNat(magnitude)]
  }

  function ModeWord(mode: NetworkMode): string {
    match mode
    case NoNetwork => "n"
    case Allowlist => "a"
    case Unrestricted => "u"
  }

  function MechanismWord(mechanism: Option<MechanismKind>): string {
    match mechanism
    case None => "n"
    case Some(Podman) => "p"
    case Some(Mac) => "m"
    case Some(Krun) => "k"
    case Some(Auto) => "a"
  }

  function Render(p: SandboxPolicy): string {
    Encode([
      ShowNat(p.version),
      Bit(p.filesystem.workdir),
      Encode(p.filesystem.readOnly),
      Encode(p.filesystem.readWrite),
      ModeWord(p.network.mode),
      Encode(EndpointWords(p.network.endpoints)),
      Encode(FloatWords(p.resources.cpus)),
      p.resources.memory,
      MechanismWord(p.mechanism),
      Encode(SecretWords(p.secrets))])
  }

  lemma {:induction false} EndpointsInjective(a: seq<Endpoint>, b: seq<Endpoint>)
    requires EndpointWords(a) == EndpointWords(b)
    ensures a == b
  {
    if a != [] && b != [] {
      var u, v := EndpointWords(a), EndpointWords(b);
      assert u[0] == a[0].host && u[1] == ShowNat(a[0].port) && u[2..] == EndpointWords(a[1..]);
      assert v[0] == b[0].host && v[1] == ShowNat(b[0].port) && v[2..] == EndpointWords(b[1..]);
      ShowNatInjective(a[0].port, b[0].port);
      EndpointsInjective(a[1..], b[1..]);
      assert a == [a[0]] + a[1..] && b == [b[0]] + b[1..];
    }
  }

  lemma {:induction false} SecretsInjective(a: seq<SecretRef>, b: seq<SecretRef>)
    requires SecretWords(a) == SecretWords(b)
    ensures a == b
  {
    if a != [] && b != [] {
      var u, v := SecretWords(a), SecretWords(b);
      assert u[0] == a[0].env && u[1] == a[0].from && u[2..] == SecretWords(a[1..]);
      assert v[0] == b[0].env && v[1] == b[0].from && v[2..] == SecretWords(b[1..]);
      SecretsInjective(a[1..], b[1..]);
      assert a == [a[0]] + a[1..] && b == [b[0]] + b[1..];
    }
  }

  lemma SmallInjective(x: Float, y: Float, m: Option<MechanismKind>, n: Option<MechanismKind>,
                       j: NetworkMode, k: NetworkMode, a: bool, b: bool)
    ensures FloatWords(x) == FloatWords(y) ==> x == y
    ensures MechanismWord(m) == MechanismWord(n) ==> m == n
    ensures ModeWord(j) == ModeWord(k) ==> j == k
    ensures Bit(a) == Bit(b) ==> a == b
  {
    assert "0"[0] != "1"[0];
    assert "n"[0] == 'n' && "p"[0] == 'p' && "m"[0] == 'm' && "k"[0] == 'k' && "a"[0] == 'a' && "u"[0] == 'u';
    if x.Number? && y.Number? && FloatWords(x) == FloatWords(y) {
      assert FloatWords(x)[0] == FloatWords(y)[0] && FloatWords(x)[1] == FloatWords(y)[1];
      ShowNatInjective(x.magnitude, y.magnitude);
    }
  }

  lemma TenAlike(a: seq<string>, b: seq<string>)
    requires a == b && |a| == 10
    ensures a[0] == b[0] && a[1] == b[1] && a[2] == b[2] && a[3] == b[3] && a[4] == b[4]
    ensures a[5] == b[5] && a[6] == b[6] && a[7] == b[7] && a[8] == b[8] && a[9] == b[9]
  {
  }

  lemma RenderInjective(p: SandboxPolicy, q: SandboxPolicy)
    requires Render(p) == Render(q)
    ensures p == q
  {
    var u := [
      ShowNat(p.version), Bit(p.filesystem.workdir), Encode(p.filesystem.readOnly), Encode(p.filesystem.readWrite),
      ModeWord(p.network.mode), Encode(EndpointWords(p.network.endpoints)), Encode(FloatWords(p.resources.cpus)),
      p.resources.memory, MechanismWord(p.mechanism), Encode(SecretWords(p.secrets))];
    var v := [
      ShowNat(q.version), Bit(q.filesystem.workdir), Encode(q.filesystem.readOnly), Encode(q.filesystem.readWrite),
      ModeWord(q.network.mode), Encode(EndpointWords(q.network.endpoints)), Encode(FloatWords(q.resources.cpus)),
      q.resources.memory, MechanismWord(q.mechanism), Encode(SecretWords(q.secrets))];
    hide Encode, ShowNat, Bit, ModeWord, EndpointWords, FloatWords, MechanismWord, SecretWords;
    EncodeInjective(u, v);
    TenAlike(u, v);
    ShowNatInjective(p.version, q.version);
    EncodeInjective(p.filesystem.readOnly, q.filesystem.readOnly);
    EncodeInjective(p.filesystem.readWrite, q.filesystem.readWrite);
    EncodeInjective(EndpointWords(p.network.endpoints), EndpointWords(q.network.endpoints));
    EndpointsInjective(p.network.endpoints, q.network.endpoints);
    EncodeInjective(FloatWords(p.resources.cpus), FloatWords(q.resources.cpus));
    EncodeInjective(SecretWords(p.secrets), SecretWords(q.secrets));
    SecretsInjective(p.secrets, q.secrets);
    SmallInjective(p.resources.cpus, q.resources.cpus, p.mechanism, q.mechanism, p.network.mode, q.network.mode,
                   p.filesystem.workdir, q.filesystem.workdir);
  }

  ghost function Parse(text: string): Option<SandboxPolicy> {
    if exists p :: Render(p) == text then
      var p :| Render(p) == text;
      Some(p)
    else None
  }

  /** Policies can be printed as text so that parsing gives them back, with any digest. */
  lemma RoundTripCanBeMet(digest: string -> string)
    ensures exists yaml: Yaml :: yaml.RoundTrip() && yaml.digest == digest
  {
    var yaml := Yaml(p => Render(p), text => Parse(text), digest);
    forall p
      ensures yaml.parse(yaml.render(p)) == Some(p)
    {
      var text := Render(p);
      var q := Parse(text).value;
      RenderInjective(p, q);
    }
    assert yaml.RoundTrip() && yaml.digest == digest;
  }
}
