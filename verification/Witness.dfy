/** The hypotheses of the theorems about runs and mac sandboxes hold of an actual run. */
module Witness {
  import opened Wrappers
  import opened Text
  import opened Policy
  import opened ConfigDir
  import opened Store
  import opened MacRuntime
  import opened Commands
  import opened Lifecycle
  import opened Runs
  import Agreement
  import PolicyText
  import Size

  lemma TwoGigabytes()
    ensures Size.ParseSize("2G").Success?
  {
    assert Trim("2G") == "2G" by {
      TrimUnique("", "2G", "");
      assert "" + "2G" + "" == "2G";
    }
    assert "2G"[..1] == "2" && ["2G"[1]] == "G";
    assert Size.SplitUnit("2G") == ("2", "G");
    assert "2"[1..] == "";
    assert Size.Accumulate(2, "") == Some(2);
    assert Size.Accumulate(0, "2") == Some(2);
    assert "2"[0] != '+';
  }

  lemma DefaultIsValid(mechanism: MechanismKind)
    ensures Complaint(DEFAULT_POLICY.(mechanism := Some(mechanism))).None?
  {
    TwoGigabytes();
    hide Size.ParseSize;
  }

  /** A mac on which every policy fits, and a create with the default policy. */
  function RoomyMac(yaml: Yaml): Setting {
    Setting(yaml, p => p, _ => true, MacOs, "/root")
  }

  const PLAIN_CREATE :=
    CreateInput(None, None, None, None, Some(Mac), "/work", true, true, None, "id", 0, None)

  lemma PlainCreateIsPrepared(yaml: Yaml)
    ensures MacPrepared(RoomyMac(yaml), PLAIN_CREATE) && NameOk(Create(PLAIN_CREATE))
  {
    DefaultIsValid(Mac);
    hide Complaint;
    assert Overridden(DEFAULT_POLICY, PLAIN_CREATE) == DEFAULT_POLICY.(mechanism := Some(Mac));
    assert "default"[0] == 'd' && "."[0] == '.' && ".."[0] == '.';
  }

  lemma PlainCreateIsStored(setting: Setting, input: CreateInput)
    requires MacPrepared(setting, input)
    ensures var d := Done(NEW_DISK, setting, Create(input));
            d.index.Some? && exists r :: r in d.index.value.sandboxes && r.mechanism == Mac
  {
    var d0 := After(NEW_DISK, OpenWrites(NEW_DISK));
    DoneAfterOpening(NEW_DISK, setting, Create(input));
    MacReachesStore(d0, setting, input);
    CreateEnds(d0, setting, input);
    CreatedRecordIs(d0, setting, input);
    hide Prepared, Done, CommandEffect, CreateEffect, ReachesStore, CreatedRecord;
    var r := CreatedRecord(d0, setting, input);
    assert Done(NEW_DISK, setting, Create(input)).index.value.sandboxes == [] + [r];
    assert ([] + [r])[0] == r;
  }

  /** A run of create commands with proper names that leaves a mac sandbox stored. */
  ghost predicate StoresMac(setting: Setting, cs: seq<Command>) {
    && (forall i :: 0 <= i < |cs| ==> NameOk(cs[i]))
    && var d := RunAll(setting, NEW_DISK, cs);
       d.index.Some? && exists r :: r in d.index.value.sandboxes && r.mechanism == Mac
  }

  lemma PlainRunStoresMac(yaml: Yaml)
    ensures StoresMac(RoomyMac(yaml), [Create(PLAIN_CREATE)])
  {
    PlainCreateIsPrepared(yaml);
    PlainCreateIsStored(RoomyMac(yaml), PLAIN_CREATE);
    OneCommandRun(RoomyMac(yaml), Create(PLAIN_CREATE));
    hide MacPrepared, Done, NameOk, RunAll;
  }

  lemma OneCommandRun(setting: Setting, c: Command)
    ensures RunAll(setting, NEW_DISK, [c]) == Done(NEW_DISK, setting, c)
  {
    hide Done;
    assert [c][..0] == [];
  }

  /** There is a run, with texts for policies, after which a mac sandbox is stored. */
  lemma MacSandboxExists(digest: string -> string)
    ensures exists setting: Setting, cs: seq<Command> ::
              setting.yaml.RoundTrip() && setting.yaml.digest == digest && StoresMac(setting, cs)
  {
    PolicyText.RoundTripCanBeMet(digest);
    var yaml: Yaml :| yaml.RoundTrip() && yaml.digest == digest;
    PlainRunStoresMac(yaml);
    hide StoresMac;
    assert RoomyMac(yaml).yaml == yaml;
  }

  /** The same create with another CPU count. */
  const OTHER_CREATE := PLAIN_CREATE.(cpus := Some(Number(false, 0x3FF0_0000_0000_0000)))

  lemma OtherCreateIsPrepared(yaml: Yaml)
    ensures MacPrepared(RoomyMac(yaml), OTHER_CREATE)
    ensures Prepared(RoomyMac(yaml), OTHER_CREATE).value != Prepared(RoomyMac(yaml), PLAIN_CREATE).value
  {
    PlainCreateIsPrepared(yaml);
    TwoGigabytes();
    hide Size.ParseSize;
  }

  /** There are two creates of one name of which the second is refused and leaves a wrong hash. */
  lemma ClobberExists()
    ensures exists setting: Setting, first: CreateInput, second: CreateInput ::
              var d := Done(NEW_DISK, setting, Create(first));
              && setting.yaml.RoundTrip()
              && Agreement.HashesAgree(setting, d)
              && CommandEffect(d, setting, Create(second)).result == Failure(AlreadyExists)
              && !Agreement.HashesAgree(setting, Done(d, setting, Create(second)))
  {
    PolicyText.RoundTripCanBeMet(text => text);
    var yaml: Yaml :| yaml.RoundTrip() && yaml.digest == (text => text);
    var setting := RoomyMac(yaml);
    PlainCreateIsPrepared(yaml);
    OtherCreateIsPrepared(yaml);
    var p, q := Prepared(setting, PLAIN_CREATE).value, Prepared(setting, OTHER_CREATE).value;
    hide Prepared, Done, Agreement.HashesAgree, CommandEffect;
    assert yaml.parse(yaml.render(p)) == Some(p) && yaml.parse(yaml.render(q)) == Some(q);
    assert yaml.digest(yaml.render(p)) == yaml.render(p) && yaml.digest(yaml.render(q)) == yaml.render(q);
    Agreement.SecondCreateClobbers(setting, PLAIN_CREATE, OTHER_CREATE);
  }
}
