/**
 What agrees between completed commands, and after stops: recorded hashes with policy files,
 failed commands with an unchanged index, policies shown with policies set.
 */
module Agreement {
  import opened Wrappers
  import opened Policy
  import opened State
  import opened ConfigDir
  import opened Store
  import opened MacRuntime
  import opened Commands
  import opened Lifecycle
  import opened Runs

  // ---------- Hashes ----------

  ghost predicate HashOk(setting: Setting, d: Disk, r: Record) {
    r.name in d.policies && r.policyHash == setting.yaml.digest(d.policies[r.name])
  }

  /** Every record's hash is the digest of its policy file. */
  ghost predicate HashesAgree(setting: Setting, d: Disk) {
    d.index.Some? ==> forall i :: 0 <= i < |d.index.value.sandboxes| ==> HashOk(setting, d, d.index.value.sandboxes[i])
  }

  /**
   A create command that gets as far as writing the policy file of a name already stored
   under another hash. Its policy is known before the command runs.
   */
  ghost predicate Clobbers(d: Disk, setting: Setting, c: Command) {
    && c.Create? && d.index.Some?
    && ReachesStore(d, setting, c.input)
    && exists i :: 0 <= i < |d.index.value.sandboxes|
         && d.index.value.sandboxes[i].name == NameOf(c.input)
         && d.index.value.sandboxes[i].policyHash != setting.yaml.ContentHash(Prepared(setting, c.input).value)
  }

  lemma CreateHashes(d: Disk, setting: Setting, input: CreateInput)
    requires d.index.Some? && HashesAgree(setting, d)
    ensures HashesAgree(setting, After(d, CreateEffect(d, setting, input).writes)) <==>
            !Clobbers(d, setting, Create(input))
  {
    CreateEnds(d, setting, input);
    if ReachesStore(d, setting, input) {
      CreatedRecordIs(d, setting, input);
    }
    hide CreateEffect, Prepared, ReachesStore, CreatedRecord;
    var d' := After(d, CreateEffect(d, setting, input).writes);
    var rs := d.index.value.sandboxes;
    if !ReachesStore(d, setting, input) {
      HashesFrame(setting, d, d');
    } else {
      var name := NameOf(input);
      var policy := Prepared(setting, input).value;
      var text := setting.yaml.render(policy);
      if HasName(rs, name) {
        OverwrittenHashes(setting, d, d', name, text);
      } else {
        var rs' := d'.index.value.sandboxes;
        forall i | 0 <= i < |rs'|
          ensures HashOk(setting, d', rs'[i])
        {
          if i < |rs| {
            assert HashOk(setting, d, rs[i]);
          }
        }
        assert !Clobbers(d, setting, Create(input));
      }
    }
  }

  lemma HashesFrame(setting: Setting, d: Disk, d': Disk)
    requires HashesAgree(setting, d) && d'.index == d.index && d'.policies == d.policies
    ensures HashesAgree(setting, d')
  {
    if d.index.Some? {
      var rs := d.index.value.sandboxes;
      forall i | 0 <= i < |rs|
        ensures HashOk(setting, d', rs[i])
      {
        assert HashOk(setting, d, rs[i]);
      }
    }
  }

  lemma OverwrittenHashes(setting: Setting, d: Disk, d': Disk, name: string, text: string)
    requires HashesAgree(setting, d) && d.index.Some? && d'.index == d.index
    requires d'.policies == d.policies[name := text]
    ensures var rs := d.index.value.sandboxes;
            HashesAgree(setting, d') <==>
            !exists i :: 0 <= i < |rs| && rs[i].name == name && rs[i].policyHash != setting.yaml.digest(text)
  {
    var rs := d.index.value.sandboxes;
    forall i | 0 <= i < |rs|
      ensures HashOk(setting, d', rs[i]) <==> !(rs[i].name == name && rs[i].policyHash != setting.yaml.digest(text))
    {
      assert HashOk(setting, d, rs[i]);
    }
  }

  lemma UpdateHashes(d: Disk, setting: Setting, name: string, policy: SandboxPolicy)
    requires d.index.Some? && StateSound(d.index.value) && HasName(d.index.value.sandboxes, name)
    requires HashesAgree(setting, d)
    ensures HashesAgree(setting, After(d, UpdateEffect(d, setting.yaml, name, policy).writes))
  {
    var s := d.index.value;
    var hash := setting.yaml.ContentHash(policy);
    var n := NamePosition(s.sandboxes, name).value;
    var d' := After(d, UpdateEffect(d, setting.yaml, name, policy).writes);
    var rs' := s.sandboxes[n := s.sandboxes[n].(policyHash := hash)];
    assert d'.index.value.sandboxes == rs';
    forall i | 0 <= i < |rs'|
      ensures HashOk(setting, d', rs'[i])
    {
      assert HashOk(setting, d, s.sandboxes[i]);
      assert i != n ==> s.sandboxes[i].name != s.sandboxes[n].name;
    }
  }

  lemma RmHashes(d: Disk, setting: Setting, target: string, mechanismOk: bool)
    requires d.index.Some? && StateSound(d.index.value) && HashesAgree(setting, d)
    ensures HashesAgree(setting, After(d, RmEffect(d, target, mechanismOk).writes))
  {
    RmEnds(d, target, mechanismOk);
    hide RmEffect;
    var s := d.index.value;
    if RemoveFrom(s, target).Some? {
      var (rest, gone) := RemoveFrom(s, target).value;
      var d' := After(d, RmEffect(d, target, mechanismOk).writes);
      forall i | 0 <= i < |rest.sandboxes|
        ensures HashOk(setting, d', rest.sandboxes[i])
      {
        RemovedLeaves(s, target, i);
        var j :| 0 <= j < |s.sandboxes| && s.sandboxes[j] == rest.sandboxes[i];
        assert HashOk(setting, d, s.sandboxes[j]);
      }
    }
  }

  lemma PolicySetHashes(d: Disk, setting: Setting, key: Option<string>, file: Option<string>)
    requires d.index.Some? && StateSound(d.index.value) && HashesAgree(setting, d)
    ensures HashesAgree(setting, After(d, PolicySetEffect(d, setting, key, file).writes))
  {
    var rec := GetOrLast(d.index.value, key);
    if rec.Some? {
      FoundIsStored(d.index.value, key);
    }
    hide GetOrLast, Preflight, UpdateEffect, HashesAgree;
    var policy := PolicyFromFile(setting.yaml, file);
    if rec.Some? && policy.Success? && Preflight(setting, policy.value).None? {
      UpdateHashes(d, setting, rec.value.name, policy.value);
    }
  }

  /** One completed command keeps the hashes in agreement if and only if it is no clobbering create. */
  lemma HashStep(setting: Setting, d: Disk, c: Command)
    requires Sound(setting, d) && HashesAgree(setting, d)
    ensures HashesAgree(setting, Done(d, setting, c)) <==> !Clobbers(d, setting, c)
  {
    var d0 := After(d, OpenWrites(d));
    DoneAfterOpening(d, setting, c);
    assert Clobbers(d0, setting, c) ==> d.index.Some?;
    match c {
      case Create(input) =>
        CreateHashes(d0, setting, input);
        assert Clobbers(d0, setting, c) <==> Clobbers(d, setting, c);
      case Exec(key, ok) =>
        ExecEnds(d0, key, ok);
        hide GetOrLast, ExecEffect;
        TouchHashes(setting, d0, Done(d, setting, c));
      case PolicyGet(key) =>
      case PolicySet(key, file) => PolicySetHashes(d0, setting, key, file);
      case Rm(target, ok) => RmHashes(d0, setting, target, ok);
    }
  }

  lemma TouchHashes(setting: Setting, d: Disk, d': Disk)
    requires HashesAgree(setting, d) && d.index.Some?
    requires d' == d || exists name :: d' == d.(index := Some(Touched(d.index.value, name)))
    ensures HashesAgree(setting, d')
  {
    var rs := d.index.value.sandboxes;
    forall i | 0 <= i < |rs|
      ensures HashOk(setting, d', rs[i])
    {
      assert HashOk(setting, d, rs[i]);
    }
  }

  /** No create of the run clobbers. */
  ghost predicate Clean(setting: Setting, cs: seq<Command>) {
    forall i :: 0 <= i < |cs| ==> NameOk(cs[i]) && !Clobbers(RunAll(setting, NEW_DISK, cs[..i]), setting, cs[i])
  }

  /** Between the completed commands of a run without clobbering creates every hash is that of its file. */
  lemma {:induction false} HashAgreement(setting: Setting, cs: seq<Command>)
    requires setting.yaml.RoundTrip() && Clean(setting, cs)
    ensures Sound(setting, RunAll(setting, NEW_DISK, cs)) && HashesAgree(setting, RunAll(setting, NEW_DISK, cs))
  {
    hide Sound, HashesAgree, Clobbers, Done;
    if cs == [] {
      NewDiskIsSound(setting);
      NewDiskAgrees(setting);
    } else {
      var init := cs[..|cs| - 1];
      assert Clean(setting, init) by {
        forall i | 0 <= i < |init|
          ensures NameOk(init[i]) && !Clobbers(RunAll(setting, NEW_DISK, init[..i]), setting, init[i])
        {
          assert init[..i] == cs[..i] && init[i] == cs[i];
        }
      }
      HashAgreement(setting, init);
      var d := RunAll(setting, NEW_DISK, init);
      DoneIsSound(setting, d, cs[|cs| - 1]);
      HashStep(setting, d, cs[|cs| - 1]);
    }
  }

  lemma NewDiskAgrees(setting: Setting)
    ensures HashesAgree(setting, NEW_DISK)
  {
  }

  // ---------- Hashes after a stop ----------

  /**
   The stops after which a hash is not that of its file: a clobbering create that got as far
   as the policy file, and a `policy set` with another hash between its two writes.
   */
  ghost predicate CutBreaks(setting: Setting, d: Disk, cut: Cut) {
    d.index.Some? &&
    match cut.command
    case Create(input) =>
      && Clobbers(d, setting, cut.command)
      && cut.stop > |RuntimeEffect(d, setting, input, Prepared(setting, input).value).writes|
    case PolicySet(key, file) =>
      var found := GetOrLast(d.index.value, key);
      var policy := PolicyFromFile(setting.yaml, file);
      && cut.stop == 1 && found.Some? && policy.Success? && Preflight(setting, policy.value).None?
      && found.value.policyHash != setting.yaml.ContentHash(policy.value)
    case _ => false
  }

  lemma CutOfThree(a: seq<Disk>, b: Disk, c: seq<Disk>, k: nat)
    requires |c| <= 1 && k < |a + [b] + c|
    ensures (a + [b] + c)[..k] == if k <= |a| then a[..k] else a + [b]
  {
  }

  lemma CutRuntime(d: Disk, setting: Setting, input: CreateInput, policy: SandboxPolicy, k: nat)
    requires k <= |RuntimeEffect(d, setting, input, policy).writes|
    ensures var d' := After(d, RuntimeEffect(d, setting, input, policy).writes[..k]);
            d'.index == d.index && d'.policies == d.policies
  {
    hide Complete;
  }

  /** A create stopped before its last write. */
  lemma CutCreate(setting: Setting, d: Disk, input: CreateInput, k: nat)
    requires HashesAgree(setting, d) && d.index.Some? && k < |CreateEffect(d, setting, input).writes|
    ensures HashesAgree(setting, After(d, CreateEffect(d, setting, input).writes[..k])) <==>
            !CutBreaks(setting, d, Cut(Create(input), k))
  {
    var policy := Prepared(setting, input).value;
    var runtime := RuntimeEffect(d, setting, input, policy);
    RuntimeKeepsStore(d, setting, input, policy);
    if k <= |runtime.writes| {
      CutRuntime(d, setting, input, policy, k);
    }
    hide Prepared, RuntimeEffect, NewRecord, HashesAgree;
    var d' := After(d, CreateEffect(d, setting, input).writes[..k]);
    if runtime.result.Success? {
      var saved := SavedPolicy(After(d, runtime.writes), setting.yaml, NameOf(input), policy);
      var inserted := InsertEffect(saved, NewRecord(setting, input, policy, runtime.result.value), input.uuid);
      CutOfThree(runtime.writes, saved, inserted.writes, k);
      if k > |runtime.writes| {
        OverwrittenHashes(setting, d, d', NameOf(input), setting.yaml.render(policy));
      }
    }
    if k <= |runtime.writes| {
      HashesFrame(setting, d, d');
    }
  }

  /** Only a `policy set` that succeeds has a write before its last, that of the policy file. */
  lemma HalfPolicySet(setting: Setting, d: Disk, key: Option<string>, file: Option<string>, k: nat)
    requires d.index.Some? && k < |PolicySetEffect(d, setting, key, file).writes|
    ensures var effect := PolicySetEffect(d, setting, key, file);
            var found := GetOrLast(d.index.value, key);
            var policy := PolicyFromFile(setting.yaml, file);
            && k <= 1 && found.Some? && policy.Success? && Preflight(setting, policy.value).None?
            && After(d, effect.writes[..k]) ==
               if k == 0 then d else SavedPolicy(d, setting.yaml, found.value.name, policy.value)
  {
    hide GetOrLast, Preflight, PolicyFromFile, WithHash;
  }

  /** A `policy set` stopped before its last write. */
  lemma CutPolicySet(setting: Setting, d: Disk, key: Option<string>, file: Option<string>, k: nat)
    requires HashesAgree(setting, d) && d.index.Some? && StateSound(d.index.value)
    requires k < |PolicySetEffect(d, setting, key, file).writes|
    ensures HashesAgree(setting, After(d, PolicySetEffect(d, setting, key, file).writes[..k])) <==>
            !CutBreaks(setting, d, Cut(PolicySet(key, file), k))
  {
    HalfPolicySet(setting, d, key, file, k);
    FoundIsUnique(d.index.value, key);
    hide GetOrLast, HashesAgree, PolicyFromFile, PolicySetEffect, StateSound, Preflight;
    if k == 1 {
      var found := GetOrLast(d.index.value, key).value;
      var policy := PolicyFromFile(setting.yaml, file).value;
      OverwrittenHashes(setting, d, SavedPolicy(d, setting.yaml, found.name, policy), found.name,
                        setting.yaml.render(policy));
    }
  }

  /** The record found is the only one of its name. */
  lemma FoundIsUnique(s: State, key: Option<string>)
    requires NamesDistinct(s.sandboxes) && GetOrLast(s, key).Some?
    ensures GetOrLast(s, key).value in s.sandboxes
    ensures var r := GetOrLast(s, key).value;
            forall i :: 0 <= i < |s.sandboxes| && s.sandboxes[i].name == r.name ==> s.sandboxes[i] == r
  {
  }

  lemma HalfRm(d: Disk, target: string, ok: bool, k: nat)
    requires d.index.Some? && 0 < k < |RmEffect(d, target, ok).writes|
    ensures var (rest, gone) := RemoveFrom(d.index.value, target).value;
            var d' := After(d, RmEffect(d, target, ok).writes[..k]);
            && d'.index == Some(rest)
            && (d'.policies == d.policies || d'.policies == d.policies - {gone.name})
  {
    hide RemoveFrom, DirOf, WithoutTree;
  }

  /** An rm stopped before its last write. */
  lemma CutRm(setting: Setting, d: Disk, target: string, ok: bool, k: nat)
    requires HashesAgree(setting, d) && d.index.Some? && StateSound(d.index.value)
    requires k < |RmEffect(d, target, ok).writes|
    ensures HashesAgree(setting, After(d, RmEffect(d, target, ok).writes[..k]))
  {
    var s := d.index.value;
    var (rest, gone) := RemoveFrom(s, target).value;
    var d' := After(d, RmEffect(d, target, ok).writes[..k]);
    if k > 0 {
      HalfRm(d, target, ok, k);
    }
    hide RmEffect;
    if k > 0 {
      forall i | 0 <= i < |rest.sandboxes|
        ensures HashOk(setting, d', rest.sandboxes[i])
      {
        RemovedLeaves(s, target, i);
        var j :| 0 <= j < |s.sandboxes| && s.sandboxes[j] == rest.sandboxes[i];
        assert HashOk(setting, d, s.sandboxes[j]);
      }
    }
  }

  /** On an open store, a command stopped before its last write. */
  lemma CutBody(setting: Setting, d: Disk, c: Command, k: nat)
    requires d.index.Some? && StateSound(d.index.value) && HashesAgree(setting, d)
    requires k < |BodyEffect(d, setting, c).writes|
    ensures HashesAgree(setting, After(d, BodyEffect(d, setting, c).writes[..k])) <==> !CutBreaks(setting, d, Cut(c, k))
  {
    hide CreateEffect, PolicySetEffect, RmEffect, GetOrLast, HashesAgree, Clobbers;
    match c {
      case Create(input) => CutCreate(setting, d, input, k);
      case Exec(key, ok) =>
      case PolicyGet(key) =>
      case PolicySet(key, file) => CutPolicySet(setting, d, key, file, k);
      case Rm(target, ok) => CutRm(setting, d, target, ok, k);
    }
  }

  /** A command that stops anywhere keeps the hashes in agreement if and only if the stop is none of those. */
  lemma CutStep(setting: Setting, d: Disk, cut: Cut)
    requires Sound(setting, d) && HashesAgree(setting, d)
    ensures HashesAgree(setting, After(d, CutWrites(d, setting, cut))) <==> !CutBreaks(setting, d, cut)
  {
    var c := cut.command;
    var d0 := After(d, OpenWrites(d));
    var ws := CommandEffect(d, setting, c).writes;
    if cut.stop >= |ws| {
      assert cut.stop == |ws| ==> ws[..cut.stop] == ws;
      HashStep(setting, d, c);
      WholeCommandBreaks(setting, d, cut);
    } else if cut.stop < |OpenWrites(d)| {
      assert ws[..cut.stop] == [];
    } else {
      var k := cut.stop - |OpenWrites(d)|;
      assert ws[..cut.stop] == OpenWrites(d) + BodyEffect(d0, setting, c).writes[..k];
      assert After(d, ws[..cut.stop]) == After(d0, BodyEffect(d0, setting, c).writes[..k]);
      assert HashesAgree(setting, d0);
      CutBody(setting, d0, c, k);
      if d.index.None? {
        NothingBreaksWhenEmpty(setting, d0, Cut(c, k));
      }
    }
  }

  lemma NothingBreaksWhenEmpty(setting: Setting, d: Disk, cut: Cut)
    requires d.index == Some(EMPTY_STATE)
    ensures !CutBreaks(setting, d, cut)
  {
    hide Prepared, RuntimeEffect;
  }

  lemma WholeCommandBreaks(setting: Setting, d: Disk, cut: Cut)
    requires cut.stop >= |CommandEffect(d, setting, cut.command).writes|
    ensures CutBreaks(setting, d, cut) <==> Clobbers(d, setting, cut.command)
  {
    if d.index.Some? {
      DoneInOpenStore(d, setting, cut.command);
      hide CommandEffect;
      match cut.command {
        case Create(input) =>
          if ReachesStore(d, setting, input) {
            ReachedStoreIsWritten(d, setting, input);
          }
        case PolicySet(key, file) => WholePolicySet(setting, d, key, file);
        case _ =>
      }
    }
  }

  /** A `policy set` that passes its checks makes both its writes. */
  lemma WholePolicySet(setting: Setting, d: Disk, key: Option<string>, file: Option<string>)
    requires d.index.Some?
    ensures var policy := PolicyFromFile(setting.yaml, file);
            GetOrLast(d.index.value, key).Some? && policy.Success? && Preflight(setting, policy.value).None? ==>
              |PolicySetEffect(d, setting, key, file).writes| == 2
  {
    if GetOrLast(d.index.value, key).Some? {
      FoundIsStored(d.index.value, key);
    }
    hide GetOrLast, Preflight, PolicyFromFile;
  }

  lemma ReachedStoreIsWritten(d: Disk, setting: Setting, input: CreateInput)
    requires ReachesStore(d, setting, input)
    ensures |CreateEffect(d, setting, input).writes| >
            |RuntimeEffect(d, setting, input, Prepared(setting, input).value).writes|
  {
    hide Prepared, RuntimeEffect, InsertEffect, NewRecord;
  }

  /** Over any run with any stops, the hashes agree all the way if and only if no stop breaks them. */
  lemma HashAgreementAcrossStops(setting: Setting, cuts: seq<Cut>)
    requires setting.yaml.RoundTrip()
    requires forall i :: 0 <= i < |cuts| ==> NameOk(cuts[i].command)
    ensures (forall n :: 0 <= n <= |cuts| ==> HashesAgree(setting, RunCuts(setting, cuts[..n]))) <==>
            (forall i :: 0 <= i < |cuts| ==> !CutBreaks(setting, RunCuts(setting, cuts[..i]), cuts[i]))
  {
    hide Sound, HashesAgree, CutBreaks, CutWrites, RunCuts;
    NewDiskAgrees(setting);
    forall i | 0 <= i < |cuts| && HashesAgree(setting, RunCuts(setting, cuts[..i]))
      ensures var d := RunCuts(setting, cuts[..i]);
              HashesAgree(setting, After(d, CutWrites(d, setting, cuts[i]))) <==> !CutBreaks(setting, d, cuts[i])
    {
      CrashSafety(setting, cuts[..i]);
      CutStep(setting, RunCuts(setting, cuts[..i]), cuts[i]);
    }
    var keeps: Disk -> bool := d => HashesAgree(setting, d);
    var breaks: (Disk, Cut) -> bool := (d, cut) => CutBreaks(setting, d, cut);
    RunThroughout(setting, cuts, keeps, breaks);
    assert forall n :: 0 <= n <= |cuts| ==>
      keeps(RunCuts(setting, cuts[..n])) == HashesAgree(setting, RunCuts(setting, cuts[..n]));
    assert forall i :: 0 <= i < |cuts| ==>
      breaks(RunCuts(setting, cuts[..i]), cuts[i]) == CutBreaks(setting, RunCuts(setting, cuts[..i]), cuts[i]);
  }

  // ---------- Failed commands ----------

  /** The failures that come after the index was written: the mechanism's, of a found sandbox. */
  ghost predicate FailsLate(d: Disk, c: Command) {
    d.index.Some? &&
    match c
    case Exec(key, ok) =>
      var found := GetOrLast(d.index.value, key);
      found.Some? && d.index.value.lastUsed != Some(found.value.name)
    case Rm(target, ok) => Find(d.index.value.sandboxes, target).Some?
    case _ => false
  }

  /** In a store that has an index, a failed command leaves it as it was, if and only if it did not fail late. */
  lemma FailureLeavesOpenIndex(setting: Setting, d: Disk, c: Command)
    requires d.index.Some? && BodyEffect(d, setting, c).result.Failure?
    ensures After(d, BodyEffect(d, setting, c).writes).index == d.index <==> !FailsLate(d, c)
  {
    match c {
      case Create(input) => FailedCreate(setting, d, input);
      case Exec(key, ok) =>
        ExecEnds(d, key, ok);
        hide ExecEffect, GetOrLast;
      case PolicyGet(key) =>
      case PolicySet(key, file) => FailedPolicySet(setting, d, key, file);
      case Rm(target, ok) =>
        RmEnds(d, target, ok);
        hide RmEffect;
        RemoveShortens(d.index.value, target);
    }
  }

  /**
   A failed command leaves the index as it was, if and only if it did not fail late; where
   there was none, it leaves the empty one that opening the store writes.
   */
  lemma FailureLeavesIndex(setting: Setting, d: Disk, c: Command)
    requires CommandEffect(d, setting, c).result.Failure?
    ensures Done(d, setting, c).index == (if d.index.None? then Some(EMPTY_STATE) else d.index) <==> !FailsLate(d, c)
  {
    var d0 := After(d, OpenWrites(d));
    DoneAfterOpening(d, setting, c);
    hide Done, CommandEffect, BodyEffect;
    FailureLeavesOpenIndex(setting, d0, c);
  }

  lemma FailedCreate(setting: Setting, d: Disk, input: CreateInput)
    requires d.index.Some? && CreateEffect(d, setting, input).result.Failure?
    ensures After(d, CreateEffect(d, setting, input).writes).index == d.index
  {
    CreateEnds(d, setting, input);
    hide CreateEffect, ReachesStore, CreatedRecord;
  }

  lemma FailedPolicySet(setting: Setting, d: Disk, key: Option<string>, file: Option<string>)
    requires d.index.Some? && PolicySetEffect(d, setting, key, file).result.Failure?
    ensures After(d, PolicySetEffect(d, setting, key, file).writes).index == d.index
  {
    hide GetOrLast, Preflight;
  }

  lemma RemoveShortens(s: State, key: string)
    ensures RemoveFrom(s, key).Some? <==> Find(s.sandboxes, key).Some?
    ensures RemoveFrom(s, key).Some? ==> |RemoveFrom(s, key).value.0.sandboxes| == |s.sandboxes| - 1
  {
  }

  // ---------- A create that clobbers ----------

  /**
   On a mac, creating the same name again under a policy of another hash is refused, yet it
   leaves the stored record with a hash that is not its policy file's.
   */
  lemma SecondCreateClobbers(setting: Setting, first: CreateInput, second: CreateInput)
    requires setting.yaml.RoundTrip()
    requires SingleComponent(NameOf(first)) && NameOf(second) == NameOf(first)
    requires MacPrepared(setting, first) && MacPrepared(setting, second)
    requires setting.yaml.ContentHash(Prepared(setting, first).value) !=
             setting.yaml.ContentHash(Prepared(setting, second).value)
    ensures var d := Done(NEW_DISK, setting, Create(first));
            && HashesAgree(setting, d)
            && CommandEffect(d, setting, Create(second)).result == Failure(AlreadyExists)
            && !HashesAgree(setting, Done(d, setting, Create(second)))
  {
    NewDiskIsSound(setting);
    NewDiskAgrees(setting);
    HashStep(setting, NEW_DISK, Create(first));
    DoneIsSound(setting, NEW_DISK, Create(first));
    FirstCreateStores(setting, first);
    var d := Done(NEW_DISK, setting, Create(first));
    MacReachesStore(d, setting, second);
    HashStep(setting, d, Create(second));
    DoneInOpenStore(d, setting, Create(second));
    CreateEnds(d, setting, second);
    hide Prepared, HashesAgree, Sound, Done, CreateEffect, CommandEffect, ReachesStore;
    assert d.index.value.sandboxes[0].name == NameOf(second);
  }

  lemma FirstCreateStores(setting: Setting, input: CreateInput)
    requires MacPrepared(setting, input)
    ensures var d := Done(NEW_DISK, setting, Create(input));
            && d.index.Some? && |d.index.value.sandboxes| == 1
            && d.index.value.sandboxes[0].name == NameOf(input)
            && d.index.value.sandboxes[0].policyHash == setting.yaml.ContentHash(Prepared(setting, input).value)
  {
    var d0 := After(NEW_DISK, OpenWrites(NEW_DISK));
    DoneAfterOpening(NEW_DISK, setting, Create(input));
    MacReachesStore(d0, setting, input);
    CreateEnds(d0, setting, input);
    CreatedRecordIs(d0, setting, input);
    hide Done, CommandEffect, CreateEffect, Prepared, ReachesStore, CreatedRecord;
  }

  // ---------- What the user sees ----------

  /** Removing a sandbox leaves the policy file of every sandbox that stays stored as it was. */
  lemma RemoveKeepsOtherFiles(d: Disk, key: string, i: nat)
    requires d.index.Some? && NamesDistinct(d.index.value.sandboxes) && RemoveFrom(d.index.value, key).Some?
    requires i < |RemoveFrom(d.index.value, key).value.0.sandboxes|
    ensures var r := RemoveFrom(d.index.value, key).value.0.sandboxes[i];
            var d' := After(d, RemoveEffect(d, key).writes);
            && r in d.index.value.sandboxes
            && (r.name in d'.policies <==> r.name in d.policies)
            && (r.name in d.policies ==> d'.policies[r.name] == d.policies[r.name])
  {
    RemovedLeaves(d.index.value, key, i);
    hide RemoveFrom;
  }

  /**
   The sandbox whose policy was set is the one that is shown next when none is named, if and
   only if no older sandbox's id is its name; what is then shown is the policy that was set.
   */
  lemma PolicySetThenGet(setting: Setting, d: Disk, key: Option<string>, text: string)
    requires setting.yaml.RoundTrip() && d.index.Some?
    requires PolicySetEffect(d, setting, key, Some(text)).result.Success?
    ensures var d' := After(d, PolicySetEffect(d, setting, key, Some(text)).writes);
            var rs := d.index.value.sandboxes;
            var name := GetOrLast(d.index.value, key).value.name;
            var n := NamePosition(rs, name).value;
            var shown := GetOrLastResult(d', None);
            && shown.Success?
            && (shown.value.name == name <==> forall i :: 0 <= i < n ==> rs[i].id != name)
            && (shown.value.name == name ==>
                  PolicyGetResult(d', setting.yaml, None) == Success(setting.yaml.Load(text).value))
  {
    var policy := setting.yaml.Load(text).value;
    var rec := GetOrLast(d.index.value, key).value;
    LoadPrinted(setting.yaml, policy);
    LoadedIsValid(setting.yaml, text);
    hide GetOrLast, Preflight, Complaint;
    UpdatedIsLast(d, setting.yaml, rec.name, policy);
    hide UpdateEffect;
  }

  lemma LoadedIsValid(yaml: Yaml, text: string)
    requires yaml.Load(text).Success?
    ensures Complaint(yaml.Load(text).value).None?
  {
    hide Complaint;
  }

  lemma UpdatedIsLast(d: Disk, yaml: Yaml, name: string, policy: SandboxPolicy)
    requires d.index.Some? && UpdateEffect(d, yaml, name, policy).result.Success?
    ensures var d' := After(d, UpdateEffect(d, yaml, name, policy).writes);
            var rs := d.index.value.sandboxes;
            && NamePosition(rs, name).Some?
            && d'.index.Some? && GetOrLast(d'.index.value, None).Some?
            && name in d'.policies && d'.policies[name] == yaml.render(policy)
            && (GetOrLast(d'.index.value, None).value.name == name <==>
                forall i :: 0 <= i < NamePosition(rs, name).value ==> rs[i].id != name)
  {
    HashedIsFound(d.index.value, name, yaml.ContentHash(policy));
    hide GetOrLast;
  }

  /** After its hash was changed, a record is found as the last used one if and only if no older id is its name. */
  lemma HashedIsFound(s: State, name: string, hash: string)
    requires WithHash(s, name, hash).Some?
    ensures var s' := WithHash(s, name, hash).value;
            && GetOrLast(s', None).Some?
            && (GetOrLast(s', None).value.name == name <==>
                forall i :: 0 <= i < NamePosition(s.sandboxes, name).value ==> s.sandboxes[i].id != name)
  {
    var s' := WithHash(s, name, hash).value;
    var n := NamePosition(s.sandboxes, name).value;
    var rs, rs' := s.sandboxes, s'.sandboxes;
    assert rs'[n].name == name && Answers(rs'[n], name);
    assert forall i :: 0 <= i < n ==> rs'[i] == rs[i] && rs[i].name != name;
    var p := Position(rs', name).value;
    assert p <= n;
    if p == n {
      forall i | 0 <= i < n
        ensures rs[i].id != name
      {
        assert !Answers(rs'[i], name);
      }
    } else {
      assert rs[p].id == name;
    }
  }
}
