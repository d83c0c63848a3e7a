/** Runs of completed commands, and the disk that each command leaves. */
module Runs {
  import opened Wrappers
  import opened Policy
  import opened State
  import opened ConfigDir
  import opened Store
  import opened MacRuntime
  import opened Commands
  import opened Lifecycle

  function Done(d: Disk, setting: Setting, c: Command): Disk {
    After(d, CommandEffect(d, setting, c).writes)
  }

  /** A run of completed commands. */
  function RunAll(setting: Setting, d: Disk, cs: seq<Command>): Disk {
    if cs == [] then d else Done(RunAll(setting, d, cs[..|cs| - 1]), setting, cs[|cs| - 1])
  }

  lemma DoneIsSound(setting: Setting, d: Disk, c: Command)
    requires setting.yaml.RoundTrip() && Sound(setting, d) && NameOk(c)
    ensures Sound(setting, Done(d, setting, c))
  {
    CommandIsSound(setting, d, c);
    hide Sound, CommandEffect;
    AllSoundAfter(setting, d, CommandEffect(d, setting, c).writes);
  }

  /** Opening a store that has an index does nothing. */
  lemma DoneInOpenStore(d: Disk, setting: Setting, c: Command)
    requires d.index.Some?
    ensures CommandEffect(d, setting, c) == BodyEffect(d, setting, c)
    ensures Done(d, setting, c) == After(d, BodyEffect(d, setting, c).writes)
  {
    hide BodyEffect;
    assert [] + BodyEffect(d, setting, c).writes == BodyEffect(d, setting, c).writes;
  }

  /** A command is its body on the opened store. */
  lemma DoneAfterOpening(d: Disk, setting: Setting, c: Command)
    ensures var d0 := After(d, OpenWrites(d));
            && d0.index.Some?
            && CommandEffect(d, setting, c).result == BodyEffect(d0, setting, c).result
            && Done(d, setting, c) == After(d0, BodyEffect(d0, setting, c).writes)
  {
    hide BodyEffect;
  }

  // ---------- The final disk of each command ----------

  /** A create that gets as far as the store, to be stored or to be refused. */
  predicate ReachesStore(d: Disk, setting: Setting, input: CreateInput) {
    && Prepared(setting, input).Success?
    && RuntimeEffect(d, setting, input, Prepared(setting, input).value).result.Success?
  }

  function CreatedRecord(d: Disk, setting: Setting, input: CreateInput): Record
    requires ReachesStore(d, setting, input)
  {
    var policy := Prepared(setting, input).value;
    var runtime := RuntimeEffect(d, setting, input, policy);
    Identified(NewRecord(setting, input, policy, runtime.result.value), input.uuid)
  }

  lemma CreatedRecordIs(d: Disk, setting: Setting, input: CreateInput)
    requires ReachesStore(d, setting, input)
    ensures var r := CreatedRecord(d, setting, input);
            var policy := Prepared(setting, input).value;
            && r.name == NameOf(input)
            && r.policyHash == setting.yaml.ContentHash(policy)
            && policy.mechanism == Some(r.mechanism)
            && (r.mechanism == Mac ==> setting.platform == MacOs)
  {
    hide Prepared, MacCreateWrites;
  }

  /** A create that gets as far as writing its instance directory, whether or not it is refused then. */
  predicate MacPrepared(setting: Setting, input: CreateInput) {
    && Prepared(setting, input).Success?
    && Prepared(setting, input).value.mechanism == Some(Mac)
    && setting.platform == MacOs
  }

  lemma MacReachesStore(d: Disk, setting: Setting, input: CreateInput)
    requires MacPrepared(setting, input)
    ensures ReachesStore(d, setting, input)
  {
    hide Prepared, MacCreateWrites;
  }

  /** What a create leaves in the store, and its result when it got that far. */
  lemma CreateEnds(d: Disk, setting: Setting, input: CreateInput)
    requires d.index.Some?
    ensures var effect := CreateEffect(d, setting, input);
            var d' := After(d, effect.writes);
            if !ReachesStore(d, setting, input) then d'.index == d.index && d'.policies == d.policies
            else
              var taken := HasName(d.index.value.sandboxes, NameOf(input));
              && d'.policies == d.policies[NameOf(input) := setting.yaml.render(Prepared(setting, input).value)]
              && d'.index == (if taken then d.index else InsertInto(d.index.value, CreatedRecord(d, setting, input)))
              && effect.result == (if taken then Failure(AlreadyExists) else Success(()))
  {
    var prepared := Prepared(setting, input);
    if prepared.Success? {
      hide Prepared;
      RuntimeKeepsStore(d, setting, input, prepared.value);
      hide RuntimeEffect;
      var runtime := RuntimeEffect(d, setting, input, prepared.value);
      if runtime.result.Success? {
        var saved := SavedPolicy(After(d, runtime.writes), setting.yaml, NameOf(input), prepared.value);
        var rec := NewRecord(setting, input, prepared.value, runtime.result.value);
        var inserted := InsertEffect(saved, rec, input.uuid);
        assert After(d, runtime.writes + [saved] + inserted.writes) == After(saved, inserted.writes);
      }
    }
  }

  lemma RuntimeKeepsStore(d: Disk, setting: Setting, input: CreateInput, policy: SandboxPolicy)
    ensures var d' := After(d, RuntimeEffect(d, setting, input, policy).writes);
            d'.index == d.index && d'.policies == d.policies
  {
    hide Complete;
  }

  lemma RmEnds(d: Disk, target: string, mechanismOk: bool)
    requires d.index.Some?
    ensures var d' := After(d, RmEffect(d, target, mechanismOk).writes);
            match RemoveFrom(d.index.value, target)
            case None => d' == d
            case Some((s, gone)) =>
              && d'.index == Some(s)
              && d'.policies == d.policies - {gone.name}
              && d'.instances == if gone.mechanism == Mac && DirOf(gone.runtimeId).Some?
                                 then WithoutTree(d.instances, DirOf(gone.runtimeId).value) else d.instances
  {
    hide RemoveFrom, DirOf;
  }

  lemma ExecEnds(d: Disk, key: Option<string>, mechanismOk: bool)
    requires d.index.Some?
    ensures var d' := After(d, ExecEffect(d, key, mechanismOk).writes);
            d' == match GetOrLast(d.index.value, key)
                  case None => d
                  case Some(r) => d.(index := Some(Touched(d.index.value, r.name)))
  {
    hide GetOrLast;
  }

  lemma {:induction false} RunIsSound(setting: Setting, d: Disk, cs: seq<Command>)
    requires setting.yaml.RoundTrip() && Sound(setting, d)
    requires forall i :: 0 <= i < |cs| ==> NameOk(cs[i])
    ensures Sound(setting, RunAll(setting, d, cs))
    decreases |cs|
  {
    hide Sound, Done;
    if cs != [] {
      RunIsSound(setting, d, cs[..|cs| - 1]);
      DoneIsSound(setting, RunAll(setting, d, cs[..|cs| - 1]), cs[|cs| - 1]);
    }
  }

  // ---------- Runs with stops ----------

  lemma RunCutsSnoc(setting: Setting, cuts: seq<Cut>, i: nat)
    requires i < |cuts|
    ensures var d := RunCuts(setting, cuts[..i]);
            RunCuts(setting, cuts[..i + 1]) == After(d, CutWrites(d, setting, cuts[i]))
  {
    assert cuts[..i + 1][..i] == cuts[..i];
  }

  /** What a single stop keeps if and only if it does not break it, a run keeps all the way if and only if none does. */
  lemma RunThroughout(setting: Setting, cuts: seq<Cut>, keeps: Disk -> bool, breaks: (Disk, Cut) -> bool)
    requires keeps(NEW_DISK)
    requires forall i :: 0 <= i < |cuts| && keeps(RunCuts(setting, cuts[..i])) ==>
               var d := RunCuts(setting, cuts[..i]);
               keeps(After(d, CutWrites(d, setting, cuts[i]))) <==> !breaks(d, cuts[i])
    ensures (forall n :: 0 <= n <= |cuts| ==> keeps(RunCuts(setting, cuts[..n]))) <==>
            (forall i :: 0 <= i < |cuts| ==> !breaks(RunCuts(setting, cuts[..i]), cuts[i]))
  {
    hide RunCuts, CutWrites;
    EmptyRun(setting);
    assert cuts[..0] == [];
    var kept: nat -> bool := (i: nat) => i <= |cuts| && keeps(RunCuts(setting, cuts[..i]));
    var broken: nat -> bool := (i: nat) => i < |cuts| && breaks(RunCuts(setting, cuts[..i]), cuts[i]);
    forall i: nat | i < |cuts| && kept(i)
      ensures kept(i + 1) <==> !broken(i)
    {
      RunCutsSnoc(setting, cuts, i);
    }
    AllTheWay(|cuts|, kept, broken);
    assert forall i: nat :: i <= |cuts| ==> (kept(i) <==> keeps(RunCuts(setting, cuts[..i])));
    assert forall i: nat :: i < |cuts| ==> (broken(i) <==> breaks(RunCuts(setting, cuts[..i]), cuts[i]));
  }

  lemma EmptyRun(setting: Setting)
    ensures RunCuts(setting, []) == NEW_DISK
  {
  }
}
