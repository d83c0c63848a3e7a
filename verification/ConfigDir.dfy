/**
 The configuration directory: the index file, one policy file per sandbox, and the instance
 directories of the mac mechanism. One file effect is atomic; a ghost log keeps the
 directory as it was after each of them.
 */
module ConfigDir {
  import opened Wrappers
  import opened State
  import opened Seatbelt

  /** What a mac instance directory holds: `profile.sb`, `workdir` and `policy.yaml`. */
  datatype Instance = Instance(profile: Option<Profile>, workdir: Option<string>, policy: Option<string>)

  datatype Disk = Disk(
    index: Option<State>,
    policies: map<string, string>,
    instances: map<string, Instance>)

  const NEW_DISK := Disk(None, map[], map[])

  predicate Stored(d: Disk, name: string) {
    d.index.Some? && HasName(d.index.value.sandboxes, name)
  }

  /** At `dir` or below it; the empty path names no directory. */
  predicate Within(path: string, dir: string) {
    dir != "" && (path == dir || dir + "/" <= path)
  }

  /** The instance directories without the tree at `dir`. */
  function WithoutTree(instances: map<string, Instance>, dir: string): map<string, Instance> {
    map k | k in instances && !Within(k, dir) :: instances[k]
  }

  /** The disk after a list of writes. */
  function After(d: Disk, writes: seq<Disk>): Disk {
    if writes == [] then d else writes[|writes| - 1]
  }

  class ConfigDir {
    var index: Option<State>
    var policies: map<string, string>
    var instances: map<string, Instance>
    ghost var log: seq<Disk>

    function View(): Disk
      reads this
    {
      Disk(index, policies, instances)
    }

    constructor ()
      ensures View() == NEW_DISK && log == []
    {
      index := None;
      policies := map[];
      instances := map[];
      log := [];
    }

    method WriteIndex(s: State)
      modifies this
      ensures View() == old(View()).(index := Some(s))
      ensures log == old(log) + [View()]
    {
      index := Some(s);
      log := log + [View()];
    }

    method WritePolicy(name: string, text: string)
      modifies this
      ensures View() == old(View()).(policies := old(policies)[name := text])
      ensures log == old(log) + [View()]
    {
      policies := policies[name := text];
      log := log + [View()];
    }

    method RemovePolicy(name: string)
      modifies this
      ensures View() == old(View()).(policies := old(policies) - {name})
      ensures log == old(log) + [View()]
    {
      policies := policies - {name};
      log := log + [View()];
    }

    method WriteInstance(dir: string, instance: Instance)
      modifies this
      ensures View() == old(View()).(instances := old(instances)[dir := instance])
      ensures log == old(log) + [View()]
    {
      instances := instances[dir := instance];
      log := log + [View()];
    }

    method RemoveInstanceTree(dir: string)
      modifies this
      ensures View() == old(View()).(instances := WithoutTree(old(instances), dir))
      ensures log == old(log) + [View()]
    {
      instances := WithoutTree(instances, dir);
      log := log + [View()];
    }
  }
}
