/**
 What the `-v` words of a compiled request say: each word is read back into source, guest path
 and mode, and the listed paths that are mounted are named outright.
 */
module Volumes {
  import opened Wrappers
  import opened Paths
  import opened Podman
  import opened ContainerCli

  // ---------- The engine's reading of a volume word ----------

  datatype Volume = Volume(source: string, guest: string, readOnly: bool)

  /** The number of characters before the first colon. */
  function ColonAt(s: string): (n: nat)
    ensures n <= |s| && ':' !in s[..n]
    ensures n < |s| ==> s[n] == ':'
  {
    if s == "" || s[0] == ':' then 0 else
    var n := 1 + ColonAt(s[1..]);
    assert s[..n] == [s[0]] + s[1..][..n - 1];
    n
  }

  /** The parts between colons. */
  function Fields(s: string): seq<string>
    decreases |s|
  {
    var n := ColonAt(s);
    if n == |s| then [s] else [s[..n]] + Fields(s[n + 1..])
  }

  /** Source, guest path and mode; a word with more or fewer colons is not understood. */
  function ReadVolume(word: string): Option<Volume> {
    var fields := Fields(word);
    if |fields| != 3 then None
    else if fields[2] == "ro" then Some(Volume(fields[0], fields[1], true))
    else if fields[2] == "rw" then Some(Volume(fields[0], fields[1], false))
    else None
  }

  function Colons(s: string): nat {
    if s == "" then 0 else (if s[0] == ':' then 1 else 0) + Colons(s[1..])
  }

  lemma {:induction false} ColonsConcat(a: string, b: string)
    ensures Colons(a + b) == Colons(a) + Colons(b)
  {
    if a == "" {
      assert a + b == b;
    } else {
      assert (a + b)[1..] == a[1..] + b;
      ColonsConcat(a[1..], b);
    }
  }

  lemma {:induction false} NoColons(s: string)
    ensures Colons(s) == 0 <==> ':' !in s
  {
    if s != "" {
      NoColons(s[1..]);
      assert s == [s[0]] + s[1..];
    }
  }

  lemma {:induction false} FieldsCount(s: string)
    ensures |Fields(s)| == Colons(s) + 1
    decreases |s|
  {
    var n := ColonAt(s);
    if n == |s| {
      assert s[..n] == s;
      NoColons(s);
    } else {
      FieldsCount(s[n + 1..]);
      assert s == s[..n] + ([':'] + s[n + 1..]);
      ColonsConcat(s[..n], [':'] + s[n + 1..]);
      ColonsConcat([':'], s[n + 1..]);
      NoColons(s[..n]);
      assert Colons([':']) == 1 by {
        assert [':'][1..] == "";
      }
    }
  }

  lemma {:induction false} ColonAtOf(a: string, b: string)
    requires ':' !in a
    ensures ColonAt(a + ":" + b) == |a|
  {
    if a == "" {
      assert (a + ":" + b)[0] == ':';
    } else {
      assert a[0] in a;
      assert (a + ":" + b)[1..] == a[1..] + ":" + b;
      ColonAtOf(a[1..], b);
    }
  }

  lemma FirstField(a: string, b: string)
    requires ':' !in a
    ensures Fields(a + ":" + b) == [a] + Fields(b)
  {
    ColonAtOf(a, b);
    var s := a + ":" + b;
    assert s[..|a|] == a && s[|a| + 1..] == b;
  }

  lemma {:induction false} NoColonAt(s: string)
    requires ':' !in s
    ensures ColonAt(s) == |s|
  {
    if s != "" {
      assert s[0] in s;
      NoColonAt(s[1..]);
    }
  }

  lemma PlainVolume(source: string, guest: string, mode: string)
    requires ':' !in source && ':' !in guest && ':' !in mode
    ensures Fields(source + ":" + guest + ":" + mode) == [source, guest, mode]
  {
    hide Fields;
    var rest := guest + ":" + mode;
    Behind(source, guest, mode);
    FirstField(source, rest);
    FirstField(guest, mode);
    OneField(mode);
    assert [source] + ([guest] + [mode]) == [source, guest, mode];
  }

  lemma OneField(s: string)
    requires ':' !in s
    ensures Fields(s) == [s]
  {
    NoColonAt(s);
  }

  lemma Behind(a: string, b: string, c: string)
    ensures a + ":" + b + ":" + c == a + ":" + (b + ":" + c)
  {
  }

  lemma ManyColons(source: string, guest: string, mode: string)
    requires ':' in source || ':' in guest
    ensures |Fields(source + ":" + guest + ":" + mode)| > 3
  {
    hide Fields, Colons;
    FieldsCount(source + ":" + guest + ":" + mode);
    NoColons(source);
    NoColons(guest);
    OneColon();
    ColonsConcat(source + ":" + guest + ":", mode);
    ColonsConcat(source + ":" + guest, ":");
    ColonsConcat(source + ":", guest);
    ColonsConcat(source, ":");
  }

  lemma OneColon()
    ensures Colons(":") == 1
  {
    assert ":"[1..] == "";
  }

  /** A word reads back as what it was made from, if and only if source and guest path have no colon. */
  lemma VolumeReadsBack(source: string, guest: string, readOnly: bool)
    ensures var word := source + ":" + guest + ":" + (if readOnly then "ro" else "rw");
            ReadVolume(word) == if ':' in source || ':' in guest then None else Some(Volume(source, guest, readOnly))
  {
    var mode := if readOnly then "ro" else "rw";
    hide Fields;
    assert "ro"[1] == 'o' && "rw"[1] == 'w' && ':' !in mode;
    if ':' in source || ':' in guest {
      ManyColons(source, guest, mode);
    } else {
      PlainVolume(source, guest, mode);
    }
  }

  // ---------- Which listed paths are mounted, and how ----------

  /** There, named, and not a text that begins like the workspace. */
  predicate Mounted(host: Host, path: string, workdir: string) {
    && !("/workspace" <= path)
    && host.present(Join(workdir, path))
    && host.fileName(Join(workdir, path)).Some?
  }

  /** One listed path: where it comes from, where it appears, and in which mode. */
  lemma MountMeans(host: Host, path: string, workdir: string, readOnly: bool)
    ensures MountSpec(host, path, workdir, readOnly).Some? <==> Mounted(host, path, workdir)
    ensures Mounted(host, path, workdir) ==>
              MountSpec(host, path, workdir, readOnly) ==
              Some(Join(workdir, path) + ":" + ("/mnt/" + host.fileName(Join(workdir, path)).value) + ":"
                   + (if readOnly then "ro" else "rw"))
  {
  }

  lemma MountReadsBack(host: Host, path: string, workdir: string, readOnly: bool)
    requires Mounted(host, path, workdir)
    ensures var source := Join(workdir, path);
            var file := host.fileName(source).value;
            var volume := ReadVolume(MountSpec(host, path, workdir, readOnly).value);
            if ':' in source || ':' in file then volume == None
            else volume == Some(Volume(source, "/mnt/" + file, readOnly))
  {
    MountMeans(host, path, workdir, readOnly);
    var source := Join(workdir, path);
    var file := host.fileName(source).value;
    hide MountSpec, Mounted, Join, Fields;
    VolumeReadsBack(source, "/mnt/" + file, readOnly);
    GuestColon(file);
  }

  lemma GuestColon(file: string)
    ensures ':' in "/mnt/" + file <==> ':' in file
  {
    var guest := "/mnt/" + file;
    assert guest[5..] == file;
    assert forall i :: 0 <= i < |guest| ==> guest[i] == if i < 5 then "/mnt/"[i] else file[i - 5];
    assert ':' !in "/mnt/";
    if ':' in file {
      var i :| 0 <= i < |file| && file[i] == ':';
      assert guest[i + 5] == ':';
    }
  }

  /** Listing more paths mounts more, in the order of the list. */
  lemma {:induction false} MountsConcat(host: Host, a: seq<string>, b: seq<string>, workdir: string, readOnly: bool)
    ensures Mounts(host, a + b, workdir, readOnly) ==
            Mounts(host, a, workdir, readOnly) + Mounts(host, b, workdir, readOnly)
    decreases |b|
  {
    hide MountSpec;
    if b == [] {
      assert a + b == a;
    } else {
      var last := |b| - 1;
      assert (a + b)[..|a + b| - 1] == a + b[..last];
      MountsConcat(host, a, b[..last], workdir, readOnly);
    }
  }

  /** A path listed alone; `/workspace` and `/tmp` are provided anyway and not mounted writable. */
  lemma MountsOne(host: Host, path: string, workdir: string, readOnly: bool)
    ensures Mounts(host, [path], workdir, readOnly) ==
            if Mounted(host, path, workdir) && !(!readOnly && path == "/tmp")
            then [MountSpec(host, path, workdir, readOnly).value] else []
  {
    MountMeans(host, path, workdir, readOnly);
    hide MountSpec, Join;
    assert [path][..0] == [];
  }

  // ---------- In the configuration read back ----------

  lemma {:induction false} MountsHas(host: Host, paths: seq<string>, workdir: string, readOnly: bool, i: nat)
    requires i < |paths| && Mounted(host, paths[i], workdir) && (readOnly || paths[i] != "/tmp")
    ensures MountSpec(host, paths[i], workdir, readOnly).Some?
    ensures MountSpec(host, paths[i], workdir, readOnly).value in Mounts(host, paths, workdir, readOnly)
  {
    MountMeans(host, paths[i], workdir, readOnly);
    MountsOne(host, paths[i], workdir, readOnly);
    MountsConcat(host, paths[..i], [paths[i]], workdir, readOnly);
    MountsConcat(host, paths[..i] + [paths[i]], paths[i + 1..], workdir, readOnly);
    assert paths == paths[..i] + [paths[i]] + paths[i + 1..];
  }

  lemma {:induction false} MountsFrom(host: Host, paths: seq<string>, workdir: string, readOnly: bool, word: string)
    requires word in Mounts(host, paths, workdir, readOnly)
    ensures exists i :: 0 <= i < |paths| && Mounted(host, paths[i], workdir) && (readOnly || paths[i] != "/tmp")
                        && MountSpec(host, paths[i], workdir, readOnly) == Some(word)
  {
    hide MountSpec, Mounted;
    var last := |paths| - 1;
    MountMeans(host, paths[last], workdir, readOnly);
    if word in Mounts(host, paths[..last], workdir, readOnly) {
      MountsFrom(host, paths[..last], workdir, readOnly, word);
      var i :| 0 <= i < last && Mounted(host, paths[..last][i], workdir) && (readOnly || paths[..last][i] != "/tmp")
               && MountSpec(host, paths[..last][i], workdir, readOnly) == Some(word);
      assert paths[..last][i] == paths[i];
    }
  }

  /** The path is mounted as this volume. */
  predicate Gives(host: Host, path: string, workdir: string, volume: Volume) {
    && Mounted(host, path, workdir) && (volume.readOnly || path != "/tmp")
    && volume.source == Join(workdir, path)
    && Some(volume.guest) == Guest(host.fileName(Join(workdir, path)))
  }

  function Listed(req: CreateRequest, readOnly: bool): seq<string> {
    if readOnly then req.policy.filesystem.readOnly else req.policy.filesystem.readWrite
  }

  /** Some path of the list for its mode is mounted as this volume. */
  ghost predicate Lists(req: CreateRequest, host: Host, volume: Volume) {
    var paths := Listed(req, volume.readOnly);
    exists i :: 0 <= i < |paths| && Gives(host, paths[i], req.workdir, volume)
  }

  function Guest(file: Option<string>): Option<string> {
    if file.Some? then Some("/mnt/" + file.value) else None
  }

  /**
   The volumes that the engine reads from a compiled request, apart from the workspace: for
   paths without colons exactly the mounted ones of the two lists, read-only if and only if
   they are listed so.
   */
  lemma VolumesReadBack(req: CreateRequest, host: Host, image: string, name: string, detach: bool, memory: nat,
                        volume: Volume)
    requires !IsOption(image)
    requires ':' !in volume.source && ':' !in volume.guest
    ensures var read := ReadRun(RunArgs(req, host, image, name, detach, memory));
            var bind := if req.policy.filesystem.workdir then [host.canonical(req.workdir) + ":/workspace:rw"] else [];
            && read.Some? && bind <= read.value.volumes
            && ((exists word :: word in read.value.volumes[|bind|..] && ReadVolume(word) == Some(volume)) <==>
                Lists(req, host, volume))
  {
    RunArgsReadBack(req, host, image, name, detach, memory);
    hide ReadRun, RunArgs, ReadVolume;
    var ro := Mounts(host, req.policy.filesystem.readOnly, req.workdir, true);
    var rw := Mounts(host, req.policy.filesystem.readWrite, req.workdir, false);
    var volumes := ReadRun(RunArgs(req, host, image, name, detach, memory)).value.volumes;
    var bind := if req.policy.filesystem.workdir then [host.canonical(req.workdir) + ":/workspace:rw"] else [];
    assert volumes == bind + (ro + rw);
    assert volumes[|bind|..] == ro + rw;
    hide Intended, Mounts;
    forall word | word in ro + rw && ReadVolume(word) == Some(volume)
      ensures Lists(req, host, volume)
    {
      WordIsListed(req, host, word in ro, word, volume);
    }
    if Lists(req, host, volume) {
      var word := ListedHasWord(req, host, volume);
      assert word in ro + rw;
    }
  }

  lemma MountGives(host: Host, path: string, workdir: string, readOnly: bool, word: string, volume: Volume)
    requires Mounted(host, path, workdir) && (readOnly || path != "/tmp")
    requires MountSpec(host, path, workdir, readOnly) == Some(word)
    ensures ReadVolume(word) == Some(volume) ==> volume.readOnly == readOnly && Gives(host, path, workdir, volume)
    requires ':' !in volume.source && ':' !in volume.guest
    ensures Gives(host, path, workdir, volume) && volume.readOnly == readOnly ==> ReadVolume(word) == Some(volume)
  {
    MountReadsBack(host, path, workdir, readOnly);
    GuestColon(host.fileName(Join(workdir, path)).value);
    hide ReadVolume, MountSpec, Join;
  }

  lemma WordIsListed(req: CreateRequest, host: Host, readOnly: bool, word: string, volume: Volume)
    requires word in Mounts(host, Listed(req, readOnly), req.workdir, readOnly)
    requires ReadVolume(word) == Some(volume) && ':' !in volume.source && ':' !in volume.guest
    ensures Lists(req, host, volume)
  {
    var paths := Listed(req, readOnly);
    MountsFrom(host, paths, req.workdir, readOnly, word);
    hide Mounts, ReadVolume, MountSpec, Mounted, Gives, Listed;
    var i :| 0 <= i < |paths| && Mounted(host, paths[i], req.workdir) && (readOnly || paths[i] != "/tmp")
             && MountSpec(host, paths[i], req.workdir, readOnly) == Some(word);
    MountGives(host, paths[i], req.workdir, readOnly, word, volume);
  }

  lemma ListedHasWord(req: CreateRequest, host: Host, volume: Volume) returns (word: string)
    requires Lists(req, host, volume) && ':' !in volume.source && ':' !in volume.guest
    ensures ReadVolume(word) == Some(volume)
    ensures word in Mounts(host, Listed(req, volume.readOnly), req.workdir, volume.readOnly)
  {
    hide Mounts, ReadVolume, MountSpec, Join, Mounted, Listed;
    var paths := Listed(req, volume.readOnly);
    var i :| 0 <= i < |paths| && Gives(host, paths[i], req.workdir, volume);
    MountsHas(host, paths, req.workdir, volume.readOnly, i);
    word := MountSpec(host, paths[i], req.workdir, volume.readOnly).value;
    MountGives(host, paths[i], req.workdir, volume.readOnly, word, volume);
  }
}
