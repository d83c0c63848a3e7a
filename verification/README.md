# simple-sandbox: a verified model

`ssbx` creates sandboxes for agents, keeps them in a store under a configuration directory,
and starts commands in them through a container engine or a macOS seatbelt profile. This
project models the parts of it that carry the promises, and proves those promises for every
input, every run and every schedule.

| module | what it models |
|---|---|
| `State`, `ConfigDir`, `Store` | the index of sandboxes, the files on disk, and the load-modify-save operations on them |
| `MacRuntime`, `Commands` | the mac instance directories, and the CLI commands as ordered file effects |
| `Outcomes` | what each store operation and command comes to, case by case, in terms of records, files and arguments |
| `Lifecycle`, `Runs`, `Agreement`, `Instances` | one process at a time: what holds after every single write, between completed commands and after stops, and under which policy a mac sandbox runs |
| `Interleaving`, `Lawful`, `Uninterrupted` | any number of processes with no lock: what survives every schedule, and why an undisturbed process is its sequential command |
| `Interference`, `History`, `Schedules` | what does not survive: exactly which steps break it, what these steps go back to, and schedules in which they happen |
| `Podman`, `ContainerCli`, `Volumes`, `AllowlistArgs` | the container command line, the engine's reader of options and volume words, and the allowlist patching |
| `Allowlist`, `ConnectHandler`, `Headers`, `Relay`, `Tunnel`, `Bytes` | the CONNECT proxy (section 9.3.6 of RFC 9110): decision, client handler, whole request heads, two-way copy, and all of it from end to end |
| `Seatbelt`, `Grants`, `Paths` | the seatbelt profile compiler, a rule evaluator, what profiles grant place by place, and path components |
| `Witness` | runs for which the hypotheses of the theorems about runs hold |
| `Policy`, `PolicyText`, `Size`, `Text`, `Wrappers` | policies, a printer and parser that meet what is assumed of YAML, memory sizes, and the text operations they rest on |

Two ideas run through it. A store operation is specified by its *effect*: the disks after
each of its writes, and its result. The methods are proved to have that effect on a class
with a log of its writes, and every claim about crashes and runs is a claim about effects.
And a compiler is proved by *reading back*: the argument list through the engine's option
reader, the seatbelt rules through an evaluator.

What the model takes from outside is passed in and left uninterpreted: YAML printing and
parsing, the digest, canonical paths, file existence, UTF-8 decoding, the resource
allocator, the outcome of the container engine, of secrets and of the proxy's start. The only
facts assumed of them are that parsing a printed policy gives it back, which texts can do
(`RoundTripCanBeMet`; `MacSandboxExists` is a run that meets every hypothesis), and that no bytes decode to no text. A single file write is atomic, sandbox names are single path components,
and a process brings UUIDs that were never issued.

## Findings

Some expected properties hold only under a condition. The code is modelled as it is, and the
condition is part of the theorem.

- A `create` on a name that is already stored is refused, yet on a mac it has by then
  overwritten the policy file and the instance. `HashStep` states exactly which commands break
  the agreement of hashes and files, and `SecondCreateClobbers` gives the failing runs.
- A stop among the four instance writes of a mac create leaves an instance that mixes two
  policies, unless what was not yet written would have been the same. `CutInstanceStep` states
  exactly which stops do so, and `InstancesAcrossStops` carries it over runs, both directions.
- A stop between the two writes of `policy set` leaves a hash that is not its file's, unless
  it was the same before. `CutStep` states exactly which stops break the agreement, and
  `HashAgreementAcrossStops` carries it over runs, both directions.
- A mac sandbox does not run under the policy it shows. It runs under the policy of the last
  `create` of its name, which may be a refused one (`ExecRunsUnderLastCreate`,
  `RefusedCreateReplacesLaunch`). No other command changes that, `policy set` included, as the
  project's to-do list says (`LaunchStep`, both directions).
- A failed command leaves the index alone unless the mechanism failed after the store was
  written (`FailureLeavesIndex`, both directions).
- The cleanup of `--network` tokens also runs over the guest command, so a command with such
  a token is changed (`GuestCommandKept`, both directions).
- The proxy drops the reader's buffer before relaying. The tunnel carries everything behind
  the request head if and only if one of the reads ended right behind it (`TunnelCarries`).
  Bytes that were read together with the head are lost (`EarlyBytesAreLost`, and
  `OneReadLosesByte` for one request); a client that waits for the answer loses nothing
  (`WaitingClientLosesNothing`).
- A listed path whose source or file name has a colon gives a volume word that the engine
  does not understand (`MountReadsBack`, both directions).
- The dry-run check refuses a host that the proxy accepts when the host is listed only behind
  leading white space, and differs from the proxy on no other host that a request can name
  (`DryRunAgrees`, both directions; `DryRunMissesHost` for one list).
- A CPU count that is not a number is valid: the comparison with zero lets it through
  (`ValidMeans`).
- With several processes distinct names and ids survive (`AlwaysCoherent`), and so does that
  every policy file loads (`EveryPolicyLoads`). The following do not. For each the breaking
  steps are stated exactly, and schedules show that they happen.
  - The last used name dangles after a touch of a name that the toucher's copy lacks, and
    after no other step (`LastUsedStep`, `LastUsedThroughout`, `TouchCanDangle`).
  - A stored sandbox is without its policy file after an `rm` step that removes the file of a
    name that is stored, or after the save of a copy or of a new record whose file is gone, and
    after no other step (`FilesStep`, `FilesThroughout`, `RmCanTakeNewPolicy`,
    `StaleTouchRevives`, `OwnFileIsDropped`). The first such save goes back to an `rm` that
    removed the file after the copy was loaded or after the create had written its own file
    (`StrippingSaveCause`).
  - A recorded hash is not that of the policy file after the steps above, and also after the
    write of a policy file under another hash and the save of a copy or a hash that the file
    does not have (`HashesStep`, `HashesThroughout`, `PolicySetsCanCross`).
  - A stored mac sandbox is without its instance directory after an `rm` step that removes the
    directory of a name that is stored, or after the save of a copy or of a new record whose
    directory is gone (`HomesStep`, `HomesThroughout`, `DropsOwnTree`, `RmCanTakeNewInstance`).
  - A stored sandbox is lost to the save of a copy that lacks it and to the empty index that
    opening writes (`StoredStep`). Such a copy was loaded before the sandbox was stored and not
    since, and such an opening began before it (`LostToOlderLoad`, `CreateCanBeLost`,
    `OpenCanEmptyStore`).
- Removing a sandbox by the name it was inserted under takes out another one when that name
  is an older sandbox's id (`InsertThenRemove`, both directions), and after `policy set` that
  other one is the one shown next (`PolicySetThenGet`, both directions).

## Model

| member | source | states |
|---|---|---|
| Size.ParseSizeExact | crates/sandbox-policy/src/lib.rs:322-347 | a size text parses to v if and only if it is an optional plus, digits and an optional unit that denote v, and v is below 2^64 |
| Size.ParseSizeSucceeds | crates/sandbox-policy/src/lib.rs:322-347 | parsing fails exactly on texts that denote no size below 2^64 |
| Size.ParseSizeOf | crates/sandbox-policy/src/lib.rs:341-346 | which of the two overflow checks answers: the digits' or the multiplier's |
| Size.AccumulateExact | crates/sandbox-policy/src/lib.rs:341-343 | checked digit accumulation succeeds exactly when the unbounded value fits |
| Size.PrintThenParse | crates/sandbox-policy/src/lib.rs:322-347 | a printed 64-bit number parses back to itself |
| Size.UnitsMean | crates/sandbox-policy/src/lib.rs:322-347 | digits with K, M, G or T in either case count in powers of 1024, without a unit bytes, with an optional plus and white space around, and each overflow has its error |
| Size.OtherUnits | crates/sandbox-policy/src/lib.rs:322-347 | a text that ends in any other character is invalid, and a blank one is empty |
| Policy.Validate | crates/sandbox-policy/src/lib.rs:233-260 | the loop over secrets and the checks before it give the first complaint in order |
| Policy.ValidMeans | crates/sandbox-policy/src/lib.rs:233-260 | a policy is valid if and only if version, memory text, endpoints and secrets are as documented and the CPU count is positive or not a number |
| PolicyText.RoundTripCanBeMet | crates/sandbox-policy/src/lib.rs:223-231 | policies can be printed as text so that parsing gives each of them back, so the assumption made of YAML can be met |
| Policy.LoadPrinted | crates/sandbox-policy/src/lib.rs:223-231 | loading a printed policy gives it back, or its complaint |
| Policy.ResolveHostPaths | crates/sandbox-policy/src/lib.rs:350-371 | the two lists of host paths, the workdir pushed when missing |
| Policy.HostWritePathsCover | crates/sandbox-policy/src/lib.rs:363-369 | whether or not the workdir was pushed, exactly it and the listed paths are covered |
| Grants.HostPathsMean | crates/sandbox-policy/src/lib.rs:350-371 | the read-write list is the listed paths in order and the workdir behind them, unless an equal path is listed |
| Grants.DefaultPolicyIs | crates/sandbox-policy/src/lib.rs:40-82 | the default policy, field by field, with two gigabytes of memory |
| Grants.DefaultLists | crates/sandbox-policy/src/lib.rs:350-371 | in `/work` the default policy's read-write list is `/workspace`, `/tmp` and `/work` |
| Paths.JoinComponents | crates/sandbox-mech-mac/src/lib.rs:143-150 | resolving keeps an absolute path and appends the components of a relative one |
| Paths.JoinText | crates/sandbox-mech-mac/src/lib.rs:143-150 | an absolute path replaces the base, a relative one stands behind it and one slash |
| Paths.ComponentsWritten | crates/sandbox-policy/src/lib.rs:350-371 | the components of a path written out of plain segments are these segments, so different paths differ |
| Paths.IgnoredSegments | crates/sandbox-policy/src/lib.rs:350-371 | doubled and trailing slashes and `.` segments do not count |
| Seatbelt.GenerateSeatbeltProfile | crates/sandbox-mech-mac/src/lib.rs:52-141 | the pushes give the compiled profile for the canonical workdir |
| Seatbelt.ProfileMeansPolicy | crates/sandbox-mech-mac/src/lib.rs:52-141 | for every policy, workdir and request the evaluated profile answers what the policy permits |
| Seatbelt.ProfileConsistent | crates/sandbox-mech-mac/src/lib.rs:61-138 | no request is answered both ways by two generated rules |
| Seatbelt.OrderIrrelevant | crates/sandbox-mech-mac/src/lib.rs:61-138 | any permutation of the rules after the default, read first-match or last-match, gives the same answers |
| Seatbelt.ProfileRootsAreHostPaths | crates/sandbox-mech-mac/src/lib.rs:94-117 | the policy's read and write roots are, as sets, the lists of the separate host path resolver |
| Seatbelt.WritesFollowHostPaths | crates/sandbox-policy/src/lib.rs:350-371 | a write is allowed exactly below the resolver's read-write paths or at a fixed place |
| Grants.WritesGranted | crates/sandbox-mech-mac/src/lib.rs:82-122 | a profile lets be written two devices, four temporary places, the workdir if enabled and the read-write paths, each spelled out, and nothing else |
| Grants.ReadsGranted | crates/sandbox-mech-mac/src/lib.rs:63-117 | a profile lets be read the root, twelve system places, the workdir if enabled and both lists, and nothing else |
| Grants.NetworkGranted | crates/sandbox-mech-mac/src/lib.rs:124-138 | no network, the local host only, or all of it, by mode |
| Grants.RestGranted | crates/sandbox-mech-mac/src/lib.rs:52-86 | processes, signals, metadata and the like are allowed, device control for one device only |
| Grants.DefaultWrites | crates/sandbox-mech-mac/src/lib.rs:52-141 | what the default policy in `/work` lets be written, place by place |
| Grants.DefaultRefuses | crates/sandbox-mech-mac/src/lib.rs:52-141 | under it a write to `/etc/passwd` is refused and one in the workdir allowed |
| Podman.BuildRunArgs | crates/sandbox-mech-podman/src/lib.rs:95-199 | the pushes give the argument list, or the memory error |
| Podman.PushMounts | crates/sandbox-mech-podman/src/lib.rs:144-159 | the mount loops push one pair for each listed path that is mounted, in order |
| Volumes.MountMeans | crates/sandbox-mech-podman/src/lib.rs:206-228 | a listed path is mounted if and only if it is there, has a file name and does not begin like the workspace; source, guest path and mode of its word |
| Volumes.MountReadsBack | crates/sandbox-mech-podman/src/lib.rs:206-228 | read back, its word is the joined path, the guest path and read-only exactly when listed so, unless a colon makes it unreadable |
| Volumes.MountsConcat | crates/sandbox-mech-podman/src/lib.rs:144-159 | listing more paths mounts more, in the order of the list |
| Volumes.MountsOne | crates/sandbox-mech-podman/src/lib.rs:144-159 | a path alone; `/tmp` is not mounted writable |
| Volumes.VolumesReadBack | crates/sandbox-mech-podman/src/lib.rs:128-159 | behind the workspace the engine reads exactly the volumes of the listed paths that are mounted, read-only if and only if listed so |
| ContainerCli.RunArgsReadBack | crates/sandbox-mech-podman/src/lib.rs:95-199 | read back by the engine's option reader, an argument list is exactly the intended configuration if and only if its image is no option |
| ContainerCli.EnvWordReadsBack | crates/sandbox-mech-podman/src/lib.rs:165-169 | a variable reads back as itself if and only if its key has no equals sign |
| ContainerCli.EnvReadsBack | crates/sandbox-mech-podman/src/lib.rs:165-169 | the environment read back is the request's, the last value of a key winning, if and only if no key has an equals sign |
| AllowlistArgs.RemoveNetwork | crates/sandbox-mech-podman/src/lib.rs:442-456 | the skip-next loop is the token filter |
| AllowlistArgs.SkipNetworkMeans | crates/sandbox-mech-podman/src/lib.rs:442-456 | the filter drops each such token and the one behind it, and nothing else |
| AllowlistArgs.GuestCommandKept | crates/sandbox-mech-podman/src/lib.rs:442-456 | the filter leaves a guest command alone if and only if it has no `--network` token |
| AllowlistArgs.BuildAllowlistArgs | crates/sandbox-mech-podman/src/lib.rs:429-482 | filter, inserts and position search give the patched list, for any image token |
| AllowlistArgs.InsertProxy | crates/sandbox-mech-podman/src/lib.rs:461-479 | the ten shifting inserts put the five settings in front of the position, last inserted first |
| AllowlistArgs.SearchFindsImage | crates/sandbox-mech-podman/src/lib.rs:442-482 | the position search ends at the real image token if and only if no token before it is equal to it and it is not the filtered one |
| AllowlistArgs.PatchedAround | crates/sandbox-mech-podman/src/lib.rs:442-482 | for every image that the search finds: one gateway host, the settings just before the image, the filtered guest command |
| AllowlistArgs.PatchedShape | crates/sandbox-mech-podman/src/lib.rs:442-479 | the search always finds the default image, whatever the request contains |
| AllowlistArgs.PatchedReadBack | crates/sandbox-mech-podman/src/lib.rs:429-482 | read back, the patched list is the unrestricted configuration with gateway host, proxy settings after the user's own, and the filtered guest command |
| AllowlistArgs.ProxySettingsOverride | crates/sandbox-mech-podman/src/lib.rs:461-479 | the proxy settings win over the user's values of the same keys and change no other |
| AllowlistArgs.ProxyEnvironment | crates/sandbox-mech-podman/src/lib.rs:469-478 | the values the five proxy keys have in the container |
| AllowlistArgs.CreateArgs | crates/sandbox-mech-podman/src/lib.rs:284-294 | which of the two compilations a create request runs |
| AllowlistArgs.CreatedArgsReadBack | crates/sandbox-mech-podman/src/lib.rs:284-294 | every request with a memory size compiles to what it means; network none exactly in mode none whatever the rest contains; the memory limit read back is the policy's |
| AllowlistArgs.CreatedConfiguration | crates/sandbox-mech-podman/src/lib.rs:284-294 | every setting that the engine reads from a created command line, spelled out |
| Allowlist.KeyInjective | crates/sandbox-policy/src/lib.rs:123-127 | two endpoints share a key if and only if lowered host and port agree, even for hosts with colons |
| Allowlist.NormalizedKey | crates/sandbox-proxy/src/lib.rs:95-107 | normalisation removes white space in front of an endpoint's host and nothing else |
| Allowlist.NormalizedKeyKept | crates/sandbox-proxy/src/lib.rs:95-115 | it is the identity on an endpoint's key if and only if the host does not start with white space |
| Allowlist.NormalizeAllowTwice | crates/sandbox-proxy/src/lib.rs:95-107 | normalising an allow set is idempotent |
| Text.LowerCharMeans | crates/sandbox-proxy/src/lib.rs:99-113 | lower-casing maps the letters A to Z one by one and changes nothing else |
| Text.WhitespaceMeans | crates/sandbox-proxy/src/lib.rs:99 | the code points that trimming and splitting take for white space |
| Allowlist.TargetWithPort | crates/sandbox-proxy/src/lib.rs:143-152 | a target host:port is accepted if and only if that host and port are listed |
| Allowlist.TargetWithoutPort | crates/sandbox-proxy/src/lib.rs:143-152 | a target without a colon stands for port 443 |
| Allowlist.TargetWithBadPort | crates/sandbox-proxy/src/lib.rs:143-152 | a target whose text after the last colon is no port is never accepted |
| Allowlist.DryRunAgrees | crates/sandbox-proxy/src/lib.rs:212-215 | the dry-run check gives the proxy's answer for every host that a request can name and every port if and only if each host listed behind white space is also listed without it |
| Allowlist.DryRunMissesHost | crates/sandbox-proxy/src/lib.rs:212-215 | a list for which the dry run refuses what the proxy accepts |
| ConnectHandler.BufReader.ReadLine | crates/sandbox-proxy/src/lib.rs:118-131 | one line across chunks, and what stays buffered |
| ConnectHandler.FetchLineIsFirstLine | crates/sandbox-proxy/src/lib.rs:118-131 | chunked reading gives the stream's own first line and loses nothing |
| Headers.AfterHead | crates/sandbox-proxy/src/lib.rs:125-132 | behind any header lines and a blank line begins what is meant for the upstream |
| Headers.EndedHead | crates/sandbox-proxy/src/lib.rs:125-132 | a stream that ends within its header lines leaves nothing for the upstream |
| Headers.HeadThenLater | crates/sandbox-proxy/src/lib.rs:117-178 | with any header lines, when a read ends right behind the head, the answer to the request line is all that happens and exactly the later bytes are relayed |
| Headers.HeadWithEarlyBytes | crates/sandbox-proxy/src/lib.rs:117-178 | with the whole head in one read the bytes behind it in that read are lost and all later ones relayed |
| Headers.NoRequest | crates/sandbox-proxy/src/lib.rs:117-123 | nothing is answered to a client that sends nothing or a request line that is not UTF-8 |
| Headers.UnreadableHeader | crates/sandbox-proxy/src/lib.rs:125-132 | a header line that is not UTF-8 ends the connection without an answer, however the stream is cut into reads |
| Headers.HostLineIsDrained | crates/sandbox-proxy/src/lib.rs:125-150 | one request with a Host line: the upstream gets the one byte behind the head |
| ConnectHandler.HandleClient | crates/sandbox-proxy/src/lib.rs:117-178 | the handler ends on every finite stream and causes exactly the specified events |
| ConnectHandler.TraceIsSafe | crates/sandbox-proxy/src/lib.rs:134-178 | at most one status line, upstreams only from the allow set, relaying only after 200 and to that upstream |
| ConnectHandler.RequestDecision | crates/sandbox-proxy/src/lib.rs:134-158 | whatever the spelling of the method and the white space, a CONNECT line opens its upstream exactly when the target is accepted, with 403, 502 or 200 in order, and any other method gets 405 |
| ConnectHandler.ShortRequest | crates/sandbox-proxy/src/lib.rs:134-141 | a request line of fewer than two words gets 405 |
| ConnectHandler.ChunkingDoesNotDecide | crates/sandbox-proxy/src/lib.rs:117-178 | how the client's bytes are cut into segments changes no event but the relayed bytes |
| ConnectHandler.TunnelCarries | crates/sandbox-proxy/src/lib.rs:125-150 | the tunnel carries all bytes after the blank line if and only if one of the reads ended right behind it; otherwise it carries what follows some later read |
| ConnectHandler.EarlyBytesAreLost | crates/sandbox-proxy/src/lib.rs:150 | an accepted request whose head is one read: the bytes behind it in that read are not relayed, all later ones are |
| ConnectHandler.OneReadLosesByte | crates/sandbox-proxy/src/lib.rs:150 | one accepted request of which a byte is lost |
| ConnectHandler.OneReadRelaysNothing | crates/sandbox-proxy/src/lib.rs:150 | when everything a client sends is one read, nothing of it is relayed |
| ConnectHandler.WaitingClientLosesNothing | crates/sandbox-proxy/src/lib.rs:125-176 | a client that sends nothing with its head has everything later relayed |
| Relay.RelayIsFaithful | crates/sandbox-proxy/src/lib.rs:180-209 | in every interleaving delivered, pending and unread bytes make up the source, delivered is a prefix, and the number of steps is bounded |
| Relay.RelayDeliversAll | crates/sandbox-proxy/src/lib.rs:180-209 | a direction that stopped without an error has delivered everything |
| Relay.StuckMeansDone | crates/sandbox-proxy/src/lib.rs:180-209 | a relay that can only go on by an error has ended in both directions |
| Relay.StepsThatCanHappen | crates/sandbox-proxy/src/lib.rs:183-194 | in every reachable state a read takes 1 to 16384 of the bytes there are and happens only when nothing is left to write, and a write takes pending bytes |
| Relay.CopyLoop | crates/sandbox-proxy/src/lib.rs:183-194 | the loop over the reused buffer delivers exactly the prefix that the sink takes |
| Tunnel.UpstreamGetsPiece | crates/sandbox-proxy/src/lib.rs:150-209 | in every interleaving of the relay the upstream has received a gapless piece of what the client sent behind its head |
| Tunnel.UpstreamGetsAll | crates/sandbox-proxy/src/lib.rs:150-209 | when the up direction ended without an error, the upstream has all of it if and only if a read ended right behind the head |
| State.GetOrLastFinds | crates/sandbox-core/src/state.rs:99-122 | whatever the last used name is, asking for no name finds a stored record exactly when there is one |
| State.GetOrLastUsesLast | crates/sandbox-core/src/state.rs:107-121 | when the last used name is stored, the fallback to the newest record is not reached |
| Outcomes.KeyFinds | crates/sandbox-core/src/state.rs:91-107 | a given key finds the first record that has it as name or id, or nothing, whatever was used last |
| Outcomes.NoKeyFinds | crates/sandbox-core/src/state.rs:107-121 | no key finds the first record of the last used name, and without one the newest |
| Outcomes.InsertMeans | crates/sandbox-core/src/state.rs:124-144 | a taken name is refused, a new record is appended and becomes the last used |
| Outcomes.RemoveMeans | crates/sandbox-core/src/state.rs:181-192 | the first record of that key goes; if it was the last used, the newest remaining one becomes it |
| Outcomes.HashMeans | crates/sandbox-core/src/state.rs:164-179 | the first record of that name gets the hash and becomes the last used |
| Outcomes.LoadMeans | crates/sandbox-policy/src/lib.rs:223-231 | a text loads as a policy if and only if it parses as that policy and the policy is valid |
| Outcomes.ComplaintMeans | crates/sandbox-policy/src/lib.rs:233-260 | the first complaint, check by check |
| State.FindIsMap | crates/sandbox-core/src/state.rs:91-97 | with distinct keys lookup is a map: a key finds a record if and only if it is its name or id |
| State.NameAndIdAgree | crates/sandbox-core/src/state.rs:91-97 | name and id retrieve the same record |
| State.RemoveTakesFound | crates/sandbox-core/src/state.rs:181-192 | removing takes out exactly the record lookup returns, and keeps the others in order |
| State.InsertThenRemove | crates/sandbox-core/src/state.rs:124-192 | removing what was just inserted restores the list if and only if its name is no older id |
| Store.Open | crates/sandbox-core/src/state.rs:55-66 | the default index is written when there is none |
| Store.Get | crates/sandbox-core/src/state.rs:91-97 | the first record of that name or id, or not found |
| Store.GetOrLastUsed | crates/sandbox-core/src/state.rs:99-122 | by key, else the last used, else the newest |
| Store.Insert | crates/sandbox-core/src/state.rs:124-144 | one index write that appends the record and makes it the last used, or none and already-exists |
| Store.SavePolicy | crates/sandbox-core/src/state.rs:146-155 | one policy file write |
| Store.LoadPolicy | crates/sandbox-core/src/state.rs:157-162 | the parsed and validated policy file, or the error |
| Store.UpdatePolicy | crates/sandbox-core/src/state.rs:164-179 | the policy file, then the index with the new hash, in this order |
| Store.Remove | crates/sandbox-core/src/state.rs:181-199 | the index without the record, then the policy file removed, in this order |
| Store.TouchLastUsed | crates/sandbox-core/src/state.rs:201-205 | one index write with an unchecked name |
| MacRuntime.MacCreate | crates/sandbox-mech-mac/src/lib.rs:331-352 | directory, profile, workdir and policy are written in this order; the runtime id |
| MacRuntime.MacRemove | crates/sandbox-mech-mac/src/lib.rs:374-381 | the tree at the runtime id's directory is removed |
| MacRuntime.DirOfCreated | crates/sandbox-mech-mac/src/lib.rs:390-404 | the runtime id from create leads back to its instance directory |
| MacRuntime.OtherDirsSurvive | crates/sandbox-mech-mac/src/lib.rs:374-381 | removing one instance's tree reaches another's if and only if the names are equal |
| Commands.LoadCommandPolicy | crates/ssbx/src/main.rs:238-260 | file or default, overridden, then validated |
| Commands.CmdCreate | crates/ssbx/src/main.rs:283-340 | runtime, then policy file, then index; every error exit with the writes done so far |
| Commands.CmdExec | crates/ssbx/src/main.rs:396-410 | lookup, touch, then the mechanism |
| Commands.CmdPolicyGet | crates/ssbx/src/main.rs:412-422 | the policy file of the record found |
| Commands.CmdPolicySet | crates/ssbx/src/main.rs:423-429 | lookup, policy checks, then the update |
| Commands.CmdRm | crates/ssbx/src/main.rs:454-460 | store first, then the mechanism's remove |
| Commands.RunCommand | crates/ssbx/src/main.rs:144-225 | one invocation: open, then the command |
| Outcomes.UnknownKey | crates/ssbx/src/main.rs:396-460 | with a key that no record has, exec, policy get, policy set and rm write nothing after opening and report not-found |
| Outcomes.NothingStored | crates/ssbx/src/main.rs:396-429 | so do exec and policy without a key in an empty store |
| Outcomes.WithoutIndex | crates/sandbox-core/src/state.rs:91-205 | without an index every store operation fails, an update after its policy file is written |
| Outcomes.UpdateOfUnknown | crates/sandbox-core/src/state.rs:164-179 | an update under a name that no record has leaves a policy file behind and the index alone |
| Outcomes.ExecMeans | crates/ssbx/src/main.rs:396-410 | exec makes the sandbox found the last used one and reports what the mechanism did |
| Outcomes.PolicyGetMeans | crates/ssbx/src/main.rs:412-422 | policy get writes nothing and shows the file of the sandbox found |
| Outcomes.PolicySetMeans | crates/ssbx/src/main.rs:423-429 | policy set writes the file, then hash and last used name |
| Outcomes.PolicySetRefuses | crates/ssbx/src/main.rs:423-429 | a text that does not parse, is not valid or does not fit is refused and writes nothing |
| Outcomes.RmMeans | crates/ssbx/src/main.rs:454-460 | rm writes the index, then removes the policy file, then a mac sandbox's directory; and its result |
| Outcomes.OverriddenMeans | crates/ssbx/src/main.rs:249-257 | CPU count, memory and mechanism are replaced each by itself, and nothing else |
| Outcomes.CommandPolicyMeans | crates/ssbx/src/main.rs:238-260 | a policy file must be valid before and after the replacements |
| Outcomes.ResolveMeans | crates/sandbox-core/src/lib.rs:110-124 | the automatic mechanism is the container engine on mac and Linux and the seatbelt elsewhere |
| Outcomes.PreparedMeans | crates/ssbx/src/main.rs:292-303 | a create is refused for its policy, the capacity, the secrets and the proxy, in this order |
| Outcomes.CreateRefuses | crates/ssbx/src/main.rs:292-316 | a refused create, or one whose mechanism fails, writes nothing |
| Outcomes.RecordMeans | crates/ssbx/src/main.rs:317-326 | the record of a create, field by field |
| Outcomes.ContainerCreateMeans | crates/ssbx/src/main.rs:327-328 | a container create writes the policy file, then the record, unless the name is stored |
| Outcomes.MacWritesMean | crates/sandbox-mech-mac/src/lib.rs:331-341 | the four writes of a mac create, each over what is there |
| Outcomes.LaunchMeans | crates/sandbox-mech-mac/src/lib.rs:355-404 | a launch, file by file, with what stands in for a missing one |
| Outcomes.ParentMeans | crates/sandbox-mech-mac/src/lib.rs:374-382 | the directory of a profile path is what stands in front of its last slash |
| Lifecycle.CommandIsSound | crates/ssbx/src/main.rs:283-460 | every single write of every command keeps the crash invariant |
| Lifecycle.CrashSafety | crates/ssbx/src/main.rs:316-328 | wherever the commands of a run stop, the directory is sound |
| Lifecycle.CrashConsistency | crates/sandbox-core/src/state.rs:146-199 | after any run with any stops every stored sandbox has a policy that loads, a mac one has its directory, names are distinct, and the last used sandbox is a stored one |
| Agreement.HashStep | crates/ssbx/src/main.rs:316-328 | a completed command keeps hashes and policy files in agreement if and only if it is no create over a stored name with another hash |
| Agreement.HashAgreement | crates/sandbox-core/src/state.rs:164-179 | over runs without such creates every hash is that of its file |
| Agreement.SecondCreateClobbers | crates/ssbx/src/main.rs:316-328 | on a mac a second create of a name is refused and leaves a hash that is not its file's |
| Agreement.CutStep | crates/sandbox-core/src/state.rs:164-179 | a command that stops anywhere keeps hashes and policy files in agreement if and only if it is no clobbering create past the policy file and no `policy set` with another hash between its two writes |
| Agreement.HashAgreementAcrossStops | crates/sandbox-core/src/state.rs:124-199 | over any run with any stops the hashes agree all the way if and only if none of the stops is such a one |
| Agreement.FailureLeavesIndex | crates/ssbx/src/main.rs:396-460 | a failed command leaves the index as it was, or the empty one where there was none, if and only if it did not fail after its index write |
| Instances.InstancesStayIntact | crates/sandbox-mech-mac/src/lib.rs:331-341 | between completed commands profile, workdir and policy of each instance belong together |
| Instances.LaunchIsConsistent | crates/sandbox-mech-mac/src/lib.rs:355-372 | launching a stored mac sandbox finds a profile that is the compilation of the policy and workdir beside it |
| Instances.CutInstanceStep | crates/sandbox-mech-mac/src/lib.rs:331-341 | a command that stops anywhere leaves every instance intact if and only if it is no mac create stopped among its four instance writes with something different still to write |
| Instances.InstancesAcrossStops | crates/sandbox-mech-mac/src/lib.rs:331-341 | over any run with any stops every instance stays intact all the way if and only if none of the stops is such a one |
| Instances.LaunchStep | crates/sandbox-mech-mac/src/lib.rs:300-372 | one command changes what a mac sandbox that stays stored runs under if and only if it is a create of its name with another policy or workdir |
| Instances.ExecRunsUnderLastCreate | crates/sandbox-mech-mac/src/lib.rs:300-372 | after any run a stored mac sandbox runs under the policy and in the workdir of the last create of its name, stored or refused |
| Instances.ExecRunsUnderCreatePolicy | crates/sandbox-mech-mac/src/lib.rs:300-372 | whatever commands follow a create, exec runs under its policy and in its workdir if and only if the last later create of the name had the same |
| Instances.RefusedCreateReplacesLaunch | crates/ssbx/src/main.rs:304-328 | on a mac a create of a stored name fails with already-exists, changes no index, and leaves the stored sandbox running under the refused policy |
| Agreement.RemoveKeepsOtherFiles | crates/sandbox-core/src/state.rs:181-199 | removing a sandbox leaves the others' policy files as they were |
| Agreement.PolicySetThenGet | crates/ssbx/src/main.rs:412-429 | the sandbox whose policy was set is the one shown next if and only if no older sandbox's id is its name, and then that policy is shown |
| Witness.MacSandboxExists | crates/ssbx/src/main.rs:283-340 | there is a run, with policies printed as text, after which a mac sandbox is stored |
| Witness.ClobberExists | crates/ssbx/src/main.rs:316-328 | there are two creates of one name of which the second is refused and leaves a hash that is not its file's |
| Interleaving.AlwaysCoherent | crates/sandbox-core/src/state.rs:55-205 | under every schedule the index on disk and every loaded copy have distinct names and distinct issued ids, and no pending id is in any of them |
| Interleaving.EveryIndexIsProper | crates/sandbox-core/src/state.rs:55-205 | every index ever on disk has distinct names and ids, and asking for no name finds a stored record exactly when there is one |
| Uninterrupted.SoloIsSequential | crates/ssbx/src/main.rs:283-460 | a process alone makes the writes of its sequential command, in their order |
| Uninterrupted.UninterruptedIsSequential | crates/ssbx/src/main.rs:283-460 | in any system of processes, a command that is not interrupted has its sequential effect and disturbs no other process |
| Lawful.EveryPolicyLoads | crates/sandbox-core/src/state.rs:146-179 | under every schedule every policy file on disk parses and validates |
| Lawful.StoredPolicyLoads | crates/sandbox-core/src/state.rs:157-162 | under every schedule a sandbox's policy loads if and only if its file is there |
| Lawful.IdsAreOwn | crates/sandbox-mech-mac/src/lib.rs:343-352 | under every schedule a mac record, stored, loaded or pending, has the runtime id of its name |
| Lawful.DropsOwnTree | crates/sandbox-mech-mac/src/lib.rs:374-381 | what an rm removes is one instance directory, which evicts a stored mac sandbox exactly when it has that name |
| Interference.LastUsedStep | crates/sandbox-core/src/state.rs:201-205 | a step of any process keeps the last used name stored, on disk and in every copy, if and only if it is no touch of a name its copy lacks |
| Interference.LastUsedThroughout | crates/sandbox-core/src/state.rs:124-205 | over any schedule the last used name is stored after every event if and only if none is such a touch |
| Interference.FilesStep | crates/sandbox-core/src/state.rs:124-199 | a step leaves every stored sandbox its policy file if and only if it neither removes a stored sandbox's file nor saves a record of its copy, or its own new one, whose file is gone |
| Interference.FilesThroughout | crates/sandbox-core/src/state.rs:124-199 | over any schedule every stored sandbox has its policy file after every event if and only if no step does either |
| Interference.HashesStep | crates/sandbox-core/src/state.rs:124-199 | a step keeps every hash that of its policy file if and only if it neither writes the file of a sandbox stored under another hash, nor removes a stored one's, nor saves a record whose hash its file does not have |
| Interference.HashesThroughout | crates/sandbox-core/src/state.rs:124-199 | over any schedule every hash is that of its file after every event if and only if no step does any of these |
| Interference.HomesStep | crates/sandbox-mech-mac/src/lib.rs:374-381 | a step leaves every stored mac sandbox its instance directory if and only if it neither removes a tree with one nor saves a mac record whose directory is gone |
| Interference.HomesThroughout | crates/sandbox-mech-mac/src/lib.rs:331-381 | over any schedule every stored mac sandbox has its directory after every event if and only if no step does either |
| Interference.StoredStep | crates/sandbox-core/src/state.rs:55-205 | a step takes a stored sandbox out of the store if and only if it saves a copy that lacks it, removes it, or writes the empty index |
| History.LoadsFirst | crates/sandbox-core/src/state.rs:124-205 | a process with a save still to make has loaded the index or will do so first |
| History.WritesFirst | crates/ssbx/src/main.rs:327-328 | a process with a record still to insert has written its policy file or will do so first |
| History.LostToOlderLoad | crates/sandbox-core/src/state.rs:55-205 | a sandbox that was stored is lost only to its own rm, to a copy that was loaded before it was stored and not since, or to a process started before it was stored |
| History.EmptyWriteIsOld | crates/sandbox-core/src/state.rs:55-66 | once there is an index, no process started later empties the store |
| History.StrippingCopyIsStale | crates/sandbox-core/src/state.rs:181-205 | a copy that names a sandbox with no policy file was loaded from an index that did so already, or an rm removed the file since |
| History.StrippingSaveCause | crates/sandbox-core/src/state.rs:124-205 | the save that first leaves a stored sandbox without its policy file goes back to an rm that removed the file after the copy was loaded or after the create wrote it |
| Schedules.RmCanTakeNewPolicy | crates/sandbox-core/src/state.rs:181-199 | a schedule in which a stored sandbox loses its policy file to the rm of its predecessor |
| Schedules.RmCanTakeNewInstance | crates/ssbx/src/main.rs:454-458 | a schedule in which a stored mac sandbox also loses its instance directory to it |
| Schedules.OwnFileIsDropped | crates/ssbx/src/main.rs:327-328 | a schedule in which a create stores a sandbox whose policy file was removed before the create loaded the index |
| Schedules.StaleTouchRevives | crates/sandbox-core/src/state.rs:181-205 | a schedule in which a removed sandbox comes back without its policy file |
| Schedules.PolicySetsCanCross | crates/sandbox-core/src/state.rs:164-179 | a schedule in which two completed policy sets leave the hash of one beside the file of the other |
| Schedules.TouchCanDangle | crates/sandbox-core/src/state.rs:201-205 | a schedule in which the last used name dangles, and lookup still answers |
| Schedules.CreateCanBeLost | crates/sandbox-core/src/state.rs:124-144 | a schedule in which a create that succeeded is not stored |
| Schedules.OpenCanEmptyStore | crates/sandbox-core/src/state.rs:55-66 | a schedule in which opening empties the store after a create succeeded |

## Left out

- Starting processes, the container engine, `sandbox-exec`, image pulls, resource limits, `doctor` and `logs`: outcomes only.
- `run`: ephemeral sandboxes are compiled here (`AllowlistArgs.CreateArgs` with the ephemeral flag) but store nothing.
- Sockets, accepting, shutdown and the async runtime: streams and steps only; a stopped relay task's shutdown of its socket is not modelled.
- The allocator behind `preflight`: an uninterpreted yes or no on a valid policy.
- Secret resolution, the krun stub's messages, the control channel, `ls` and the command-line parser.
- CPU counts are the sign and magnitude bits of a float; sign and payload of a not-a-number and the decimal printing are not modelled.
- Paths are text read as components; symbolic links, `..`, a leading `.` of a relative workdir, case-insensitive file systems and the quoting of paths in profile text are not modelled, and profiles are rule lists.
- Partial writes of one file and the ignored failure of writing an instance's `policy.yaml`: a file write happens whole or the process stops before it.
- MacRuntime.DirOfCreated: `Parent` is `Path::parent` for paths without trailing or doubled separators, the only ones create makes.
- What an instance directory holds while two creates of its name interleave: of several processes only the directory's presence is stated, of one process also its contents, after every stop.
- Commands.RunCommand: models the dispatch of `create`, `exec`, `policy get`, `policy set` and `rm`. `shell` makes the store writes of `exec`; `run`, `ls`, `logs` and `doctor` write nothing to the store after opening it.
- That one read of the request reader returns at most 8 KiB: chunks may have any length here, so the statements hold for those that occur.
- Store.Insert: the UUID for a record without an id is a parameter; records from `create` always have one.
