# Boot-loader discovery service of rust-simple-init, in Dafny

This project models the `Bootloader` service of rust-simple-init. The service
finds block devices, mounts each partition read-only, looks on it for an EFI
loader, and chooses a boot entry by device-type priority. The model also covers
the sysfs helpers the service relies on.

The model is split into five modules:

- `Wrappers` (`wrappers.dfy`): `Option` and `Result`.
- `Sysfs` (`sysfs.dfy`):
  - lexical paths and a read-only filesystem snapshot `Fs`;
  - `str::trim` and the first line of a file;
  - the last component of a symlink target;
  - the ancestor walk `walk_path_has_subdir`, as a method with a loop;
  - the line iterator `SysfsEntryIter`, as a class whose `Next` consumes a sequence of read outcomes.
- `Devices` (`devices.dfy`), the pure helpers of `src/services/bootloader.rs`:
  - the storage test and the partition-prefix test;
  - device classification (`block_device_type`);
  - parsing of the `major:minor` text of a sysfs `dev` file;
  - the `/dev` node search.
- `Probe` (`probe.dfy`):
  - the `DeviceProbe` class, whose state moves `Unchecked -> Mounting(pid) -> Scanning -> Complete`;
  - its `mount`, `scan` and `event` as methods;
  - the specification functions `ScanResult` and `OnEvent`, and the lemmas about them.
- `Bootloader` (`bootloader.dfy`):
  - the `Bootloader` class, holding the list of probes `checked`;
  - `probe_partition`, `select_boot_entry`, `state`, `start` and `event`;
  - the specification functions `SelectIndex`/`Select` and `Candidates`.

The environment the service observes is an input to the model:

- Filesystem calls become lookups in the `Fs` snapshot: `read_dir`, `read_to_string`, `read_link`, `canonicalize`, `exists`, `is_dir` and `metadata`.
- `procfs::device_mounted` and `create_dir_all` become the sets `Env.mounted` and `Env.unmakeable`.
- `Command::spawn` becomes a `Host` object. It holds the outcomes of successive launches: a pid, or a failure. When the script runs out, launches fail.
- A child process is represented by its pid only.

Two behaviours of the source are worth stating, because a reader might expect otherwise:

- A probe whose mount helper cannot be launched is kept:
  - `mount` returns Ok in that case, with the probe already `Complete` (src/services/bootloader.rs:208-211);
  - `probe_partition` therefore pushes it onto `checked` (src/services/bootloader.rs:306-308), and it never contributes a boot entry.
- The loader is searched in the `EFI` directory of the mounted device itself (src/services/bootloader.rs:218-220), not in `EFI/BOOT`.

## Model

| member | source | states |
|---|---|---|
| Sysfs.TrimStartDrops | src/sysfs.rs:35 | trimming the front keeps a suffix that starts with a non-whitespace character, and drops only whitespace |
| Sysfs.TrimEndDrops | src/sysfs.rs:35 | trimming the back keeps a prefix that ends with a non-whitespace character, and drops only whitespace |
| Sysfs.TrimBounds | src/sysfs.rs:35 | what `trim` keeps is a contiguous slice bounded by non-whitespace characters, and only Unicode whitespace lies outside it |
| Sysfs.TrimIdempotent | src/sysfs.rs:35 | trimming an already trimmed line changes nothing |
| Sysfs.FirstLine | src/sysfs.rs:75-83 | the first line is none exactly for empty content; otherwise it is a newline-free prefix ending at the end, at a `\n`, or before a `\r\n` |
| Sysfs.ReadLineFileMeans | src/sysfs.rs:75-83 | none exactly when the file cannot be read or is empty; otherwise a newline-free prefix of the file's content |
| Sysfs.ReadLineFileOfLine | src/sysfs.rs:75-83 | a file holding one line and its newline reads back as exactly that line |
| Sysfs.ReadLinkFileNameOfTarget | src/sysfs.rs:92-101 | a link whose target ends in a name yields that name; a path that is not a link yields none |
| Sysfs.ReadLinkFileNameMeans | src/sysfs.rs:92-101 | a path yields name `c` exactly when it is a link whose target has a last component, that component is `c`, and `c` is not `..` |
| Sysfs.HasSubdir | src/sysfs.rs:103-114 | the loop over the listing returns true exactly when the path can be listed and one of its entries has the name |
| Sysfs.NearestWithSubdir | src/sysfs.rs:103-129 | the result is an ancestor (a prefix) of the path that has the entry, and no closer ancestor has it; none means no ancestor has it |
| Sysfs.WalkPathHasSubdir | src/sysfs.rs:116-129 | the popping loop returns exactly the nearest ancestor holding the entry, and terminates |
| Sysfs.NextOfRestIsSuffix | src/sysfs.rs:21-42 | `next` consumes a nonempty prefix of the reads: what remains is a strictly shorter suffix, never revisited |
| Sysfs.NextOfConsumesPrefix | src/sysfs.rs:21-42 | every read skipped by `next` is a nonempty line whose trimmed text does not parse; the last consumed read decides the result: the parsed entry, or none on EOF, an error or an empty line |
| Sysfs.EntryIter.constructor | src/sysfs.rs:56-65 | an iterator starts with all reads of its input pending |
| Sysfs.EntryIter.Next | src/sysfs.rs:21-42 | the loop returns the result and leaves the remaining reads that `NextOf` specifies |
| Devices.AnyWithPrefix | src/services/bootloader.rs:80-89 | true exactly when some listed name starts with the prefix |
| Devices.BlockDeviceHasPartitions | src/services/bootloader.rs:77-92 | true exactly when `/sys/class/block/<name>` can be listed and one entry starts with the name |
| Devices.BlockDevicePath | src/services/bootloader.rs:94-111 | the result exists and is the `device` entry beside the canonical sysfs directory, or the one beside its parent |
| Devices.BlockDevicePathChoice | src/services/bootloader.rs:94-111 | the device's own `device` entry is preferred and its parent's is the fallback; none exactly when the class link cannot be resolved or neither entry exists |
| Devices.BlockDeviceTypeOf | src/services/bootloader.rs:113-135 | never `Network`; `USB` iff a `scsi` device whose nearest `scsi_host` ancestor's parent is on `usb`; `Internal` iff `virtio` or another `scsi` device; `Other` iff no backing device or another subsystem |
| Devices.ParseU64 | src/services/bootloader.rs:143-144 | an accepted number is below 2^64 |
| Devices.DigitsValueAccepts | src/services/bootloader.rs:143-144 | a digit string has a decimal value exactly when every character is an ASCII digit |
| Devices.ParseU64Accepts | src/services/bootloader.rs:143-144 | text is accepted exactly when what follows an optional `+` is a nonempty run of ASCII digits whose value fits in 64 bits, and the number is that value |
| Devices.DecimalStringValue | src/services/bootloader.rs:143-144 | the decimal text of a number has that number as its value |
| Devices.ParseU64OfDecimal | src/services/bootloader.rs:143-144 | the decimal text of any 64-bit number parses back to it, with or without `+` |
| Devices.SplitOnce | src/services/bootloader.rs:142 | the two parts rebuild the text around the first separator; none exactly when there is no separator |
| Devices.SplitOnceAtFirst | src/services/bootloader.rs:142 | text whose first separator follows a separator-free part splits into that part and the rest |
| Devices.DevNumbersErrors | src/services/bootloader.rs:137-145 | parsed numbers fit in 64 bits; "missing dev node information" exactly when the file's first line cannot be read; "unparsable" exactly when that line has no `:` |
| Devices.DevNumbersOfKernelText | src/services/bootloader.rs:139-144 | a `dev` file holding `<major>:<minor>` and a newline yields that pair |
| Devices.FileIsChardevModeTest | src/services/bootloader.rs:46-63 | the mode test is a bit test: a directory passes it, a regular file does not |
| Devices.FindDeviceNode | src/services/bootloader.rs:152-166 | the first non-directory `/dev` entry that is the node with the numbers; none when no entry is |
| Devices.BlockDeviceNode | src/services/bootloader.rs:137-171 | parse errors propagate; `/dev/<name>` wins when it matches; any result is a matching `/dev/<entry>`; otherwise the error is "no device node" |
| Devices.BlockDeviceNodeSearch | src/services/bootloader.rs:146-170 | when `/dev/<name>` is not the node, the result is `/dev/<entry>` for the first entry the search finds, and "no device node" exactly when `/dev` cannot be listed or no non-directory entry is the node |
| Probe.Host.SpawnMount | src/services/bootloader.rs:198-204 | a launch yields the next scripted outcome and consumes it |
| Probe.Lower | src/services/bootloader.rs:217-229 | lowering keeps the length and lowers each character |
| Probe.FindLoader | src/services/bootloader.rs:220-243 | the first listed entry that is not a directory and is named `bootx64.efi` in any case |
| Probe.ScanResult | src/services/bootloader.rs:215-247 | a found entry is `EFI/<name>` for the first loader listed, with no initramfs and no append; none when `EFI` cannot be listed or holds no loader |
| Probe.ScanFindsFirstLoader | src/services/bootloader.rs:215-247 | whatever the letter case of its name, the first non-directory entry of `EFI` named `bootx64.efi` is the entry found, as `EFI/<its listed name>` |
| Probe.DeviceProbe.Scan | src/services/bootloader.rs:215-247 | the loop leaves the probe `Complete` with the entry `ScanResult` specifies appended, if any |
| Probe.DeviceProbe.constructor | src/services/bootloader.rs:179-186 | a new probe is `Unchecked`, has no entries, and uses `/var/run/bootloader/mounts/<name>` as its mount point |
| Probe.DeviceProbe.New | src/services/bootloader.rs:175-187 | construction fails with exactly the node-resolution error; otherwise the probe has the resolved node and the classified type, and is unchecked |
| Probe.DeviceProbe.Mount | src/services/bootloader.rs:189-213 | an already mounted device or an uncreatable mount point is an error and changes nothing; otherwise the state becomes `Mounting(pid)`, or `Complete` when the launch fails (still Ok) |
| Probe.DeviceProbe.Event | src/services/bootloader.rs:249-279 | the probe's answer and new state are those `OnEvent` specifies |
| Probe.OnEventCorrelation | src/services/bootloader.rs:249-279 | an event is consumed iff it is the exit of the probe's own mount helper; an unconsumed event changes nothing |
| Probe.OnEventCompletes | src/services/bootloader.rs:258-267 | a consumed exit completes the probe; a failure adds nothing, a success scans |
| Probe.FailedMountFindsNothing | src/services/bootloader.rs:254-261 | exit status 32 gives `Complete` with no entries; another pid's exit is ignored |
| Probe.OnEventMonotone | src/services/bootloader.rs:249-279 | the state rank never decreases, `Complete` is never left, and one event appends at most one entry |
| Probe.OnEventsMonotone | src/services/bootloader.rs:249-279 | over any run of events the rank never decreases, a complete probe is unchanged, and at most one entry is ever added |
| Bootloader.FirstBootable | src/services/bootloader.rs:325-334 | the first probe in registration order that is complete, of the type, and has an entry |
| Bootloader.SelectIndex | src/services/bootloader.rs:323-338 | the stop position is bootable; no earlier type has any bootable probe; no earlier probe is bootable for the chosen type |
| Bootloader.SelectChoosesByPriority | src/services/bootloader.rs:323-338 | the probe that is bootable for the highest-priority type, and first among such probes, supplies the selected entry |
| Bootloader.SelectNoneIffNothingBootable | src/services/bootloader.rs:323-338 | nothing is selected exactly when no probe is bootable for any listed type |
| Bootloader.PreferUsbOverInternal | src/services/bootloader.rs:323-338 | with order [USB, Internal], whenever some probe is bootable as USB the first such probe supplies the entry, whatever internal probes are bootable and wherever they are registered |
| Bootloader.Bootloader.SelectBootEntry | src/services/bootloader.rs:323-338 | the nested loops return exactly what `Select` specifies over the probes' summaries |
| Bootloader.HotplugOfNewDisk | src/services/bootloader.rs:403-417 | a block `Add` for a name asks for a probe exactly when it has no partitions; a removal asks for none |
| Bootloader.HotplugAsks | src/services/bootloader.rs:403-417 | a probe of `name` is asked for exactly on a block `Add` whose `DEVNAME` is `name` and whose class directory cannot be listed or has no entry starting with `name`; a process exit never asks |
| Bootloader.PartitionsOfMembers | src/services/bootloader.rs:367-375 | the names probed for a disk are exactly the listed entries that start with its name |
| Bootloader.NoPartitionEntries | src/services/bootloader.rs:370-372 | a listing with no entry starting with the disk's name yields no partitions |
| Bootloader.UnpartitionedDiskIsSkipped | src/services/bootloader.rs:352-386 | a disk without partition entries contributes nothing to `start` |
| Bootloader.DiskCandidatesMembers | src/services/bootloader.rs:65-75 | a `/sys/block` entry contributes the entries of its directory that start with its name, and only when `/sys/block/<disk>/device` exists; a device that is not storage contributes nothing |
| Bootloader.CandidatesStep | src/services/bootloader.rs:360-382 | one more `/sys/block` entry appends exactly its own candidates, after those of the entries before it |
| Bootloader.CandidatesOfMembers | src/services/bootloader.rs:355-378 | a name is tried by `start` iff it is a partition entry of a listable storage disk |
| Bootloader.AfterProbingExtends | src/services/bootloader.rs:352-386 | probing candidates keeps the names already probed as a prefix and adds at most one name per candidate |
| Bootloader.AfterProbingMembers | src/services/bootloader.rs:352-386 | after probing, a name is present exactly when it was before, or it is a candidate whose probe is kept |
| Bootloader.AfterProbingDistinct | src/services/bootloader.rs:296-300 | probing keeps names pairwise distinct: a name already probed is never added again |
| Bootloader.AfterProbingAppend | src/services/bootloader.rs:360-382 | probing two runs of candidates in turn is probing their concatenation |
| Bootloader.StartNames | src/services/bootloader.rs:352-386 | after `start`, a name is probed exactly when it was before, or it is a partition entry of a listable storage disk and its probe is kept |
| Bootloader.PartitionsStep | src/services/bootloader.rs:367-375 | one more directory entry is probed when it starts with the disk's name and skipped otherwise |
| Bootloader.IdentifiedMeans | src/services/bootloader.rs:175-187 | a probe agrees with the verdict on its name exactly when it has the node `block_device_node` resolves, the class `block_device_type` gives, and the mount point of its name |
| Bootloader.AllIdentifiedEach | src/services/bootloader.rs:175-187 | every probe of a list agrees with the verdicts exactly when each one does |
| Bootloader.AllIdentifiedAppend | src/services/bootloader.rs:306-308 | appending probes that agree with the verdicts to a list that does keeps the whole list in agreement |
| Bootloader.LaunchedAppend | src/services/bootloader.rs:306-308 | two runs of probes each launched in turn from the spawn script, the second from what the first left, are together launched from it in order |
| Bootloader.LaunchedEach | src/services/bootloader.rs:306-308 | in a run of launched probes, the k-th one is in the state its launch gives with the k-th outcome of the script |
| Bootloader.Bootloader.constructor | src/services/bootloader.rs:288-292 | the service starts with no probes |
| Bootloader.Bootloader.State | src/services/bootloader.rs:345-350 | `Inactive` iff there are no probes, `Running` iff there are some |
| Bootloader.Bootloader.ProbePartition | src/services/bootloader.rs:294-321 | a known name is refused and changes nothing. Otherwise it returns whether construction succeeded, and appends the fresh probe at the end only when it is also accepted by `mount`. Names stay pairwise distinct |
| Bootloader.Bootloader.ProbeEntry | src/services/bootloader.rs:373-375 | the probes before are kept in place and at most one probe is pushed after them, exactly when the name is new and its probe is kept: a fresh probe agreeing with its verdict, in the state its own launch gives (the next outcome of the spawn script), with no entry; the script left is the old one minus one outcome per new probe |
| Bootloader.Bootloader.ProbeListed | src/services/bootloader.rs:368-375 | one directory entry extends the probes kept so far with fresh probes that agree with their verdicts and are each in the state of its own launch, consuming the spawn script in push order; the names become those of probing the partition entries up to and including it |
| Bootloader.Bootloader.ProbePartitions | src/services/bootloader.rs:366-378 | the disk's partition entries extend the probes kept so far with fresh probes that agree with their verdicts and are each in the state of its own launch, consuming the spawn script in push order (the script left is the old one minus one outcome per new probe); the names become those of probing the entries in listing order |
| Bootloader.Bootloader.ProbeDisk | src/services/bootloader.rs:360-382 | one `/sys/block` entry extends the probes kept so far with fresh probes that agree with their verdicts and are each in the state of its own launch, consuming the spawn script in push order; the names become those of probing the candidates of the entries so far |
| Bootloader.Bootloader.ProbeDisks | src/services/bootloader.rs:355-383 | the probes before are kept in place; the new ones are fresh, agree with their verdicts and are each in the state of its own launch, consuming the spawn script in push order (the script left is the old one minus one outcome per new probe); the names become those of probing every candidate in order |
| Bootloader.Bootloader.Start | src/services/bootloader.rs:352-386 | the probes before are kept as a prefix; the k-th new probe is fresh, has no entry, is in the state its launch gives with the k-th remaining outcome of the spawn script, and has the node, class and mount point of its name; the script left is the old one minus one outcome per new probe; the names are the old ones followed by the first occurrence of each new, admissible candidate, in order, and stay distinct |
| Bootloader.Bootloader.Dispatch | src/services/bootloader.rs:393-396 | every probe sees the event and steps as `OnEvent` says; the result is true iff some probe consumed it; the list itself is unchanged |
| Bootloader.Bootloader.Event | src/services/bootloader.rs:392-422 | every probe sees the event, and the result says whether any consumed it. An unconsumed hotplug `Add` of an unpartitioned, unknown, admissible device appends one fresh probe. Otherwise the list is unchanged |

Some lemmas are proof helpers only. They state nothing of their own about the service, so they have no row:

- `Bootloader.SomeVerdicts` and `Bootloader.VerdictsUnique` give the verdict of each name, which is fixed by the environment.
- `Bootloader.NamesSnoc` and `Bootloader.AppendTwice` are facts about appending to lists.
- `Bootloader.DropRest` and `Bootloader.DropDrop` are facts about the remaining spawn script.

## Left out

- Logging (`runtime.logger.service_log`) is left out: it only produces output.
- `Runtime`, `ServiceManager` and the uevent parser are not part of this model. A uevent is a map of fields plus an action.
- `Service::setup` and `Service::stop` are left out: both have empty bodies.
- `SysfsEntryIter::from_file`, `read_file` and `read_link` are left out: they are thin I/O wrappers.
- Probe.Host.SpawnMount: the arguments passed to `mount` are not modelled; a launch is reduced to its outcome.
- Probe.Lower: lowers ASCII letters only.
  - `to_lowercase` maps more characters, but the only non-ASCII character whose lower case is an ASCII letter is the Kelvin sign (to `k`).
  - `bootx64.efi` contains no `k`, so the comparison decides the same.
- Sysfs.EntryIter.Next: a line that is not UTF-8 is modelled as a read error that consumes the line.
  - The check of an empty buffer after a nonzero read (src/sysfs.rs:31-33) cannot succeed and is not modelled.
- Directory listings never contain a failed entry, and every name is valid UTF-8. The `unwrap` panics on non-UTF-8 names in `start` and the skipped failed entries are therefore not modelled.
- Device names are single path components; a name containing `/` is not modelled.
- Devices.FileIsChardevModeTest: the `major`/`minor` decoding of `st_rdev` is a foreign call. It is taken as an already decoded pair.
- Paths are lexical: `..` is kept as a component and `exists` is a set lookup, so symlink resolution by the kernel is part of the snapshot.
- Path components are taken as normalised: no component is empty or `.`, and no name contains `/`. `PathBuf::push` and `file_name` would normalise these; the model compares components as given.
- There is no timeout for a probe stuck in `Mounting`, as in the source.
- `Network` is never produced by classification, as in the source.
- Whole disks without partitions are not probed by `start`, as in the source (src/services/bootloader.rs:380-382).
