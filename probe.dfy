/** The per-device probe of `src/services/bootloader.rs`: a `DeviceProbe`
    mounts one block device read-only through an external `mount` process,
    waits for that process to exit, then scans the mounted filesystem for an
    EFI loader. Its `BlockState` only moves forward:
    Unchecked -> Mounting(child) -> Scanning -> Complete. */
module Probe {
  import opened Wrappers
  import opened Sysfs
  import opened Devices

  // ------------------------------------------------------------------ events

  /** A process id, in the numbering shared by `Child::id` and exit events. */
  type Pid = nat

  /** How a child process ended; `success()` holds only for exit code 0. */
  datatype ExitStatus = Exited(code: int) | Signaled(signal: nat)
  {
    predicate Success()
    {
      Exited? && code == 0
    }
  }

  datatype Action = Add | Remove | Change

  /** One kernel hotplug record: its fields (`SUBSYSTEM`, `DEVNAME`, ...) and action. */
  datatype Uevent = Uevent(fields: map<string, string>, action: Action)

  datatype ServiceEvent = ProcessExited(pid: Pid, status: ExitStatus) | Device(uevent: Uevent)

  // ------------------------------------------------------------- probe state

  datatype BootEntry = BootEntry(kernel: Path, initramfs: Option<Path>, append: Option<string>)

  datatype BlockState = Unchecked | Mounting(child: Pid) | Scanning | Complete

  /** The position of a state along the forward-only progression. */
  function Rank(s: BlockState): nat
  {
    match s
    case Unchecked => 0
    case Mounting(_) => 1
    case Scanning => 2
    case Complete => 3
  }

  /** The part of a probe that changes: its state and the entries found. */
  datatype ProbeView = ProbeView(state: BlockState, entries: seq<BootEntry>)

  // ------------------------------------------------------------------ mounting

  /** What `mount` consults besides sysfs: the devices that are already
      mounted (`procfs::device_mounted`) and the mount points that
      `create_dir_all` cannot create. */
  datatype Env = Env(fs: Fs, mounted: set<Path>, unmakeable: set<Path>)

  datatype MountError = AlreadyMounted | MountPointUnavailable

  const MountsDir := Path(true, ["var", "run", "bootloader", "mounts"])

  /** The mount point of device `name`: `/var/run/bootloader/mounts/<name>`. */
  function MountPoint(name: string): Path
  {
    Join(MountsDir, name)
  }

  /** Whether `mount` goes as far as spawning the mount helper. */
  predicate MountAccepted(env: Env, device: Path, point: Path)
  {
    device !in env.mounted && point !in env.unmakeable
  }

  /** The outcome of the next spawn the host will perform, and the outcomes left after it. */
  function NextSpawn(outcomes: seq<Option<Pid>>): Option<Pid>
  {
    if outcomes == [] then None else outcomes[0]
  }

  function RestSpawns(outcomes: seq<Option<Pid>>): seq<Option<Pid>>
  {
    if outcomes == [] then [] else outcomes[1..]
  }

  /** The state `mount` leaves after a spawn: `Mounting` with the child's pid,
      or `Complete` when the helper could not be launched. */
  function SpawnedState(child: Option<Pid>): BlockState
  {
    match child
    case Some(pid) => Mounting(pid)
    case None => Complete
  }

  /** The operating system's process launcher, reduced to the outcomes of
      successive launches: a pid, or none when the launch fails. When the
      script runs out, launches fail. */
  class Host {
    var spawnOutcomes: seq<Option<Pid>>

    constructor (outcomes: seq<Option<Pid>>)
      ensures spawnOutcomes == outcomes
    {
      spawnOutcomes := outcomes;
    }

    /** `Command::new("mount").arg(device).arg(point).arg("-o").arg("ro").spawn()`. */
    method SpawnMount(device: Path, point: Path) returns (child: Option<Pid>)
      modifies this
      ensures child == NextSpawn(old(spawnOutcomes))
      ensures spawnOutcomes == RestSpawns(old(spawnOutcomes))
    {
      if spawnOutcomes == [] {
        child := None;
      } else {
        child := spawnOutcomes[0];
        spawnOutcomes := spawnOutcomes[1..];
      }
    }
  }

  // ------------------------------------------------------------------ scanning

  const LoaderName := "bootx64.efi"

  function AsciiLower(c: char): char
  {
    if 'A' <= c <= 'Z' then (c as int + 32) as char else c
  }

  /** Lower-casing as far as the comparison with `LoaderName` can tell:
      the only characters whose Unicode lower case is an ASCII letter are
      the ASCII capitals and the Kelvin sign (giving `k`, absent from the
      name), so comparing ASCII-lowered names decides the same. */
  function Lower(s: string): (r: string)
    ensures |r| == |s| && forall i :: 0 <= i < |s| ==> r[i] == AsciiLower(s[i])
  {
    if s == [] then [] else [AsciiLower(s[0])] + Lower(s[1..])
  }

  /** An entry of the mounted `EFI` directory that `scan` accepts: not a
      directory, and named `bootx64.efi` in any letter case. */
  predicate IsLoader(fs: Fs, point: Path, name: string)
  {
    Join(Join(point, "EFI"), name) !in fs.directories && Lower(name) == LoaderName
  }

  /** The position of the first accepted entry in a directory listing. */
  function FindLoader(fs: Fs, point: Path, names: seq<string>): (r: Option<nat>)
    ensures r.Some? ==> r.value < |names| && IsLoader(fs, point, names[r.value])
    ensures forall k :: 0 <= k < |names| && (r.None? || k < r.value) ==> !IsLoader(fs, point, names[k])
  {
    if names == [] then None
    else if IsLoader(fs, point, names[0]) then Some(0)
    else
      match FindLoader(fs, point, names[1..])
      case None => None
      case Some(i) => Some(i + 1)
  }

  /** The boot entry `scan` finds under `<point>/EFI`, if any. Note that the
      search looks in `EFI` itself, not in `EFI/BOOT`. */
  function ScanResult(fs: Fs, point: Path): (r: Option<BootEntry>)
    ensures r.Some? ==> var dir := Join(point, "EFI");
      && dir in fs.dirs
      && |r.value.kernel.comps| == 2 && !r.value.kernel.absolute && r.value.kernel.comps[0] == "EFI"
      && r.value.kernel.comps[1] in fs.dirs[dir] && IsLoader(fs, point, r.value.kernel.comps[1])
      && r.value.initramfs.None? && r.value.append.None?
    ensures r.Some? ==> var names := fs.dirs[Join(point, "EFI")];
      exists i :: 0 <= i < |names| && names[i] == r.value.kernel.comps[1]
                  && forall k :: 0 <= k < i ==> !IsLoader(fs, point, names[k])
    ensures r.None? ==> var dir := Join(point, "EFI");
      dir !in fs.dirs || forall k :: 0 <= k < |fs.dirs[dir]| ==> !IsLoader(fs, point, fs.dirs[dir][k])
  {
    var dir := Join(point, "EFI");
    if dir !in fs.dirs then None
    else
      match FindLoader(fs, point, fs.dirs[dir])
      case None => None
      case Some(i) => Some(BootEntry(Join(Path(false, ["EFI"]), fs.dirs[dir][i]), None, None))
  }

  /** A probe after `scan`: `Complete`, with the found entry appended. */
  function Scanned(fs: Fs, point: Path, v: ProbeView): ProbeView
  {
    ProbeView(Complete, v.entries + match ScanResult(fs, point) case None => [] case Some(e) => [e])
  }

  /** Completeness of the scan: whatever the letter case of its name, the
      first loader listed in `EFI` is the entry found, under its listed name. */
  lemma ScanFindsFirstLoader(fs: Fs, point: Path, i: nat)
    requires Join(point, "EFI") in fs.dirs
    requires var names := fs.dirs[Join(point, "EFI")];
      i < |names| && IsLoader(fs, point, names[i])
      && forall k :: 0 <= k < i ==> !IsLoader(fs, point, names[k])
    ensures ScanResult(fs, point) == Some(BootEntry(Path(false, ["EFI", fs.dirs[Join(point, "EFI")][i]]), None, None))
  {
    var names := fs.dirs[Join(point, "EFI")];
    var r := FindLoader(fs, point, names);
    assert r.Some?;
    assert r.value == i;
    assert Join(Path(false, ["EFI"]), names[i]) == Path(false, ["EFI", names[i]]);
  }

  // -------------------------------------------------------------------- events

  /** What `DeviceProbe::event` does: whether the event is consumed and the
      probe's new state and entries. */
  function OnEvent(fs: Fs, point: Path, v: ProbeView, ev: ServiceEvent): (bool, ProbeView)
  {
    match ev
    case ProcessExited(pid, status) =>
      if v.state == Mounting(pid) then
        (true, if status.Success() then Scanned(fs, point, v) else ProbeView(Complete, v.entries))
      else (false, v)
    case Device(_) => (false, v)
  }

  /** A probe consumes exactly the exit of its own mount helper, and an
      event it does not consume leaves it untouched. */
  lemma OnEventCorrelation(fs: Fs, point: Path, v: ProbeView, ev: ServiceEvent)
    ensures OnEvent(fs, point, v, ev).0 <==> ev.ProcessExited? && v.state == Mounting(ev.pid)
    ensures !OnEvent(fs, point, v, ev).0 ==> OnEvent(fs, point, v, ev).1 == v
  {
  }

  /** A consumed exit completes the probe: a failed mount adds nothing, a
      successful one adds the entry the scan finds. */
  lemma OnEventCompletes(fs: Fs, point: Path, v: ProbeView, pid: Pid, status: ExitStatus)
    requires v.state == Mounting(pid)
    ensures var w := OnEvent(fs, point, v, ProcessExited(pid, status)).1;
      && w.state == Complete
      && (!status.Success() ==> w.entries == v.entries)
      && (status.Success() ==> w == Scanned(fs, point, v))
  {
  }

  /** The state of a probe only moves forward, `Complete` is never left, and
      one event appends at most one entry. */
  lemma OnEventMonotone(fs: Fs, point: Path, v: ProbeView, ev: ServiceEvent)
    ensures var w := OnEvent(fs, point, v, ev).1;
      && Rank(v.state) <= Rank(w.state)
      && (v.state == Complete ==> w == v)
      && |v.entries| <= |w.entries| <= |v.entries| + 1
      && w.entries[..|v.entries|] == v.entries
  {
  }

  /** A mount helper that exits with status 32 (a failed mount) completes the
      probe with nothing found, whatever the mounted tree holds; another
      process's exit is ignored. */
  lemma FailedMountFindsNothing(fs: Fs, point: Path, pid: Pid, other: Pid)
    requires other != pid
    ensures OnEvent(fs, point, ProbeView(Mounting(pid), []), ProcessExited(pid, Exited(32)))
            == (true, ProbeView(Complete, []))
    ensures OnEvent(fs, point, ProbeView(Mounting(pid), []), ProcessExited(other, Exited(0)))
            == (false, ProbeView(Mounting(pid), []))
  {
  }

  /** The probe after a whole run of events, each seen with the filesystem
      as it was at the time. */
  function OnEvents(point: Path, v: ProbeView, evs: seq<(Fs, ServiceEvent)>): ProbeView
    decreases |evs|
  {
    if evs == [] then v
    else OnEvents(point, OnEvent(evs[0].0, point, v, evs[0].1).1, evs[1..])
  }

  /** Over any run of events the state only moves forward, a complete probe
      stays exactly as it is, and at most one entry is ever added. */
  lemma {:induction false} OnEventsMonotone(point: Path, v: ProbeView, evs: seq<(Fs, ServiceEvent)>)
    decreases |evs|
    ensures var w := OnEvents(point, v, evs);
      && Rank(v.state) <= Rank(w.state)
      && (v.state == Complete ==> w == v)
      && |v.entries| <= |w.entries| <= |v.entries| + 1
      && w.entries[..|v.entries|] == v.entries
  {
    if evs != [] {
      var u := OnEvent(evs[0].0, point, v, evs[0].1).1;
      OnEventMonotone(evs[0].0, point, v, evs[0].1);
      OnEventsMonotone(point, u, evs[1..]);
      var w := OnEvents(point, u, evs[1..]);
      if u.state == Complete {
        assert w == u;
      } else {
        assert u == v;
      }
    }
  }

  // --------------------------------------------------------------- the probe

  class DeviceProbe {
    const name: string
    const device: Path
    const devicetype: BlockDeviceType
    const point: Path
    var state: BlockState
    var entries: seq<BootEntry>

    function View(): ProbeView
      reads this
    {
      ProbeView(state, entries)
    }

    constructor (name: string, device: Path, devicetype: BlockDeviceType)
      ensures this.name == name && this.device == device && this.devicetype == devicetype
      ensures point == MountPoint(name) && View() == ProbeView(Unchecked, [])
    {
      this.name := name;
      this.device := device;
      this.devicetype := devicetype;
      point := MountPoint(name);
      state := Unchecked;
      entries := [];
    }

    /** `DeviceProbe::new`: resolves the device node (failing as
        `block_device_node` does) and classifies the device. */
    static method New(fs: Fs, name: string) returns (r: Result<DeviceProbe, NodeError>)
      ensures r.Err? <==> BlockDeviceNode(fs, name).Err?
      ensures r.Err? ==> r.error == BlockDeviceNode(fs, name).error
      ensures r.Ok? ==> && fresh(r.value)
                        && r.value.name == name
                        && r.value.device == BlockDeviceNode(fs, name).value
                        && r.value.devicetype == BlockDeviceTypeOf(fs, name)
                        && r.value.point == MountPoint(name)
                        && r.value.View() == ProbeView(Unchecked, [])
    {
      match BlockDeviceNode(fs, name) {
        case Err(e) =>
          return Err(e);
        case Ok(chardev) =>
          var probe := new DeviceProbe(name, chardev, BlockDeviceTypeOf(fs, name));
          return Ok(probe);
      }
    }

    /** `DeviceProbe::mount`: refuses a device that is already mounted or whose
        mount point cannot be created, leaving the probe as it was; otherwise
        spawns the mount helper and records it (`Mounting`), or gives up for
        good (`Complete`) when it cannot be launched, which still counts as Ok. */
    method Mount(env: Env, host: Host) returns (r: Result<(), MountError>)
      modifies this, host
      ensures entries == old(entries)
      ensures r.Err? <==> !MountAccepted(env, device, point)
      ensures r.Err? ==> && r.error == (if device in env.mounted then AlreadyMounted else MountPointUnavailable)
                         && state == old(state)
                         && host.spawnOutcomes == old(host.spawnOutcomes)
      ensures r.Ok? ==> && state == SpawnedState(NextSpawn(old(host.spawnOutcomes)))
                        && host.spawnOutcomes == RestSpawns(old(host.spawnOutcomes))
    {
      if device in env.mounted {
        return Err(AlreadyMounted);
      }
      if point in env.unmakeable {
        return Err(MountPointUnavailable);
      }
      var child := host.SpawnMount(device, point);
      match child {
        case Some(pid) => state := Mounting(pid);
        case None => state := Complete;
      }
      return Ok(());
    }

    /** `DeviceProbe::scan`: lists `<point>/EFI` and takes the first entry that
        is not a directory and is named `bootx64.efi` in any case; the probe
        ends `Complete` whether or not one is found. */
    method Scan(fs: Fs)
      modifies this
      ensures View() == Scanned(fs, point, old(View()))
    {
      var subdir := Join(point, "EFI");
      if subdir in fs.dirs {
        var names := fs.dirs[subdir];
        var i := 0;
        while i < |names|
          invariant 0 <= i <= |names|
          invariant forall k :: 0 <= k < i ==> !IsLoader(fs, point, names[k])
        {
          var filename := names[i];
          if Join(subdir, filename) !in fs.directories && Lower(filename) == LoaderName {
            assert FindLoader(fs, point, names) == Some(i);
            state := Complete;
            entries := entries + [BootEntry(Join(Path(false, ["EFI"]), filename), None, None)];
            return;
          }
          i := i + 1;
        }
      }
      state := Complete;
    }

    /** `DeviceProbe::event`: consumes only the exit of its own mount helper;
        a failed mount completes the probe, a successful one scans it. */
    method Event(fs: Fs, ev: ServiceEvent) returns (consumed: bool)
      modifies this
      ensures (consumed, View()) == OnEvent(fs, point, old(View()), ev)
    {
      match ev {
        case ProcessExited(pid, status) =>
          if state.Mounting? {
            if state.child != pid {
              return false;
            }
            if !status.Success() {
              state := Complete;
            } else {
              state := Scanning;
              Scan(fs);
            }
            return true;
          }
        case Device(_) =>
          return false;
      }
      return false;
    }
  }
}
