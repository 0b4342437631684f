/** The `Bootloader` service of `src/services/bootloader.rs`: the list of
    device probes it keeps (`checked`), how it adds to that list at start-up
    and on hotplug, how it forwards events to the probes, and how it picks a
    boot entry by device-type priority. */
module Bootloader {
  import opened Wrappers
  import opened Sysfs
  import opened Devices
  import opened Probe

  datatype ServiceState = Inactive | Running | Ready | Stopped | Failed

  // ----------------------------------------------------------------- selection

  /** What `select_boot_entry` looks at in one probe. */
  datatype Summary = Summary(devicetype: BlockDeviceType, state: BlockState, entries: seq<BootEntry>)

  /** A probe that can supply a boot entry for device type `t`. */
  predicate Bootable(s: Summary, t: BlockDeviceType)
  {
    s.state == Complete && s.devicetype == t && |s.entries| != 0
  }

  /** The first probe, in registration order, that is bootable for `t`. */
  function FirstBootable(ps: seq<Summary>, t: BlockDeviceType): (r: Option<nat>)
    ensures r.Some? ==> r.value < |ps| && Bootable(ps[r.value], t)
    ensures forall k :: 0 <= k < |ps| && (r.None? || k < r.value) ==> !Bootable(ps[k], t)
  {
    if ps == [] then None
    else if Bootable(ps[0], t) then Some(0)
    else
      match FirstBootable(ps[1..], t)
      case None => None
      case Some(k) => Some(k + 1)
  }

  /** The (type position, probe position) pair `select_boot_entry` stops at:
      types in priority order outside, probes in registration order inside. */
  function SelectIndex(ps: seq<Summary>, order: seq<BlockDeviceType>): (r: Option<(nat, nat)>)
    decreases |order|
    ensures r.Some? ==> r.value.0 < |order| && r.value.1 < |ps| && Bootable(ps[r.value.1], order[r.value.0])
    ensures r.Some? ==> forall k :: 0 <= k < r.value.1 ==> !Bootable(ps[k], order[r.value.0])
    ensures forall t, k :: 0 <= t < |order| && (r.None? || t < r.value.0) && 0 <= k < |ps| ==>
              !Bootable(ps[k], order[t])
  {
    if order == [] then None
    else
      match FirstBootable(ps, order[0])
      case Some(k) => Some((0, k))
      case None =>
        match SelectIndex(ps, order[1..])
        case None => None
        case Some((t, k)) => Some((t + 1, k))
  }

  /** `select_boot_entry` over probe summaries: the first entry of the probe
      `SelectIndex` stops at. */
  function Select(ps: seq<Summary>, order: seq<BlockDeviceType>): Option<BootEntry>
  {
    match SelectIndex(ps, order)
    case None => None
    case Some((_, k)) => Some(ps[k].entries[0])
  }

  /** Selection is fully determined by the priority order: the probe at `k`
      wins when it is bootable for `order[t]`, no probe is bootable for an
      earlier type, and no earlier probe is bootable for `order[t]`. And
      nothing is selected exactly when no probe is bootable for any listed type. */
  lemma {:induction false} SelectChoosesByPriority(ps: seq<Summary>, order: seq<BlockDeviceType>, t: nat, k: nat)
    requires t < |order| && k < |ps| && Bootable(ps[k], order[t])
    requires forall u, j :: 0 <= u < t && 0 <= j < |ps| ==> !Bootable(ps[j], order[u])
    requires forall j :: 0 <= j < k ==> !Bootable(ps[j], order[t])
    ensures Select(ps, order) == Some(ps[k].entries[0])
  {
    var r := SelectIndex(ps, order);
    assert r.Some?;
    assert r.value.0 == t;
    assert r.value.1 == k;
  }

  lemma SelectNoneIffNothingBootable(ps: seq<Summary>, order: seq<BlockDeviceType>)
    ensures Select(ps, order).None? <==>
      forall t, k :: 0 <= t < |order| && 0 <= k < |ps| ==> !Bootable(ps[k], order[t])
  {
  }

  /** With priority [USB, Internal], whenever some probe is bootable as USB
      the first such probe is chosen, whatever internal probes are bootable
      and wherever they are registered. */
  lemma PreferUsbOverInternal(ps: seq<Summary>, usb: nat)
    requires usb < |ps| && Bootable(ps[usb], USB)
    requires forall j :: 0 <= j < usb ==> !Bootable(ps[j], USB)
    ensures Select(ps, [USB, Internal]) == Some(ps[usb].entries[0])
  {
    SelectChoosesByPriority(ps, [USB, Internal], 0, usb);
  }

  // ------------------------------------------------------------------- hotplug

  /** The device name a hotplug event asks the bootloader to probe: an `Add`
      on the `block` subsystem whose `DEVNAME` has no partitions. */
  function Hotplug(fs: Fs, ev: ServiceEvent): Option<string>
  {
    match ev
    case ProcessExited(_, _) => None
    case Device(dev) =>
      if && "SUBSYSTEM" in dev.fields && dev.fields["SUBSYSTEM"] == "block"
         && dev.action == Add
         && "DEVNAME" in dev.fields && !BlockDeviceHasPartitions(fs, dev.fields["DEVNAME"])
      then Some(dev.fields["DEVNAME"])
      else None
  }

  /** A block `Add` for `sdb` asks for `sdb` to be probed exactly when it has
      no partitions yet; its removal asks for nothing. */
  lemma HotplugOfNewDisk(fs: Fs)
    ensures var fields := map["SUBSYSTEM" := "block", "DEVNAME" := "sdb"];
      && Hotplug(fs, Device(Uevent(fields, Add))) == (if BlockDeviceHasPartitions(fs, "sdb") then None else Some("sdb"))
      && Hotplug(fs, Device(Uevent(fields, Remove))) == None
  {
  }

  /** The hotplug path asks for a probe of `name` exactly on a block `Add`
      whose `DEVNAME` is `name` and whose class directory cannot be listed or
      has no entry starting with `name`; process exits never ask. */
  lemma HotplugAsks(fs: Fs, ev: ServiceEvent, name: string)
    ensures ev.ProcessExited? ==> Hotplug(fs, ev).None?
    ensures Hotplug(fs, ev) == Some(name) <==>
      && ev.Device? && ev.uevent.action == Add
      && "SUBSYSTEM" in ev.uevent.fields && ev.uevent.fields["SUBSYSTEM"] == "block"
      && "DEVNAME" in ev.uevent.fields && ev.uevent.fields["DEVNAME"] == name
      && var dir := Join(SysClassBlock, name);
         (dir !in fs.dirs || forall i :: 0 <= i < |fs.dirs[dir]| ==> !HasPrefix(fs.dirs[dir][i], name))
  {
  }

  // ---------------------------------------------------------------- enumeration

  /** The entries of a disk's sysfs directory that name its partitions
      (those starting with the disk's name), in listing order. */
  function PartitionsOf(entries: seq<string>, disk: string): seq<string>
    decreases |entries|
  {
    if entries == [] then []
    else PartitionsOf(entries[..|entries| - 1], disk) + (if HasPrefix(entries[|entries| - 1], disk) then [entries[|entries| - 1]] else [])
  }

  /** A name is probed for a disk exactly when it is a listed entry that
      starts with the disk's name. */
  lemma {:induction false} PartitionsOfMembers(entries: seq<string>, disk: string, c: string)
    decreases |entries|
    ensures c in PartitionsOf(entries, disk) <==> c in entries && HasPrefix(c, disk)
  {
    if entries != [] {
      var init := entries[..|entries| - 1];
      assert entries == init + [entries[|entries| - 1]];
      PartitionsOfMembers(init, disk, c);
    }
  }

  /** The partitions `start` probes for one entry of `/sys/block`: none
      unless it is a storage device whose directory can be listed. */
  function DiskCandidates(fs: Fs, disk: string): seq<string>
  {
    var dir := Join(SysBlock, disk);
    if BlockDeviceIsStorage(fs, disk) && dir in fs.dirs then PartitionsOf(fs.dirs[dir], disk) else []
  }

  function CandidatesOf(fs: Fs, disks: seq<string>): seq<string>
    decreases |disks|
  {
    if disks == [] then []
    else CandidatesOf(fs, disks[..|disks| - 1]) + DiskCandidates(fs, disks[|disks| - 1])
  }

  /** Every name `start` hands to `probe_partition`, in order. */
  function Candidates(fs: Fs): seq<string>
  {
    if SysBlock in fs.dirs then CandidatesOf(fs, fs.dirs[SysBlock]) else []
  }

  /** The names `start` tries are exactly the partition entries of the
      listable storage disks of `/sys/block`. */
  lemma {:induction false} CandidatesOfMembers(fs: Fs, disks: seq<string>, c: string)
    decreases |disks|
    ensures c in CandidatesOf(fs, disks) <==>
      exists i :: 0 <= i < |disks| && c in DiskCandidates(fs, disks[i])
  {
    if disks != [] {
      var n := |disks| - 1;
      var init := disks[..n];
      var last := DiskCandidates(fs, disks[n]);
      CandidatesOfMembers(fs, init, c);
      assert CandidatesOf(fs, disks) == CandidatesOf(fs, init) + last;
      assert c in CandidatesOf(fs, disks) <==> c in CandidatesOf(fs, init) || c in last;
      assert forall i :: 0 <= i < n ==> init[i] == disks[i];
    }
  }

  /** A listing with no entry starting with the disk's name yields no partitions. */
  lemma {:induction false} NoPartitionEntries(entries: seq<string>, disk: string)
    requires forall e :: e in entries ==> !HasPrefix(e, disk)
    decreases |entries|
    ensures PartitionsOf(entries, disk) == []
  {
    if entries != [] {
      var init := entries[..|entries| - 1];
      assert forall e :: e in init ==> e in entries;
      NoPartitionEntries(init, disk);
      assert entries[|entries| - 1] in entries;
    }
  }

  /** The names `start` tries for one `/sys/block` entry are the entries of
      its directory that start with its name, and only when
      `/sys/block/<disk>/device` exists (loop and ram devices have none). */
  lemma DiskCandidatesMembers(fs: Fs, disk: string, c: string)
    ensures !BlockDeviceIsStorage(fs, disk) ==> DiskCandidates(fs, disk) == []
    ensures c in DiskCandidates(fs, disk) <==>
      && Join(Join(SysBlock, disk), "device") in fs.existing
      && Join(SysBlock, disk) in fs.dirs && c in fs.dirs[Join(SysBlock, disk)] && HasPrefix(c, disk)
  {
    if Join(SysBlock, disk) in fs.dirs {
      PartitionsOfMembers(fs.dirs[Join(SysBlock, disk)], disk, c);
    }
  }

  /** A storage disk whose directory has no partition entry contributes
      nothing: `start` never probes a whole disk by itself. */
  lemma UnpartitionedDiskIsSkipped(fs: Fs, disk: string)
    requires Join(SysBlock, disk) in fs.dirs ==>
      forall e :: e in fs.dirs[Join(SysBlock, disk)] ==> !HasPrefix(e, disk)
    ensures DiskCandidates(fs, disk) == []
  {
    var dir := Join(SysBlock, disk);
    if BlockDeviceIsStorage(fs, disk) && dir in fs.dirs {
      NoPartitionEntries(fs.dirs[dir], disk);
    }
  }

  /** `probe_partition` keeps a probe for `name` exactly when the device node
      resolves and `mount` accepts the device. */
  predicate Admissible(env: Env, name: string)
  {
    BlockDeviceNode(env.fs, name).Ok? && MountAccepted(env, BlockDeviceNode(env.fs, name).value, MountPoint(name))
  }

  /** The names of `ps`, in order. */
  function NamesOf(ps: seq<DeviceProbe>): seq<string>
  {
    seq(|ps|, i requires 0 <= i < |ps| => ps[i].name)
  }

  /** Appending a probe appends its name. */
  lemma NamesSnoc(ps: seq<DeviceProbe>, p: DeviceProbe)
    ensures NamesOf(ps + [p]) == NamesOf(ps) + [p.name]
  {
    var l, r := NamesOf(ps + [p]), NamesOf(ps) + [p.name];
    assert forall i :: 0 <= i < |ps| ==> (ps + [p])[i] == ps[i];
    assert |l| == |r| && forall i :: 0 <= i < |l| ==> l[i] == r[i];
  }

  /** What `probe_partition` decides about a name: the node and the class a
      probe for it is built with, and whether the probe is kept. */
  datatype Verdict = Verdict(node: Result<Path, NodeError>, devicetype: BlockDeviceType, kept: bool)

  ghost function VerdictOf(env: Env, c: string): Verdict
  {
    Verdict(BlockDeviceNode(env.fs, c), BlockDeviceTypeOf(env.fs, c), Admissible(env, c))
  }

  /** The verdict on every name. */
  ghost function Verdicts(env: Env): imap<string, Verdict>
  {
    imap c | true :: VerdictOf(env, c)
  }

  /** `v` holds the verdict on every name. The loops of `start` work with
      such a map so that a name's verdict is only worked out where
      `probe_partition` is called on it. */
  ghost predicate Decides(env: Env, v: imap<string, Verdict>)
  {
    forall c {:trigger VerdictOf(env, c)} :: c in v && v[c] == VerdictOf(env, c)
  }

  /** Some map holds the verdict on every name. */
  lemma SomeVerdicts(env: Env)
    ensures exists v :: Decides(env, v)
  {
    assert Decides(env, Verdicts(env));
  }

  /** A map holding the verdict on every name is `Verdicts(env)`. */
  lemma VerdictsUnique(env: Env, v: imap<string, Verdict>)
    requires Decides(env, v)
    ensures v == Verdicts(env)
  {
    forall c
      ensures c in v && v[c] == Verdicts(env)[c]
    {
      assert Verdicts(env)[c] == VerdictOf(env, c);
    }
  }

  /** One `probe_partition` call seen on the list of probed names: the name
      is appended exactly when it is not there yet and its probe is kept. */
  ghost function Step(v: imap<string, Verdict>, names: seq<string>, c: string): seq<string>
  {
    if c !in names && c in v && v[c].kept then names + [c] else names
  }

  /** The probed names after `probe_partition` has been called on each of
      `cands` in turn, starting from `names`. */
  ghost function AfterProbing(v: imap<string, Verdict>, names: seq<string>, cands: seq<string>): seq<string>
    decreases |cands|
  {
    if cands == [] then names
    else Step(v, AfterProbing(v, names, cands[..|cands| - 1]), cands[|cands| - 1])
  }

  /** Probing only appends: the earlier names stay in front, and each
      candidate adds at most one name. */
  lemma {:induction false} AfterProbingExtends(v: imap<string, Verdict>, names: seq<string>, cands: seq<string>)
    decreases |cands|
    ensures var r := AfterProbing(v, names, cands);
      |names| <= |r| <= |names| + |cands| && r[..|names|] == names
  {
    if cands != [] {
      var init := cands[..|cands| - 1];
      AfterProbingExtends(v, names, init);
      var r := AfterProbing(v, names, init);
      assert (r + [cands[|cands| - 1]])[..|names|] == r[..|names|];
    }
  }

  /** A name is probed afterwards exactly when it was probed before, or it is
      a candidate whose probe is kept. */
  lemma {:induction false} AfterProbingMembers(v: imap<string, Verdict>, names: seq<string>, cands: seq<string>, c: string)
    decreases |cands|
    ensures c in AfterProbing(v, names, cands) <==> c in names || (c in cands && c in v && v[c].kept)
  {
    if cands != [] {
      var init := cands[..|cands| - 1];
      AfterProbingMembers(v, names, init, c);
      assert cands == init + [cands[|cands| - 1]];
    }
  }

  /** No name occurs twice in `s`. */
  ghost predicate NoDuplicates(s: seq<string>)
  {
    forall i, j :: 0 <= i < j < |s| ==> s[i] != s[j]
  }

  /** Probing never produces a name twice. */
  lemma {:induction false} AfterProbingDistinct(v: imap<string, Verdict>, names: seq<string>, cands: seq<string>)
    decreases |cands|
    requires NoDuplicates(names)
    ensures NoDuplicates(AfterProbing(v, names, cands))
  {
    if cands != [] {
      var init := cands[..|cands| - 1];
      var c := cands[|cands| - 1];
      AfterProbingDistinct(v, names, init);
      var r := AfterProbing(v, names, init);
      assert NoDuplicates(r);
      if c !in r && c in v && v[c].kept {
        var s := r + [c];
        forall i, j | 0 <= i < j < |s|
          ensures s[i] != s[j]
        {
          if j == |r| {
            assert s[i] == r[i] && r[i] in r && s[j] == c;
          } else {
            assert s[i] == r[i] && s[j] == r[j];
          }
        }
        assert NoDuplicates(s);
      }
    }
  }

  /** Probing two lists of candidates one after the other is probing their
      concatenation. */
  lemma {:induction false} AfterProbingAppend(v: imap<string, Verdict>, names: seq<string>, a: seq<string>, b: seq<string>)
    decreases |b|
    ensures AfterProbing(v, names, a + b) == AfterProbing(v, AfterProbing(v, names, a), b)
  {
    if b == [] {
      assert a + b == a;
    } else {
      var init := b[..|b| - 1];
      AfterProbingAppend(v, names, a, init);
      assert (a + b)[..|a + b| - 1] == a + init;
    }
  }

  /** What `start` does to the probed names: a name is probed afterwards
      exactly when it was probed before, or it is a partition entry of a
      listable storage disk and is admissible. */
  lemma StartNames(env: Env, names: seq<string>, c: string)
    ensures c in AfterProbing(Verdicts(env), names, Candidates(env.fs)) <==>
      c in names || (c in Candidates(env.fs) && Admissible(env, c))
  {
    AfterProbingMembers(Verdicts(env), names, Candidates(env.fs), c);
    assert Verdicts(env)[c] == VerdictOf(env, c);
  }

  /** One more entry of a disk's directory extends the probing by one step
      when it starts with the disk's name, and by nothing otherwise. */
  lemma PartitionsStep(v: imap<string, Verdict>, names: seq<string>, entries: seq<string>, disk: string, e: nat,
                       done: seq<string>, now: seq<string>)
    requires e < |entries|
    requires done == AfterProbing(v, names, PartitionsOf(entries[..e], disk))
    requires HasPrefix(entries[e], disk) ==> now == Step(v, done, entries[e])
    requires !HasPrefix(entries[e], disk) ==> now == done
    ensures now == AfterProbing(v, names, PartitionsOf(entries[..e + 1], disk))
  {
    var parts := PartitionsOf(entries[..e], disk);
    assert entries[..e + 1][..e] == entries[..e];
    if HasPrefix(entries[e], disk) {
      assert PartitionsOf(entries[..e + 1], disk) == parts + [entries[e]];
      assert (parts + [entries[e]])[..|parts|] == parts;
    } else {
      assert PartitionsOf(entries[..e + 1], disk) == parts;
    }
  }

  /** The candidates of the disks up to and including `disks[d]`. */
  lemma CandidatesStep(fs: Fs, disks: seq<string>, d: nat)
    requires d < |disks|
    ensures CandidatesOf(fs, disks[..d + 1]) == CandidatesOf(fs, disks[..d]) + DiskCandidates(fs, disks[d])
  {
    assert disks[..d + 1][..d] == disks[..d];
  }

  /** What `DeviceProbe::new` fixes for the device it is built for: the
      node and the class the verdict on its name gives, and the mount point
      of its name. */
  ghost predicate Identified(p: DeviceProbe, v: imap<string, Verdict>)
  {
    && p.name in v
    && v[p.name].node == Ok(p.device)
    && v[p.name].devicetype == p.devicetype
    && p.point == MountPoint(p.name)
  }

  /** Against the true verdicts, a probe is identified exactly when it has
      the node, the class and the mount point of its name. */
  lemma IdentifiedMeans(p: DeviceProbe, env: Env)
    ensures Identified(p, Verdicts(env)) <==>
      && BlockDeviceNode(env.fs, p.name) == Ok(p.device)
      && p.devicetype == BlockDeviceTypeOf(env.fs, p.name)
      && p.point == MountPoint(p.name)
  {
    assert Verdicts(env)[p.name] == VerdictOf(env, p.name);
  }

  /** Appending in two steps appends the two parts together. */
  lemma AppendTwice(a: seq<DeviceProbe>, b: seq<DeviceProbe>, c: seq<DeviceProbe>)
    ensures (a + b) + c == a + (b + c)
  {
  }

  /** Every probe of `ps` is identified by its name. */
  ghost predicate AllIdentified(ps: seq<DeviceProbe>, v: imap<string, Verdict>)
    decreases |ps|
  {
    ps == [] || (Identified(ps[0], v) && AllIdentified(ps[1..], v))
  }

  /** `AllIdentified` holds exactly when each probe is identified. */
  lemma {:induction false} AllIdentifiedEach(ps: seq<DeviceProbe>, v: imap<string, Verdict>)
    decreases |ps|
    ensures AllIdentified(ps, v) <==> forall k :: 0 <= k < |ps| ==> Identified(ps[k], v)
  {
    if ps != [] {
      AllIdentifiedEach(ps[1..], v);
      assert forall k :: 1 <= k < |ps| ==> ps[1..][k - 1] == ps[k];
    }
  }

  /** Identified runs concatenate. */
  lemma {:induction false} AllIdentifiedAppend(ps: seq<DeviceProbe>, qs: seq<DeviceProbe>, v: imap<string, Verdict>)
    decreases |ps|
    requires AllIdentified(ps, v) && AllIdentified(qs, v)
    ensures AllIdentified(ps + qs, v)
  {
    if ps == [] {
      assert ps + qs == qs;
    } else {
      AllIdentifiedAppend(ps[1..], qs, v);
      assert (ps + qs)[1..] == ps[1..] + qs;
    }
  }

  /** The launch script after `n` launches: every launch consumes one
      outcome, and an exhausted script stays empty. */
  function Drop(spawns: seq<Option<Pid>>, n: nat): seq<Option<Pid>>
  {
    if n <= |spawns| then spawns[n..] else []
  }

  lemma DropRest(spawns: seq<Option<Pid>>, n: nat)
    ensures Drop(spawns, 0) == spawns
    ensures RestSpawns(Drop(spawns, n)) == Drop(spawns, n + 1)
  {
    assert spawns[0..] == spawns;
  }

  lemma DropDrop(spawns: seq<Option<Pid>>, m: nat, n: nat)
    ensures Drop(Drop(spawns, m), n) == Drop(spawns, m + n)
  {
  }

  /** The probes of `ps` were mounted one after another, consuming the
      launch script `spawns` in order: each has no boot entry yet and is in
      the state its own launch gave, `Mounting` with the child's pid or
      `Complete` when the launch failed. */
  ghost predicate Launched(ps: seq<DeviceProbe>, spawns: seq<Option<Pid>>)
    reads set p | p in ps
    decreases |ps|
  {
    ps == [] || (ps[0].View() == ProbeView(SpawnedState(NextSpawn(spawns)), []) && Launched(ps[1..], RestSpawns(spawns)))
  }

  /** The probes launched from `spawns` followed by those launched from what
      remains of it are launched from `spawns`. */
  lemma {:induction false} LaunchedAppend(ps: seq<DeviceProbe>, qs: seq<DeviceProbe>, spawns: seq<Option<Pid>>)
    decreases |ps|
    requires Launched(ps, spawns) && Launched(qs, Drop(spawns, |ps|))
    ensures Launched(ps + qs, spawns)
  {
    DropRest(spawns, 0);
    if ps == [] {
      assert ps + qs == qs;
    } else {
      DropDrop(spawns, 1, |ps| - 1);
      LaunchedAppend(ps[1..], qs, RestSpawns(spawns));
      assert (ps + qs)[1..] == ps[1..] + qs;
    }
  }

  /** The `k`-th launched probe is in the state of the `k`-th launch. */
  lemma {:induction false} LaunchedEach(ps: seq<DeviceProbe>, spawns: seq<Option<Pid>>)
    decreases |ps|
    requires Launched(ps, spawns)
    ensures forall k :: 0 <= k < |ps| ==>
      ps[k].View() == ProbeView(SpawnedState(NextSpawn(Drop(spawns, k))), [])
  {
    DropRest(spawns, 0);
    if ps != [] {
      LaunchedEach(ps[1..], RestSpawns(spawns));
      forall k | 1 <= k < |ps|
        ensures ps[k].View() == ProbeView(SpawnedState(NextSpawn(Drop(spawns, k))), [])
      {
        assert ps[k] == ps[1..][k - 1];
        DropDrop(spawns, 1, k - 1);
      }
    }
  }

  function Summaries(ps: seq<DeviceProbe>): (r: seq<Summary>)
    reads ps
    ensures |r| == |ps|
    ensures forall i :: 0 <= i < |ps| ==> r[i] == Summary(ps[i].devicetype, ps[i].state, ps[i].entries)
  {
    if ps == [] then [] else [Summary(ps[0].devicetype, ps[0].state, ps[0].entries)] + Summaries(ps[1..])
  }

  // ------------------------------------------------------------- the service

  class Bootloader {
    var checked: seq<DeviceProbe>

    /** Probe names are pairwise distinct. */
    ghost predicate Valid()
      reads this
    {
      forall i, j :: 0 <= i < j < |checked| ==> checked[i].name != checked[j].name
    }

    function Names(): seq<string>
      reads this
    {
      NamesOf(checked)
    }

    /** A freshly probed device: named `name`, on the resolved node, classified,
        mounted at its mount point, in the state its mount spawn left. */
    ghost predicate IsNewProbe(p: DeviceProbe, env: Env, name: string, spawns: seq<Option<Pid>>)
      reads p
    {
      && p.name == name
      && BlockDeviceNode(env.fs, name).Ok?
      && p.device == BlockDeviceNode(env.fs, name).value
      && p.devicetype == BlockDeviceTypeOf(env.fs, name)
      && p.point == MountPoint(name)
      && p.View() == ProbeView(SpawnedState(NextSpawn(spawns)), [])
    }

    constructor ()
      ensures Valid() && checked == []
    {
      checked := [];
    }

    /** `Service::state`: inactive until a first probe exists, running after. */
    function State(): (r: ServiceState)
      reads this
      ensures r == Inactive <==> |checked| == 0
      ensures r == Running <==> |checked| != 0
    {
      if |checked| == 0 then Inactive else Running
    }

    /** `Bootloader::select_boot_entry`: device types in priority order
        outside, probes in registration order inside; the first entry of the
        first complete probe of that type that found one. */
    method SelectBootEntry(order: seq<BlockDeviceType>) returns (r: Option<BootEntry>)
      ensures r == Select(Summaries(checked), order)
    {
      ghost var ps := Summaries(checked);
      var t := 0;
      while t < |order|
        invariant 0 <= t <= |order|
        invariant forall u, k :: 0 <= u < t && 0 <= k < |ps| ==> !Bootable(ps[k], order[u])
      {
        var i := 0;
        while i < |checked|
          invariant 0 <= i <= |checked|
          invariant forall k :: 0 <= k < i ==> !Bootable(ps[k], order[t])
        {
          var probe := checked[i];
          if probe.state == Complete && probe.devicetype == order[t] && |probe.entries| != 0 {
            SelectChoosesByPriority(ps, order, t, i);
            return Some(probe.entries[0]);
          }
          i := i + 1;
        }
        t := t + 1;
      }
      SelectNoneIffNothingBootable(ps, order);
      return None;
    }

    /** `Bootloader::probe_partition`: a name already probed is refused; else
        the probe is built and mounted, and kept only when both succeed. The
        result says whether the probe could be built. */
    method ProbePartition(env: Env, host: Host, name: string) returns (r: bool)
      requires Valid()
      modifies this, host
      ensures Valid()
      ensures r <==> name !in old(Names()) && BlockDeviceNode(env.fs, name).Ok?
      ensures name !in old(Names()) && Admissible(env, name) ==>
        && |checked| == |old(checked)| + 1
        && checked[..|old(checked)|] == old(checked)
        && fresh(checked[|old(checked)|])
        && IsNewProbe(checked[|old(checked)|], env, name, old(host.spawnOutcomes))
        && host.spawnOutcomes == RestSpawns(old(host.spawnOutcomes))
      ensures !(name !in old(Names()) && Admissible(env, name)) ==>
        checked == old(checked) && host.spawnOutcomes == old(host.spawnOutcomes)
    {
      var i := 0;
      while i < |checked|
        invariant 0 <= i <= |checked|
        invariant forall k :: 0 <= k < i ==> checked[k].name != name
      {
        if checked[i].name == name {
          assert Names()[i] == name;
          return false;
        }
        i := i + 1;
      }
      assert name !in Names();
      var created := DeviceProbe.New(env.fs, name);
      match created {
        case Err(_) =>
          return false;
        case Ok(block) =>
          var mounted := block.Mount(env, host);
          if mounted.Ok? {
            checked := checked + [block];
          }
          return true;
      }
    }

    /** One step of the inner loop of `Service::start`: `probe_partition` on
        a partition entry, seen through the name list and the probe it adds. */
    method ProbeEntry(env: Env, host: Host, ghost v: imap<string, Verdict>, partname: string)
      returns (found: bool, ghost grown: seq<DeviceProbe>)
      requires Valid() && Decides(env, v)
      modifies this, host
      ensures Valid()
      ensures checked == old(checked) + grown && |grown| <= 1
      ensures forall p :: p in grown ==> fresh(p) && p.name == partname
      ensures AllIdentified(grown, v)
      ensures host.spawnOutcomes == Drop(old(host.spawnOutcomes), |grown|)
      ensures Launched(grown, old(host.spawnOutcomes))
      ensures NamesOf(checked) == Step(v, old(NamesOf(checked)), partname)
    {
      assert v[partname] == VerdictOf(env, partname);
      ghost var before := checked;
      found := ProbePartition(env, host, partname);
      grown := checked[|before|..];
      DropRest(old(host.spawnOutcomes), 0);
      if |checked| != |before| {
        assert checked == before + [checked[|before|]];
        NamesSnoc(before, checked[|before|]);
        assert grown == [checked[|before|]];
        assert grown[1..] == [];
      }
    }

    /** One entry `entries[e]` of a disk's directory in `start`: an entry
        that starts with the disk's name is handed to `probe_partition`; any
        other is skipped. `before` are the probes added for the entries
        before it. */
    method ProbeListed(env: Env, host: Host, ghost v: imap<string, Verdict>, ghost start: seq<string>,
                       ghost base: seq<DeviceProbe>, ghost before: seq<DeviceProbe>, ghost spawns: seq<Option<Pid>>,
                       name: string, entries: seq<string>, e: nat)
      returns (found: bool, ghost added: seq<DeviceProbe>)
      requires Valid() && Decides(env, v) && e < |entries|
      requires checked == base + before && AllIdentified(before, v)
      requires host.spawnOutcomes == Drop(spawns, |before|) && Launched(before, spawns)
      requires NamesOf(checked) == AfterProbing(v, start, PartitionsOf(entries[..e], name))
      modifies this, host
      ensures Valid()
      ensures checked == base + added && AllIdentified(added, v)
      ensures forall p :: p in added ==> p in before || fresh(p)
      ensures host.spawnOutcomes == Drop(spawns, |added|) && Launched(added, spawns)
      ensures NamesOf(checked) == AfterProbing(v, start, PartitionsOf(entries[..e + 1], name))
    {
      ghost var done := NamesOf(checked);
      added := before;
      found := false;
      if HasPrefix(entries[e], name) {
        ghost var grown;
        found, grown := ProbeEntry(env, host, v, entries[e]);
        AllIdentifiedAppend(before, grown, v);
        DropDrop(spawns, |before|, |grown|);
        LaunchedAppend(before, grown, spawns);
        AppendTwice(base, before, grown);
        added := before + grown;
      }
      PartitionsStep(v, start, entries, name, e, done, NamesOf(checked));
    }

    /** The inner loop of `start`: every entry of a disk's directory that
        starts with the disk's name is handed to `probe_partition`, in
        listing order. `before` are the probes added before this disk. */
    method ProbePartitions(env: Env, host: Host, ghost v: imap<string, Verdict>,
                           ghost base: seq<DeviceProbe>, ghost before: seq<DeviceProbe>, ghost spawns: seq<Option<Pid>>,
                           name: string, entries: seq<string>)
      returns (ghost added: seq<DeviceProbe>)
      requires Valid() && Decides(env, v)
      requires checked == base + before && AllIdentified(before, v)
      requires host.spawnOutcomes == Drop(spawns, |before|) && Launched(before, spawns)
      modifies this, host
      ensures Valid()
      ensures checked == base + added && AllIdentified(added, v)
      ensures forall p :: p in added ==> p in before || fresh(p)
      ensures host.spawnOutcomes == Drop(spawns, |added|) && Launched(added, spawns)
      ensures NamesOf(checked) == AfterProbing(v, old(NamesOf(checked)), PartitionsOf(entries, name))
    {
      ghost var start := NamesOf(checked);
      added := before;
      var partitions := false;
      var e := 0;
      while e < |entries|
        invariant 0 <= e <= |entries|
        invariant Valid()
        invariant checked == base + added && AllIdentified(added, v)
        invariant forall p :: p in added ==> p in before || fresh(p)
        invariant host.spawnOutcomes == Drop(spawns, |added|) && Launched(added, spawns)
        invariant NamesOf(checked) == AfterProbing(v, start, PartitionsOf(entries[..e], name))
      {
        var found;
        found, added := ProbeListed(env, host, v, start, base, added, spawns, name, entries, e);
        partitions := partitions || found;
        e := e + 1;
      }
      assert entries[..e] == entries;
    }

    /** One entry of `/sys/block` in `start`, the disk `disks[d]`: a storage
        disk whose directory can be listed has its partitions probed;
        anything else is skipped. A disk without partitions (a whole-disk
        medium) is left unprobed. `before` are the probes added for the
        disks before it. */
    method ProbeDisk(env: Env, host: Host, ghost v: imap<string, Verdict>, ghost start: seq<string>,
                     ghost base: seq<DeviceProbe>, ghost before: seq<DeviceProbe>, ghost spawns: seq<Option<Pid>>,
                     ghost cands: seq<string>, disks: seq<string>, d: nat)
      returns (ghost added: seq<DeviceProbe>, ghost cands': seq<string>)
      requires Valid() && Decides(env, v) && d < |disks|
      requires checked == base + before && AllIdentified(before, v)
      requires host.spawnOutcomes == Drop(spawns, |before|) && Launched(before, spawns)
      requires cands == CandidatesOf(env.fs, disks[..d])
      requires NamesOf(checked) == AfterProbing(v, start, cands)
      modifies this, host
      ensures Valid()
      ensures checked == base + added && AllIdentified(added, v)
      ensures forall p :: p in added ==> p in before || fresh(p)
      ensures host.spawnOutcomes == Drop(spawns, |added|) && Launched(added, spawns)
      ensures cands' == CandidatesOf(env.fs, disks[..d + 1])
      ensures NamesOf(checked) == AfterProbing(v, start, cands')
    {
      CandidatesStep(env.fs, disks, d);
      AfterProbingAppend(v, start, cands, DiskCandidates(env.fs, disks[d]));
      cands' := cands + DiskCandidates(env.fs, disks[d]);
      added := before;
      var name := disks[d];
      if !BlockDeviceIsStorage(env.fs, name) {
        return;
      }
      var dir := Join(SysBlock, name);
      if dir !in env.fs.dirs {
        return;
      }
      added := ProbePartitions(env, host, v, base, before, spawns, name, env.fs.dirs[dir]);
    }

    /** The outer loop of `Service::start`: every entry of `/sys/block`, in
        listing order, is handed to `ProbeDisk`. */
    method ProbeDisks(env: Env, host: Host, ghost v: imap<string, Verdict>)
      returns (ghost added: seq<DeviceProbe>)
      requires Valid() && Decides(env, v)
      modifies this, host
      ensures Valid()
      ensures checked == old(checked) + added
      ensures forall p :: p in added ==> fresh(p)
      ensures AllIdentified(added, v)
      ensures host.spawnOutcomes == Drop(old(host.spawnOutcomes), |added|) && Launched(added, old(host.spawnOutcomes))
      ensures NamesOf(checked) == AfterProbing(v, old(NamesOf(checked)), Candidates(env.fs))
    {
      added := [];
      DropRest(host.spawnOutcomes, 0);
      if SysBlock !in env.fs.dirs {
        return;
      }
      ghost var start := NamesOf(checked);
      ghost var cands: seq<string> := [];
      var disks := env.fs.dirs[SysBlock];
      var d := 0;
      while d < |disks|
        invariant 0 <= d <= |disks|
        invariant Valid()
        invariant checked == old(checked) + added
        invariant forall p :: p in added ==> fresh(p)
        invariant AllIdentified(added, v)
        invariant host.spawnOutcomes == Drop(old(host.spawnOutcomes), |added|) && Launched(added, old(host.spawnOutcomes))
        invariant cands == CandidatesOf(env.fs, disks[..d])
        invariant NamesOf(checked) == AfterProbing(v, start, cands)
      {
        added, cands := ProbeDisk(env, host, v, start, old(checked), added, old(host.spawnOutcomes), cands, disks, d);
        d := d + 1;
      }
      assert disks[..d] == disks;
    }

    /** `Service::start`: for every storage device listed in `/sys/block`,
        probes each entry of its directory that starts with its name. The
        probes it keeps are appended in that order, after the earlier ones. */
    method Start(env: Env, host: Host)
      requires Valid()
      modifies this, host
      ensures Valid()
      ensures |old(checked)| <= |checked| && checked[..|old(checked)|] == old(checked)
      ensures forall k :: |old(checked)| <= k < |checked| ==>
        && fresh(checked[k])
        && checked[k].View() == ProbeView(SpawnedState(NextSpawn(Drop(old(host.spawnOutcomes), k - |old(checked)|))), [])
      ensures host.spawnOutcomes == Drop(old(host.spawnOutcomes), |checked| - |old(checked)|)
      ensures AllIdentified(checked[|old(checked)|..], Verdicts(env))
      ensures Names() == AfterProbing(Verdicts(env), old(Names()), Candidates(env.fs))
    {
      SomeVerdicts(env);
      ghost var v: imap<string, Verdict> :| Decides(env, v);
      ghost var added := ProbeDisks(env, host, v);
      assert checked[|old(checked)|..] == added;
      LaunchedEach(added, old(host.spawnOutcomes));
      forall k | |old(checked)| <= k < |checked|
        ensures fresh(checked[k])
        ensures checked[k].View() == ProbeView(SpawnedState(NextSpawn(Drop(old(host.spawnOutcomes), k - |old(checked)|))), [])
      {
        assert checked[k] == added[k - |old(checked)|];
        assert checked[k] in added;
      }
      VerdictsUnique(env, v);
    }

    /** Offers an event to every probe in turn; it reports whether any of
        them consumed it, and each probe steps as its own handler says. */
    method Dispatch(fs: Fs, ev: ServiceEvent) returns (handled: bool)
      requires Valid()
      modifies checked
      ensures Valid() && checked == old(checked)
      ensures handled <==> exists j :: (0 <= j < |checked| &&
                OnEvent(fs, checked[j].point, old(checked[j].View()), ev).0)
      ensures forall j :: 0 <= j < |checked| ==>
                checked[j].View() == OnEvent(fs, checked[j].point, old(checked[j].View()), ev).1
    {
      handled := false;
      var i := 0;
      while i < |checked|
        invariant 0 <= i <= |checked| && checked == old(checked)
        invariant forall j :: 0 <= j < i ==>
                    checked[j].View() == OnEvent(fs, checked[j].point, old(checked[j].View()), ev).1
        invariant forall j :: i <= j < |checked| ==> checked[j].View() == old(checked[j].View())
        invariant handled <==> exists j :: (0 <= j < i &&
                    OnEvent(fs, checked[j].point, old(checked[j].View()), ev).0)
      {
        var consumed := checked[i].Event(fs, ev);
        handled := handled || consumed;
        i := i + 1;
      }
    }

    /** `Service::event`: offers the event to every probe (all of them, in
        order), and reports whether any consumed it; an event no probe
        consumed that announces a new unpartitioned block device gets that
        device probed, and is still reported as not handled. */
    method Event(env: Env, host: Host, ev: ServiceEvent) returns (handled: bool)
      requires Valid()
      modifies this, host, checked
      ensures Valid()
      ensures handled <==> exists j :: (0 <= j < |old(checked)| &&
                OnEvent(env.fs, old(checked)[j].point, old(checked[j].View()), ev).0)
      ensures |old(checked)| <= |checked| && checked[..|old(checked)|] == old(checked)
      ensures forall j :: 0 <= j < |old(checked)| ==>
                checked[j].View() == OnEvent(env.fs, checked[j].point, old(checked[j].View()), ev).1
      ensures handled || Hotplug(env.fs, ev).None? ==>
                checked == old(checked) && host.spawnOutcomes == old(host.spawnOutcomes)
      ensures !handled && Hotplug(env.fs, ev).Some? ==>
                var name := Hotplug(env.fs, ev).value;
                if name !in old(Names()) && Admissible(env, name) then
                  && |checked| == |old(checked)| + 1
                  && fresh(checked[|old(checked)|])
                  && IsNewProbe(checked[|old(checked)|], env, name, old(host.spawnOutcomes))
                  && host.spawnOutcomes == RestSpawns(old(host.spawnOutcomes))
                else checked == old(checked) && host.spawnOutcomes == old(host.spawnOutcomes)
    {
      handled := Dispatch(env.fs, ev);
      if handled {
        return true;
      }
      match Hotplug(env.fs, ev) {
        case None =>
        case Some(devname) =>
          var _ := ProbePartition(env, host, devname);
      }
      return false;
    }
  }
}
