/** The pure helpers of `src/services/bootloader.rs`: which block devices
    provide storage and have partitions, what hardware backs a block device
    (its `BlockDeviceType`), and which `/dev` node belongs to it. */
module Devices {
  import opened Wrappers
  import opened Sysfs

  datatype BlockDeviceType = Other | Internal | USB | Network

  const SysBlock := Path(true, ["sys", "block"])
  const SysClassBlock := Path(true, ["sys", "class", "block"])
  const DevDir := Path(true, ["dev"])

  /** The file-type bits `S_IFCHR` (octal 020000) and `S_IFBLK` (octal 060000). */
  const S_IFCHR: bv32 := 0x2000
  const S_IFBLK: bv32 := 0x6000

  predicate HasPrefix(s: string, prefix: string)
  {
    |prefix| <= |s| && s[..|prefix|] == prefix
  }

  // ------------------------------------------------------ storage, partitions

  /** `block_device_is_storage`: `/sys/block/<name>/device` exists, which
      loop and ram devices lack. */
  predicate BlockDeviceIsStorage(fs: Fs, name: string)
  {
    Join(Join(SysBlock, name), "device") in fs.existing
  }

  /** Whether some name in `names` starts with `prefix`. */
  function AnyWithPrefix(names: seq<string>, prefix: string): (b: bool)
    ensures b <==> exists i :: 0 <= i < |names| && HasPrefix(names[i], prefix)
  {
    if names == [] then false
    else if HasPrefix(names[0], prefix) then true
    else
      var b := AnyWithPrefix(names[1..], prefix);
      assert forall i :: 1 <= i < |names| ==> names[i] == names[1..][i - 1];
      b
  }

  /** `block_device_has_partitions`: `/sys/class/block/<name>` can be listed
      and one of its entries starts with `name`. */
  function BlockDeviceHasPartitions(fs: Fs, name: string): (b: bool)
    ensures b <==> var dir := Join(SysClassBlock, name);
      dir in fs.dirs && exists i :: 0 <= i < |fs.dirs[dir]| && HasPrefix(fs.dirs[dir][i], name)
  {
    var dir := Join(SysClassBlock, name);
    dir in fs.dirs && AnyWithPrefix(fs.dirs[dir], name)
  }

  // ----------------------------------------------------------- classification

  /** `block_device_path`: the `device` entry beside the canonical sysfs
      directory of `name`, or, for a partition, the one beside its parent. */
  function BlockDevicePath(fs: Fs, name: string): (r: Option<Path>)
    ensures r.Some? ==> r.value in fs.existing && Join(SysClassBlock, name) in fs.canonical
    ensures r.Some? ==> var block := fs.canonical[Join(SysClassBlock, name)];
      r.value == Join(block, "device") || r.value == Join(Join(block, ".."), "device")
  {
    var link := Join(SysClassBlock, name);
    if link !in fs.canonical then None
    else
      var block := fs.canonical[link];
      var own := Join(block, "device");
      var parent := Join(Join(block, ".."), "device");
      if own in fs.existing then Some(own)
      else if parent in fs.existing then Some(parent)
      else None
  }

  /** The device's own `device` link is preferred, its parent's is the
      fallback, and there is no device path exactly when the class link
      cannot be resolved or neither candidate exists. */
  lemma BlockDevicePathChoice(fs: Fs, name: string)
    ensures var link := Join(SysClassBlock, name);
      link in fs.canonical ==>
        var own := Join(fs.canonical[link], "device");
        var parent := Join(Join(fs.canonical[link], ".."), "device");
        && (own in fs.existing ==> BlockDevicePath(fs, name) == Some(own))
        && (own !in fs.existing && parent in fs.existing ==> BlockDevicePath(fs, name) == Some(parent))
    ensures var link := Join(SysClassBlock, name);
      BlockDevicePath(fs, name).None? <==>
        link !in fs.canonical
        || (Join(fs.canonical[link], "device") !in fs.existing
            && Join(Join(fs.canonical[link], ".."), "device") !in fs.existing)
  {
  }

  /** The name of the subsystem a sysfs device directory belongs to. */
  function Subsystem(fs: Fs, device: Path): Option<string>
  {
    ReadLinkFileName(fs, Join(device, "subsystem"))
  }

  /** A SCSI device sits behind USB when its nearest ancestor holding a
      `scsi_host` entry has a parent whose subsystem is `usb`. */
  predicate ScsiOverUsb(fs: Fs, device: Path)
  {
    match NearestWithSubdir(fs, device, "scsi_host")
    case None => false
    case Some(host) => ReadLinkFileName(fs, Join(Join(host, ".."), "subsystem")) == Some("usb")
  }

  /** `block_device_type`: virtio devices are internal; SCSI devices are USB
      when their host adapter hangs off USB and internal otherwise; anything
      else, and a device with no backing device, is `Other`. `Network` is
      never produced. */
  function BlockDeviceTypeOf(fs: Fs, name: string): (r: BlockDeviceType)
    ensures r != Network
    ensures r == USB <==>
      BlockDevicePath(fs, name).Some? && Subsystem(fs, BlockDevicePath(fs, name).value) == Some("scsi")
      && ScsiOverUsb(fs, BlockDevicePath(fs, name).value)
    ensures r == Internal <==>
      BlockDevicePath(fs, name).Some? &&
      var sub := Subsystem(fs, BlockDevicePath(fs, name).value);
      sub == Some("virtio") || (sub == Some("scsi") && !ScsiOverUsb(fs, BlockDevicePath(fs, name).value))
    ensures r == Other <==>
      BlockDevicePath(fs, name).None? || Subsystem(fs, BlockDevicePath(fs, name).value) !in {Some("virtio"), Some("scsi")}
  {
    match BlockDevicePath(fs, name)
    case None => Other
    case Some(device) =>
      match Subsystem(fs, device)
      case Some(sub) =>
        if sub == "virtio" then Internal
        else if sub == "scsi" then (if ScsiOverUsb(fs, device) then USB else Internal)
        else Other
      case None => Other
  }

  // ----------------------------------------------------------- device numbers

  const U64_LIMIT: nat := 0x1_0000_0000_0000_0000

  predicate IsDigit(c: char)
  {
    '0' <= c <= '9'
  }

  predicate AllDigits(s: string)
  {
    forall i :: 0 <= i < |s| ==> IsDigit(s[i])
  }

  /** The value of `ds` read as decimal digits; none as soon as one of its
      characters is not a digit. */
  function DigitsValue(ds: string): Option<nat>
    decreases |ds|
  {
    if ds == [] then Some(0)
    else if !IsDigit(ds[|ds| - 1]) then None
    else
      match DigitsValue(ds[..|ds| - 1])
      case None => None
      case Some(v) => Some(10 * v + (ds[|ds| - 1] as int - '0' as int))
  }

  /** Digit strings, and only they, have a value. */
  lemma {:induction false} DigitsValueAccepts(ds: string)
    decreases |ds|
    ensures DigitsValue(ds).Some? <==> AllDigits(ds)
  {
    if ds != [] {
      var init := ds[..|ds| - 1];
      DigitsValueAccepts(init);
      assert forall i :: 0 <= i < |init| ==> init[i] == ds[i];
    }
  }

  /** The text after an optional leading `+`. */
  function Unsigned(s: string): string
  {
    if |s| > 0 && s[0] == '+' then s[1..] else s
  }

  /** `u64::from_str_radix(s, 10)`: an optional `+` followed by at least one
      ASCII digit, whose value fits in 64 bits. */
  function ParseU64(s: string): (r: Option<nat>)
    ensures r.Some? ==> r.value < U64_LIMIT
  {
    var digits := Unsigned(s);
    if digits == [] then None
    else
      match DigitsValue(digits)
      case None => None
      case Some(v) => if v < U64_LIMIT then Some(v) else None
  }

  /** What `from_str_radix` accepts: an optional `+` and at least one digit,
      nothing else; a nonempty digit string is refused only when its value
      does not fit in 64 bits. */
  lemma ParseU64Accepts(s: string)
    ensures ParseU64(s).Some? ==>
      s != [] && s != "+" && forall i :: 0 <= i < |s| ==> IsDigit(s[i]) || (i == 0 && s[i] == '+')
    ensures s != [] && AllDigits(s) ==>
      DigitsValue(s).Some? && (ParseU64(s).None? <==> DigitsValue(s).value >= U64_LIMIT)
    ensures var digits := Unsigned(s);
      ParseU64(s).Some? <==>
        digits != [] && AllDigits(digits) && DigitsValue(digits).Some? && DigitsValue(digits).value < U64_LIMIT
    ensures ParseU64(s).Some? ==> Some(ParseU64(s).value) == DigitsValue(Unsigned(s))
  {
    var digits := Unsigned(s);
    DigitsValueAccepts(digits);
    if ParseU64(s).Some? && s[0] == '+' {
      assert forall i :: 1 <= i < |s| ==> s[i] == digits[i - 1];
    }
  }

  /** The decimal text of `n`, as the kernel writes it. */
  function DecimalString(n: nat): string
  {
    if n < 10 then [('0' as int + n) as char]
    else DecimalString(n / 10) + [('0' as int + n % 10) as char]
  }

  lemma {:induction false} DecimalStringValue(n: nat)
    ensures DecimalString(n) != [] && AllDigits(DecimalString(n))
    ensures DigitsValue(DecimalString(n)) == Some(n)
  {
    var ds := DecimalString(n);
    if n >= 10 {
      DecimalStringValue(n / 10);
      assert ds[..|ds| - 1] == DecimalString(n / 10);
    }
  }

  /** Parsing the decimal text of a 64-bit number, with or without a `+`
      sign, gives the number back. */
  lemma ParseU64OfDecimal(n: nat)
    requires n < U64_LIMIT
    ensures ParseU64(DecimalString(n)) == Some(n)
    ensures ParseU64("+" + DecimalString(n)) == Some(n)
  {
    DecimalStringValue(n);
    assert ("+" + DecimalString(n))[1..] == DecimalString(n);
  }

  /** The index of the first `c` in `s`. */
  function IndexOf(s: string, c: char): (r: Option<nat>)
    ensures r.Some? ==> r.value < |s| && s[r.value] == c && c !in s[..r.value]
    ensures r.None? ==> c !in s
  {
    if s == [] then None
    else if s[0] == c then Some(0)
    else
      match IndexOf(s[1..], c)
      case None => None
      case Some(i) =>
        assert s[..i + 1] == [s[0]] + s[1..][..i];
        Some(i + 1)
  }

  /** `str::split_once`: the text before and after the first `c`. */
  function SplitOnce(s: string, c: char): (r: Option<(string, string)>)
    ensures r.Some? ==> s == r.value.0 + [c] + r.value.1 && c !in r.value.0
    ensures r.None? <==> c !in s
  {
    match IndexOf(s, c)
    case None => None
    case Some(i) =>
      assert s == s[..i] + [c] + s[i + 1..];
      Some((s[..i], s[i + 1..]))
  }

  /** Splitting undoes joining at the first separator: when `a` holds no
      `c`, `a + [c] + b` splits into `a` and `b`. */
  lemma SplitOnceAtFirst(a: string, b: string, c: char)
    requires c !in a
    ensures SplitOnce(a + [c] + b, c) == Some((a, b))
  {
    var s := a + [c] + b;
    var r := IndexOf(s, c);
    assert s[|a|] == c;
    assert r.Some?;
    assert s[..|a|] == a && s[|a| + 1..] == b;
  }

  datatype NodeError = MissingDevInfo | UnparsableDevInfo | BadDeviceNumber | NoDeviceNode

  /** The parsing half of `block_device_node`: the `major:minor` pair in the
      first line of `/sys/class/block/<name>/dev`. */
  function DevNumbers(fs: Fs, name: string): Result<(nat, nat), NodeError>
  {
    match ReadLineFile(fs, Join(Join(SysClassBlock, name), "dev"))
    case None => Err(MissingDevInfo)
    case Some(line) =>
      match SplitOnce(line, ':')
      case None => Err(UnparsableDevInfo)
      case Some((major, minor)) =>
        match ParseU64(major)
        case None => Err(BadDeviceNumber)
        case Some(ma) =>
          match ParseU64(minor)
          case None => Err(BadDeviceNumber)
          case Some(mi) => Ok((ma, mi))
  }

  /** Parsed numbers fit in 64 bits; the errors are those of reading and
      parsing: "missing dev node information" exactly when the file's first
      line cannot be read, "unparsable" exactly when that line has no `:`. */
  lemma DevNumbersErrors(fs: Fs, name: string)
    ensures var r := DevNumbers(fs, name);
      && (r.Ok? ==> r.value.0 < U64_LIMIT && r.value.1 < U64_LIMIT)
      && (r.Err? ==> r.error != NoDeviceNode)
    ensures var r := DevNumbers(fs, name);
      var line := ReadLineFile(fs, Join(Join(SysClassBlock, name), "dev"));
      && (r == Err(MissingDevInfo) <==> line.None?)
      && (r == Err(UnparsableDevInfo) <==> line.Some? && ':' !in line.value)
  {
  }

  /** A `dev` file holding `<major>:<minor>` and a newline, as the kernel
      writes it, yields that pair. */
  lemma DevNumbersOfKernelText(fs: Fs, name: string, major: nat, minor: nat)
    requires major < U64_LIMIT && minor < U64_LIMIT
    requires var f := Join(Join(SysClassBlock, name), "dev");
      f in fs.files && fs.files[f] == DecimalString(major) + ":" + DecimalString(minor) + "\n"
    ensures DevNumbers(fs, name) == Ok((major, minor))
  {
    var f := Join(Join(SysClassBlock, name), "dev");
    var a, b := DecimalString(major), DecimalString(minor);
    DecimalStringValue(major);
    DecimalStringValue(minor);
    var line := a + ":" + b;
    assert fs.files[f] == line + "\n";
    assert forall i :: 0 <= i < |line| ==> line[i] != '\n' by {
      forall i | 0 <= i < |line| ensures line[i] != '\n' {
        if i < |a| { assert line[i] == a[i]; }
        else if i > |a| { assert line[i] == b[i - |a| - 1]; }
      }
    }
    ReadLineFileOfLine(fs, f, line);
    assert ':' !in a by {
      forall i | 0 <= i < |a| ensures a[i] != ':' {
        assert IsDigit(a[i]);
      }
    }
    SplitOnceAtFirst(a, b, ':');
    ParseU64OfDecimal(major);
    ParseU64OfDecimal(minor);
  }

  // ------------------------------------------------------------- node lookup

  /** `file_is_chardev`: the path has metadata, one of the `S_IFBLK` or
      `S_IFCHR` bits is set in its mode, and its device numbers match. */
  predicate FileIsChardev(fs: Fs, p: Path, major: nat, minor: nat)
  {
    && p in fs.meta
    && (fs.meta[p].mode & S_IFBLK != 0 || fs.meta[p].mode & S_IFCHR != 0)
    && fs.meta[p].rdevMajor == major && fs.meta[p].rdevMinor == minor
  }

  /** The mode test is a bit test, not a file-type comparison: a directory
      (mode octal 040755) passes it, a regular file (octal 100644) does not. */
  lemma FileIsChardevModeTest(fs: Fs, p: Path, major: nat, minor: nat)
    requires p in fs.meta && fs.meta[p].rdevMajor == major && fs.meta[p].rdevMinor == minor
    ensures fs.meta[p].mode == 0x41ED ==> FileIsChardev(fs, p, major, minor)
    ensures fs.meta[p].mode == 0x81A4 ==> !FileIsChardev(fs, p, major, minor)
  {
  }

  /** The first entry of `/dev`, in listing order, that is not a directory
      and is the node with the given numbers. */
  function FindDeviceNode(fs: Fs, names: seq<string>, major: nat, minor: nat): (r: Option<nat>)
    ensures r.Some? ==> && r.value < |names|
                        && Join(DevDir, names[r.value]) !in fs.directories
                        && FileIsChardev(fs, Join(DevDir, names[r.value]), major, minor)
    ensures forall i :: 0 <= i < |names| && (r.None? || i < r.value) ==>
              Join(DevDir, names[i]) in fs.directories || !FileIsChardev(fs, Join(DevDir, names[i]), major, minor)
  {
    if names == [] then None
    else
      var p := Join(DevDir, names[0]);
      if p !in fs.directories && FileIsChardev(fs, p, major, minor) then Some(0)
      else
        match FindDeviceNode(fs, names[1..], major, minor)
        case None => None
        case Some(i) => Some(i + 1)
  }

  /** `block_device_node`: `/dev/<name>` when it is the node with the numbers
      read from sysfs, otherwise the first matching node in `/dev`. */
  function BlockDeviceNode(fs: Fs, name: string): (r: Result<Path, NodeError>)
    ensures DevNumbers(fs, name).Err? ==> r == Err(DevNumbers(fs, name).error)
    ensures r.Ok? ==> DevNumbers(fs, name).Ok?
    ensures r.Ok? ==> var (major, minor) := DevNumbers(fs, name).value;
      && FileIsChardev(fs, r.value, major, minor)
      && |r.value.comps| == 2 && r.value == Join(DevDir, r.value.comps[1])
    ensures DevNumbers(fs, name).Ok? ==> var (major, minor) := DevNumbers(fs, name).value;
      && (FileIsChardev(fs, Join(DevDir, name), major, minor) ==> r == Ok(Join(DevDir, name)))
      && (r.Err? ==> r.error == NoDeviceNode)
  {
    match DevNumbers(fs, name)
    case Err(e) => Err(e)
    case Ok((major, minor)) =>
      var default := Join(DevDir, name);
      if FileIsChardev(fs, default, major, minor) then Ok(default)
      else if DevDir !in fs.dirs then Err(NoDeviceNode)
      else
        match FindDeviceNode(fs, fs.dirs[DevDir], major, minor)
        case None => Err(NoDeviceNode)
        case Some(i) => Ok(Join(DevDir, fs.dirs[DevDir][i]))
  }

  /** When `/dev/<name>` is not the node, `block_device_node` falls back to
      the search of `/dev`: the first entry it finds, and "no device node"
      exactly when `/dev` cannot be listed or no entry of it is the node. */
  lemma BlockDeviceNodeSearch(fs: Fs, name: string)
    ensures DevNumbers(fs, name).Ok? ==>
      var (major, minor) := DevNumbers(fs, name).value;
      var r := BlockDeviceNode(fs, name);
      !FileIsChardev(fs, Join(DevDir, name), major, minor) ==>
      && (DevDir in fs.dirs && FindDeviceNode(fs, fs.dirs[DevDir], major, minor).Some? ==>
            r == Ok(Join(DevDir, fs.dirs[DevDir][FindDeviceNode(fs, fs.dirs[DevDir], major, minor).value])))
      && (r == Err(NoDeviceNode) <==>
            DevDir !in fs.dirs ||
            forall i :: 0 <= i < |fs.dirs[DevDir]| ==>
              Join(DevDir, fs.dirs[DevDir][i]) in fs.directories
              || !FileIsChardev(fs, Join(DevDir, fs.dirs[DevDir][i]), major, minor))
  {
  }
}
