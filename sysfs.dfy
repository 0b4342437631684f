/** The sysfs reading helpers of `src/sysfs.rs`: a line-oriented entry reader,
    first-line and symlink-name lookups, and the upward search for a directory
    that holds a given entry. The filesystem is an immutable snapshot (`Fs`)
    passed in by the caller instead of real I/O. */
module Sysfs {
  import opened Wrappers

  // ------------------------------------------------------------------ paths

  /** A path as `Path::components` sees it: an optional root, then the names
      after it (`.` components already dropped, `..` kept as a name). Every
      path operation here is lexical, as Rust's `join`, `pop` and `file_name` are. */
  datatype Path = Path(absolute: bool, comps: seq<string>)

  /** `p.join(c)` for one relative component `c`. */
  function Join(p: Path, c: string): Path
  {
    Path(p.absolute, p.comps + [c])
  }

  /** The ancestor of `p` made of its first `k` components. */
  function Ancestor(p: Path, k: nat): Path
    requires k <= |p.comps|
  {
    Path(p.absolute, p.comps[..k])
  }

  /** `PathBuf::pop`: drops the last component; there is no parent (and `pop`
      returns false) only for the empty path and for the root `/`. */
  function Pop(p: Path): Option<Path>
  {
    if |p.comps| == 0 then None else Some(Ancestor(p, |p.comps| - 1))
  }

  /** `Path::file_name`: the last component, unless it is `..`; none for the
      empty path and the root. */
  function FileName(p: Path): Option<string>
  {
    if |p.comps| == 0 || p.comps[|p.comps| - 1] == ".." then None
    else Some(p.comps[|p.comps| - 1])
  }

  // ------------------------------------------------------------ filesystem

  /** What `metadata()` yields: the mode bits and the `st_rdev` device numbers,
      taken as an already decoded (major, minor) pair. */
  datatype Meta = Meta(mode: bv32, rdevMajor: nat, rdevMinor: nat)

  /** A read-only snapshot of the filesystem. A path missing from a map is one
      whose lookup fails (`read_dir`, `read_to_string`, `read_link`,
      `canonicalize`, `metadata` return an error). */
  datatype Fs = Fs(
    dirs: map<Path, seq<string>>,   // `read_dir`: entry names, in iteration order
    files: map<Path, string>,       // `read_to_string`
    links: map<Path, Path>,         // `read_link`: the link target
    canonical: map<Path, Path>,     // `canonicalize`
    existing: set<Path>,            // `Path::exists`
    directories: set<Path>,         // `Path::is_dir`
    meta: map<Path, Meta>)          // `metadata`

  // ------------------------------------------------------------ trimming

  /** The Unicode `White_Space` characters that `str::trim` removes. */
  predicate IsWhitespace(c: char)
  {
    || c == ' '
    || ('\t' <= c <= '\r')
    || c == '\U{85}' || c == '\U{A0}' || c == '\U{1680}'
    || ('\U{2000}' <= c <= '\U{200A}')
    || c == '\U{2028}' || c == '\U{2029}' || c == '\U{202F}' || c == '\U{205F}'
    || c == '\U{3000}'
  }

  /** `str::trim_start`: `s` without the whitespace it starts with. */
  function TrimStart(s: string): string
  {
    if s != [] && IsWhitespace(s[0]) then TrimStart(s[1..]) else s
  }

  /** `str::trim_end`: `s` without the whitespace it ends with. */
  function TrimEnd(s: string): string
  {
    if s != [] && IsWhitespace(s[|s| - 1]) then TrimEnd(s[..|s| - 1]) else s
  }

  /** `str::trim`. */
  function Trim(s: string): string
  {
    TrimEnd(TrimStart(s))
  }

  /** `trim_start` keeps a suffix of `s` that does not start with
      whitespace, and drops only whitespace. */
  lemma {:induction false} TrimStartDrops(s: string)
    ensures var t := TrimStart(s);
      && |t| <= |s| && t == s[|s| - |t|..]
      && (forall i :: 0 <= i < |s| - |t| ==> IsWhitespace(s[i]))
      && (t != [] ==> !IsWhitespace(t[0]))
  {
    if s != [] && IsWhitespace(s[0]) {
      TrimStartDrops(s[1..]);
      var t := TrimStart(s[1..]);
      assert s[1..][|s| - 1 - |t|..] == s[|s| - |t|..];
      forall i | 1 <= i < |s| - |t| ensures IsWhitespace(s[i]) {
        assert s[i] == s[1..][i - 1];
      }
    }
  }

  /** `trim_end` keeps a prefix of `s` that does not end with whitespace,
      and drops only whitespace. */
  lemma {:induction false} TrimEndDrops(s: string)
    ensures var t := TrimEnd(s);
      && |t| <= |s| && t == s[..|t|]
      && (forall i :: |t| <= i < |s| ==> IsWhitespace(s[i]))
      && (t != [] ==> !IsWhitespace(t[|t| - 1]))
  {
    if s != [] && IsWhitespace(s[|s| - 1]) {
      var init := s[..|s| - 1];
      TrimEndDrops(init);
      var t := TrimEnd(init);
      assert init[..|t|] == s[..|t|];
      forall i | |t| <= i < |s| - 1 ensures IsWhitespace(s[i]) {
        assert s[i] == init[i];
      }
    }
  }

  /** What `trim` keeps is the slice of `s` that begins where the leading
      whitespace ends; it neither starts nor ends with whitespace, and only
      whitespace lies outside it. */
  lemma TrimBounds(s: string)
    ensures var t := Trim(s);
      var a := |s| - |TrimStart(s)|;
      && 0 <= a <= |s| - |t| && t == s[a..a + |t|]
      && (forall i :: 0 <= i < a ==> IsWhitespace(s[i]))
      && (forall i :: a + |t| <= i < |s| ==> IsWhitespace(s[i]))
      && (t != [] ==> !IsWhitespace(t[0]) && !IsWhitespace(t[|t| - 1]))
  {
    var u := TrimStart(s);
    var t := TrimEnd(u);
    TrimStartDrops(s);
    TrimEndDrops(u);
    var a := |s| - |u|;
    assert u == s[a..];
    assert t == u[..|t|];
    assert u[..|t|] == s[a..a + |t|];
    forall i | a + |t| <= i < |s| ensures IsWhitespace(s[i]) {
      assert s[i] == u[i - a];
    }
    if t != [] {
      assert t[0] == u[0];
    }
  }

  /** Trimming removes everything `trim` removes at once: trimming again
      changes nothing. */
  lemma TrimIdempotent(s: string)
    ensures Trim(Trim(s)) == Trim(s)
  {
    var t := Trim(s);
    TrimBounds(s);
    if t != [] {
      assert TrimStart(t) == t;
      assert TrimEnd(t) == t;
    }
  }

  // ----------------------------------------------------------- first line

  /** The index of the first newline of `s`, or `|s|` when it has none. */
  function LineEnd(s: string): (k: nat)
    ensures k <= |s|
    ensures k < |s| ==> s[k] == '\n'
    ensures forall i :: 0 <= i < k ==> s[i] != '\n'
  {
    if s == [] || s[0] == '\n' then 0 else 1 + LineEnd(s[1..])
  }

  /** `content.lines().next()`: the first line without its terminator, which
      is `\n` or `\r\n`; none for empty content. */
  function FirstLine(content: string): (r: Option<string>)
    ensures r.None? <==> content == []
    ensures r.Some? ==> '\n' !in r.value && |r.value| <= |content| && r.value == content[..|r.value|]
    ensures r.Some? ==> var n := |r.value|;
      || n == |content|
      || (n < |content| && content[n] == '\n' && (n == 0 || content[n - 1] != '\r'))
      || (n + 1 < |content| && content[n] == '\r' && content[n + 1] == '\n')
  {
    if content == [] then None
    else
      var k := LineEnd(content);
      if 0 < k < |content| && content[k - 1] == '\r' then Some(content[..k - 1])
      else Some(content[..k])
  }

  /** `read_line_file`: the first line of the file, or none when the file
      cannot be read or is empty. */
  function ReadLineFile(fs: Fs, p: Path): Option<string>
  {
    if p in fs.files then FirstLine(fs.files[p]) else None
  }

  /** Reading a line fails exactly when the file cannot be read or is empty;
      otherwise the line is a newline-free prefix of the file's content. */
  lemma ReadLineFileMeans(fs: Fs, p: Path)
    ensures ReadLineFile(fs, p).None? <==> p !in fs.files || fs.files[p] == []
    ensures ReadLineFile(fs, p).Some? ==>
      && p in fs.files && '\n' !in ReadLineFile(fs, p).value
      && |ReadLineFile(fs, p).value| <= |fs.files[p]|
      && ReadLineFile(fs, p).value == fs.files[p][..|ReadLineFile(fs, p).value|]
  {
  }

  /** A file holding one line and its newline reads back as that line. */
  lemma {:induction false} ReadLineFileOfLine(fs: Fs, p: Path, line: string)
    requires p in fs.files && fs.files[p] == line + "\n"
    requires '\n' !in line && (line == [] || line[|line| - 1] != '\r')
    ensures ReadLineFile(fs, p) == Some(line)
  {
    var c := line + "\n";
    var k := LineEnd(c);
    assert c[|line|] == '\n';
    assert forall i :: 0 <= i < |line| ==> c[i] == line[i];
    assert k == |line|;
    assert c[..k] == line;
  }

  // ------------------------------------------------------------- symlinks

  /** `read_link_file_name`: the last component of a symlink's target; none
      when the path is not a link or its target has no final name. */
  function ReadLinkFileName(fs: Fs, p: Path): Option<string>
  {
    if p in fs.links then FileName(fs.links[p]) else None
  }

  /** A link whose target ends in the name `c` yields `c`, and a path that
      is not a link yields nothing. */
  lemma ReadLinkFileNameOfTarget(fs: Fs, p: Path, target: Path, c: string)
    requires c != ".."
    ensures p in fs.links && fs.links[p] == Join(target, c) ==> ReadLinkFileName(fs, p) == Some(c)
    ensures p !in fs.links ==> ReadLinkFileName(fs, p) == None
  {
  }

  /** A link yields name `c` exactly when its target has a last component,
      that component is `c`, and it is not `..`. */
  lemma ReadLinkFileNameMeans(fs: Fs, p: Path, c: string)
    ensures ReadLinkFileName(fs, p) == Some(c) <==>
      && p in fs.links && |fs.links[p].comps| > 0 && c != ".."
      && fs.links[p].comps[|fs.links[p].comps| - 1] == c
  {
  }

  // -------------------------------------------------------- ancestor walk

  /** `path_has_subdir`: the directory `p` can be listed and has an entry
      named `subdir`. */
  predicate PathHasSubdir(fs: Fs, p: Path, subdir: string)
  {
    p in fs.dirs && subdir in fs.dirs[p]
  }

  /** `path_has_subdir`: the loop over the listing of `p` stops at the first
      entry named `subdir`; a path that cannot be listed has none. */
  method HasSubdir(fs: Fs, p: Path, subdir: string) returns (b: bool)
    ensures b == PathHasSubdir(fs, p, subdir)
  {
    if p !in fs.dirs {
      return false;
    }
    var entries := fs.dirs[p];
    for i := 0 to |entries|
      invariant subdir !in entries[..i]
    {
      if entries[i] == subdir {
        return true;
      }
    }
    return false;
  }

  /** The first of `p`, its parent, its grandparent, ... that has an entry
      named `subdir`; none when not even the last ancestor has one. */
  function NearestWithSubdir(fs: Fs, p: Path, subdir: string): (r: Option<Path>)
    decreases |p.comps|
    ensures r.Some? ==> && r.value.absolute == p.absolute
                        && |r.value.comps| <= |p.comps|
                        && r.value == Ancestor(p, |r.value.comps|)
                        && PathHasSubdir(fs, r.value, subdir)
    ensures forall k :: 0 <= k <= |p.comps| && (r.None? || |r.value.comps| < k) ==>
              !PathHasSubdir(fs, Ancestor(p, k), subdir)
  {
    if PathHasSubdir(fs, p, subdir) then Some(p)
    else
      match Pop(p)
      case None => None
      case Some(parent) =>
        var r := NearestWithSubdir(fs, parent, subdir);
        assert forall k :: 0 <= k < |p.comps| ==> Ancestor(parent, k) == Ancestor(p, k);
        assert Ancestor(p, |p.comps|) == p;
        r
  }

  /** `walk_path_has_subdir`: checks `path`, then pops one component at a time
      until a directory with an entry `subdir` is found or nothing is left. */
  method WalkPathHasSubdir(fs: Fs, path: Path, subdir: string) returns (r: Option<Path>)
    ensures r == NearestWithSubdir(fs, path, subdir)
  {
    var base := path;
    while true
      invariant NearestWithSubdir(fs, base, subdir) == NearestWithSubdir(fs, path, subdir)
      decreases |base.comps|
    {
      var found := HasSubdir(fs, base, subdir);
      if found {
        return Some(base);
      }
      match Pop(base) {
        case None => return None;
        case Some(parent) => base := parent;
      }
    }
  }

  // ------------------------------------------------------- entry iterator

  /** The outcome of one `read_line` call on the underlying reader: the text
      read (with its newline, if any), or an error. A failed read consumes
      what it read, as `read_line` does for text that is not UTF-8. */
  datatype ReadOutcome = Line(text: string) | ReadError

  /** What `SysfsEntryIter::next` returns and which reads remain after it.
      An exhausted reader, a read of zero bytes and a read error end the
      search with none; a line whose trimmed text `parse` rejects is skipped. */
  function NextOf<T>(pending: seq<ReadOutcome>, parse: string -> Option<T>): (Option<T>, seq<ReadOutcome>)
    decreases |pending|
  {
    if pending == [] then (None, [])
    else
      match pending[0]
      case ReadError => (None, pending[1..])
      case Line(text) =>
        if |text| == 0 then (None, pending[1..])
        else
          match parse(Trim(text))
          case Some(entry) => (Some(entry), pending[1..])
          case None => NextOf(pending[1..], parse)
  }

  /** A read that `next` passes over: a nonempty line that does not parse. */
  predicate Skipped<T>(o: ReadOutcome, parse: string -> Option<T>)
  {
    o.Line? && |o.text| > 0 && parse(Trim(o.text)).None?
  }

  /** What `next` returns when it stops at the read `o`. */
  function Verdict<T>(o: ReadOutcome, parse: string -> Option<T>): Option<T>
  {
    if o.Line? && |o.text| > 0 then parse(Trim(o.text)) else None
  }

  /** `next` consumes a nonempty prefix of the pending reads and never goes
      back: what remains is a strictly shorter suffix of what was pending. */
  lemma {:induction false} NextOfRestIsSuffix<T>(pending: seq<ReadOutcome>, parse: string -> Option<T>)
    requires pending != []
    ensures var rest := NextOf(pending, parse).1;
      |rest| < |pending| && rest == pending[|pending| - |rest|..]
  {
    var tail := pending[1..];
    if Skipped(pending[0], parse) {
      assert NextOf(pending, parse) == NextOf(tail, parse);
      if tail != [] {
        NextOfRestIsSuffix(tail, parse);
        var rest := NextOf(tail, parse).1;
        assert pending[|pending| - |rest|..] == tail[|tail| - |rest|..];
      }
    } else {
      assert NextOf(pending, parse).1 == tail;
    }
  }

  /** Every read `next` passes over is a line whose trimmed text does not
      parse, and the last read it consumes decides the result. */
  lemma {:induction false} NextOfConsumesPrefix<T>(pending: seq<ReadOutcome>, parse: string -> Option<T>)
    requires pending != []
    ensures var rest := NextOf(pending, parse).1;
      forall i :: 0 <= i < |pending| - |rest| - 1 ==> Skipped(pending[i], parse)
    ensures var (r, rest) := NextOf(pending, parse);
      |rest| < |pending| && r == Verdict(pending[|pending| - |rest| - 1], parse)
  {
    var tail := pending[1..];
    if Skipped(pending[0], parse) {
      assert NextOf(pending, parse) == NextOf(tail, parse);
      if tail != [] {
        NextOfConsumesPrefix(tail, parse);
        var rest := NextOf(tail, parse).1;
        var n := |tail| - |rest|;
        forall i | 0 <= i < n
          ensures Skipped(pending[i], parse)
        {
          if i > 0 {
            assert pending[i] == tail[i - 1];
          }
        }
        assert pending[n] == tail[n - 1];
      }
    } else {
      assert NextOf(pending, parse) == (Verdict(pending[0], parse), tail);
    }
  }

  /** The line reader of `SysfsEntryIter`: the reads still to come, and the
      entry parser. */
  class EntryIter<T> {
    var pending: seq<ReadOutcome>
    const parse: string -> Option<T>

    constructor (input: seq<ReadOutcome>, parse: string -> Option<T>)
      ensures pending == input && this.parse == parse
    {
      pending := input;
      this.parse := parse;
    }

    /** `SysfsEntryIter::next`: reads lines until one parses after trimming,
        and returns that entry; none at the end of input or on a read error. */
    method Next() returns (r: Option<T>)
      modifies this
      ensures (r, pending) == NextOf(old(pending), parse)
    {
      while true
        invariant NextOf(pending, parse) == NextOf(old(pending), parse)
        decreases |pending|
      {
        if pending == [] {
          return None;
        }
        var outcome := pending[0];
        pending := pending[1..];
        match outcome {
          case ReadError =>
            return None;
          case Line(buffer) =>
            if |buffer| == 0 {
              return None;
            }
            var entry := parse(Trim(buffer));
            if entry.Some? {
              return entry;
            }
        }
      }
    }
  }
}
