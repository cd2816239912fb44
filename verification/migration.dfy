/**
 * The two migration steps that migration 0.8.0 defines itself:
 * `DesktopFile`, which installs a desktop shortcut into the GUI user's
 * Desktop directory, and `RemoveCronJob`, which takes the sdw-notify block
 * out of the system crontab. Both act on a `FileSystem`.
 */
module Migration080 {
  import opened Lines
  import opened Files
  import CronBlock

  /** The permission bits `DesktopFile.run` sets: 0o755. */
  const DESKTOP_MODE: int := 0x1ED

  /** Owner of a file that `shutil.copy2` creates: the process running the
      migration, which is root. */
  const RUNNER_UID: int := 0
  const RUNNER_GID: int := 0

  /** The exceptions the two steps raise. */
  datatype StepError =
    | FileNotFound(path: Path)        // open() or copy2() of a missing file
    | SameFile(path: Path)            // copy2() of a file onto itself
    | MalformedCrontab(message: string)

  datatype Result<T> = Ok(value: T) | Err(error: StepError)

  /** What a step's `run` did: returned, or raised. */
  datatype Status = Success | Raised(error: StepError)

  // ---------------------------------------------------------------------
  // DesktopFile
  // ---------------------------------------------------------------------

  /** `gui_user_path / "Desktop" / path.name`: the file keeps its name and
      lands directly in the user's Desktop directory. */
  function DesktopTarget(path: Path, guiUserPath: Path): (t: Path)
    ensures Name(path) != "" ==> Name(t) == Name(path) && Parent(t) == Join(guiUserPath, "Desktop")
    ensures Name(path) == "" ==> t == Join(guiUserPath, "Desktop")
    ensures |t.parts| <= |guiUserPath.parts| + 2
  {
    Join(Join(guiUserPath, "Desktop"), Name(path))
  }

  /** `shutil.copy2(src, dst)`: dst gets src's data and permission bits;
      an existing dst keeps its owner, a new one belongs to the runner. */
  function Copy2(m: map<Path, Entry>, src: Path, dst: Path): (r: map<Path, Entry>)
    requires src in m
  {
    var owner := if dst in m then (m[dst].uid, m[dst].gid) else (RUNNER_UID, RUNNER_GID);
    m[dst := Entry(m[src].data, owner.0, owner.1, m[src].mode)]
  }

  /** `os.chown(p, uid, gid)`. */
  function Chown(m: map<Path, Entry>, p: Path, uid: int, gid: int): map<Path, Entry>
    requires p in m
  {
    m[p := m[p].(uid := uid, gid := gid)]
  }

  /** `p.chmod(mode)`. */
  function Chmod(m: map<Path, Entry>, p: Path, mode: int): map<Path, Entry>
    requires p in m
  {
    m[p := m[p].(mode := mode)]
  }

  /** `DesktopFile.run` on a filesystem map: copy, chown, chmod. */
  function Install(m: map<Path, Entry>, src: Path, dst: Path, uid: int, gid: int): (r: Result<map<Path, Entry>>)
    ensures r.Err? <==> src !in m || src == dst
    ensures r.Err? ==> r.error == (if src !in m then FileNotFound(src) else SameFile(src))
    ensures r.Ok? ==>
      && r.value.Keys == m.Keys + {dst}
      && r.value[dst] == Entry(m[src].data, uid, gid, DESKTOP_MODE)
      && forall p :: p in m && p != dst ==> r.value[p] == m[p]
  {
    if src !in m then Err(FileNotFound(src))
    else if src == dst then Err(SameFile(src))
    else Ok(Chmod(Chown(Copy2(m, src, dst), dst, uid, gid), dst, DESKTOP_MODE))
  }

  /** `DesktopFile.rollback`: delete p if it exists. */
  function RemoveFile(m: map<Path, Entry>, p: Path): (r: map<Path, Entry>)
    ensures r.Keys == m.Keys - {p}
    ensures forall q :: q in r ==> r[q] == m[q]
  {
    if p in m then m - {p} else m
  }

  /** Rolling back an install removes the target and restores every other
      entry; a target that existed before the install is not restored. */
  lemma RollbackAfterInstall(m: map<Path, Entry>, src: Path, dst: Path, uid: int, gid: int)
    requires Install(m, src, dst, uid, gid).Ok?
    ensures RemoveFile(Install(m, src, dst, uid, gid).value, dst) == m - {dst}
    ensures dst !in m ==> RemoveFile(Install(m, src, dst, uid, gid).value, dst) == m
  {
    var r := RemoveFile(Install(m, src, dst, uid, gid).value, dst);
    assert r.Keys == (m - {dst}).Keys;
    assert dst !in m ==> m - {dst} == m;
  }

  class DesktopFile {
    const path: Path
    const guiUserPath: Path
    const target: Path
    const uid: int
    const gid: int

    constructor (path: Path, guiUserPath: Path, uid: int, gid: int)
      ensures this.path == path && this.guiUserPath == guiUserPath
      ensures this.uid == uid && this.gid == gid
      ensures target == DesktopTarget(path, guiUserPath)
    {
      this.path := path;
      this.guiUserPath := guiUserPath;
      this.target := DesktopTarget(path, guiUserPath);
      this.uid := uid;
      this.gid := gid;
    }

    /** Copy the desktop file to the target, hand it to the GUI user and
        make it executable; on an exception nothing has changed. */
    method Run(fs: FileSystem) returns (status: Status)
      modifies fs
      ensures match Install(old(fs.entries), path, target, uid, gid)
        case Ok(m) => status == Success && fs.entries == m
        case Err(e) => status == Raised(e) && fs.entries == old(fs.entries)
    {
      if path !in fs.entries {
        return Raised(FileNotFound(path));
      }
      if path == target {
        return Raised(SameFile(path));
      }
      fs.entries := Copy2(fs.entries, path, target);
      fs.entries := Chown(fs.entries, target, uid, gid);
      fs.entries := Chmod(fs.entries, target, DESKTOP_MODE);
      return Success;
    }

    /** Delete the installed copy if it exists; nothing else changes. */
    method Rollback(fs: FileSystem)
      modifies fs
      ensures fs.entries == RemoveFile(old(fs.entries), target)
      ensures target !in fs.entries
    {
      if target in fs.entries {
        fs.entries := fs.entries - {target};
      }
    }
  }

  // ---------------------------------------------------------------------
  // RemoveCronJob
  // ---------------------------------------------------------------------

  /** `RemoveCronJob.run` on a filesystem map, as written: read the file's
      lines, scan them, and write `clean` back over the same entry (its
      owner and mode are kept), or raise and write nothing. */
  function RewriteCrontab(m: map<Path, Entry>, p: Path): (r: Result<map<Path, Entry>>)
    ensures p !in m ==> r == Err(FileNotFound(p))
    ensures r.Err? ==> p !in m || r.error.MalformedCrontab?
    ensures p in m ==> (r.Ok? <==> CronBlock.RemoveBlock(ReadLines(m[p].data)).Written?)
    ensures r.Ok? ==>
      && p in m && r.value.Keys == m.Keys
      && (forall q :: q in m && q != p ==> r.value[q] == m[q])
      && r.value[p].uid == m[p].uid && r.value[p].gid == m[p].gid && r.value[p].mode == m[p].mode
    ensures r.Ok? ==> r.value[p].data == Concat(CronBlock.RemoveBlock(ReadLines(m[p].data)).clean)
  {
    if p !in m then Err(FileNotFound(p))
    else
      match CronBlock.RemoveBlock(ReadLines(m[p].data))
      case Written(clean) => Ok(m[p := m[p].(data := Concat(clean))])
      case Failed(message) => Err(MalformedCrontab(message))
  }

  /** As written, the rewritten crontab is a prefix of the original text, and
      reading it back yields exactly the lines the scan kept. */
  lemma RewriteKeepsPrefix(m: map<Path, Entry>, p: Path)
    requires RewriteCrontab(m, p).Ok?
    ensures RewriteCrontab(m, p).value[p].data <= m[p].data
    ensures ReadLines(RewriteCrontab(m, p).value[p].data) == CronBlock.RemoveBlock(ReadLines(m[p].data)).clean
  {
    var lines := ReadLines(m[p].data);
    var out := CronBlock.RemoveBlock(lines).clean;
    assert RewriteCrontab(m, p).value[p].data == Concat(out);
    CronBlock.AsWrittenOutcomes(lines);
    KeptPrefixText(lines, |out|);
    assert out == lines[..|out|];
  }

  /** The text of the first k lines is a prefix of the whole text, and reads
      back as those k lines. */
  lemma KeptPrefixText(lines: seq<Line>, k: nat)
    requires IsLineSplit(lines) && k <= |lines|
    ensures Concat(lines[..k]) <= Concat(lines)
    ensures ReadLines(Concat(lines[..k])) == lines[..k]
  {
    assert lines == lines[..k] + lines[k..];
    ConcatAppend(lines[..k], lines[k..]);
    LineSplitSlice(lines, 0, k);
    assert lines[0..k] == lines[..k];
    ReadLinesOfConcat(lines[..k]);
  }

  /** `RemoveCronJob.run` with the end-of-input check corrected. */
  function RewriteCrontabIntended(m: map<Path, Entry>, p: Path): (r: Result<map<Path, Entry>>)
    ensures p !in m ==> r == Err(FileNotFound(p))
    ensures r.Err? ==> p !in m || r.error.MalformedCrontab?
    ensures p in m ==> (r.Ok? <==> CronBlock.RemoveBlockIntended(ReadLines(m[p].data)).Written?)
    ensures r.Ok? ==> p in m && p in r.value && r.value == m[p := m[p].(data := r.value[p].data)]
    ensures r.Ok? ==> r.value[p].data == Concat(CronBlock.RemoveBlockIntended(ReadLines(m[p].data)).clean)
  {
    if p !in m then Err(FileNotFound(p))
    else
      match CronBlock.RemoveBlockIntended(ReadLines(m[p].data))
      case Written(clean) => Ok(m[p := m[p].(data := Concat(clean))])
      case Failed(message) => Err(MalformedCrontab(message))
  }

  /** As intended, the crontab text is cut into the text before the block,
      the block's three lines, and the text after it; the rewrite keeps the
      first and last parts, and reading it back yields their lines. */
  lemma IntendedRewriteExcisesBlock(m: map<Path, Entry>, p: Path)
    requires RewriteCrontabIntended(m, p).Ok?
    ensures exists i ::
      var lines := ReadLines(m[p].data);
      && CronBlock.BlockAt(lines, i)
      && m[p].data == Concat(lines[..i]) + Concat(lines[i..i + 3]) + Concat(lines[i + 3..])
      && RewriteCrontabIntended(m, p).value[p].data == Concat(lines[..i]) + Concat(lines[i + 3..])
      && ReadLines(RewriteCrontabIntended(m, p).value[p].data) == lines[..i] + lines[i + 3..]
  {
    var lines := ReadLines(m[p].data);
    var out := CronBlock.RemoveBlockIntended(lines).clean;
    assert RewriteCrontabIntended(m, p).value[p].data == Concat(out);
    var i :| CronBlock.BlockAt(lines, i) && out == lines[..i] + lines[i + 3..];
    ExcisedText(lines, i);
    ConcatAppend(lines[..i], lines[i + 3..]);
    RemainingLinesReadBack(lines, i);
  }

  /** The text of a sequence of lines falls apart into the text before line
      i, the text of lines i to i+2, and the text after them. */
  lemma ExcisedText(lines: seq<Line>, i: nat)
    requires i + 3 <= |lines|
    ensures Concat(lines) == Concat(lines[..i]) + Concat(lines[i..i + 3]) + Concat(lines[i + 3..])
  {
    SplitAt(lines, i + 3);
    SplitAt(lines[..i + 3], i);
    assert lines[..i + 3][..i] == lines[..i] && lines[..i + 3][i..] == lines[i..i + 3];
    ConcatAppend(lines[..i + 3], lines[i + 3..]);
    ConcatAppend(lines[..i], lines[i..i + 3]);
  }

  lemma SplitAt(s: seq<Line>, k: nat)
    requires k <= |s|
    ensures s[..k] + s[k..] == s
  {
  }

  /** What remains of a line split after cutting out lines i, i+1, i+2
      reads back as those remaining lines. */
  lemma RemainingLinesReadBack(lines: seq<Line>, i: nat)
    requires IsLineSplit(lines) && i + 3 <= |lines|
    ensures ReadLines(Concat(lines[..i] + lines[i + 3..])) == lines[..i] + lines[i + 3..]
  {
    var a, b := lines[..i], lines[i + 3..];
    assert forall k :: 0 <= k < |a| ==> a[k] == lines[k];
    assert forall k :: 0 <= k < |b| ==> b[k] == lines[i + 3 + k];
    LineSplitJoin(a, b);
    ReadLinesOfConcat(a + b);
  }

  class RemoveCronJob {
    const path: Path

    constructor (crontab: Path)
      ensures path == crontab
    {
      path := crontab;
    }

    /** Scan the crontab and write back what is kept; when the scan raises,
        the file is not written. */
    method Run(fs: FileSystem) returns (status: Status)
      modifies fs
      ensures match RewriteCrontab(old(fs.entries), path)
        case Ok(m) => status == Success && fs.entries == m
        case Err(e) => status == Raised(e) && fs.entries == old(fs.entries)
    {
      if path !in fs.entries {
        return Raised(FileNotFound(path));
      }
      var lines := ReadLines(fs.entries[path].data);
      var outcome := CronBlock.CleanCrontab(lines);
      match outcome
      case Failed(message) =>
        return Raised(MalformedCrontab(message));
      case Written(clean) =>
        fs.entries := fs.entries[path := fs.entries[path].(data := Concat(clean))];
        return Success;
    }
  }
}
