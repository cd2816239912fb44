# Migration 0.8.0 of the SecureDrop updater, modelled in Dafny

Migration 0.8.0 moves a SecureDrop Workstation host to the updater's new
layout. It is a list of migration steps. This project models the two steps
that the migration defines itself, and the list:

- **`RemoveCronJob`** takes the sdw-notify block out of `/etc/crontab`. The
  block is three lines: `### BEGIN securedrop-workstation ###`, a line that
  runs `/opt/securedrop/launcher/sdw-notify.py`, and
  `### END securedrop-workstation ###`. The step reads the file's lines and
  runs a four-state machine over them (SEEKING, BEGIN, MATCHED, END). Other
  lines are copied to `clean`. A BEGIN line that is not followed by the
  sdw-notify line is a false match and is emitted again. A matched block
  whose next line is not the END line raises. At the end the step either
  raises or writes `clean` back over the file.
- **`DesktopFile`** copies the updater's desktop file to
  `<home>/Desktop/<name>`, gives it to the GUI user, and sets mode 0o755.
  Its rollback deletes that copy.
- **`steps`** is the ordered list of seven steps handed to the migration
  runner.

Files:

- `lines.dfy` (module `Lines`) models the text layer. It has the substring
  test behind `marker in line`, `readlines()` and its inverse (joining
  lines), and the subsequence order.
- `cron_block.dfy` (module `CronBlock`) models the state machine in three
  forms:
  - a pure step function, folded over the lines;
  - an independent front-to-back description of the same scan, proved equal
    to the fold;
  - the `for` loop as an imperative method, proved equal to the fold.

  It also holds a corrected variant of the end-of-input check (see
  Findings).
- `files.dfy` (module `Files`) models paths as `pathlib` composes them, and
  the filesystem as a map from paths to entries. Each entry has data, owner
  and mode.
- `migration.dfy` (module `Migration080`) holds the two step classes. It
  also holds their effect as functions on the filesystem map.
- `steps.dfy` (module `Steps080`) holds the `steps` list.

The end-of-input check at migrations/0.8.0.py:70-71 raises when the scan
finishes in END, the one state in which the whole block was found. The
error message at line 49 ("Didn't find the expected sdw-notify block")
says the check is meant the other way round (see Findings).
`RemoveBlock`, `CleanCrontab`, `RewriteCrontab` and `RemoveCronJob.Run`
model the code as written. `RemoveBlockIntended` and `RewriteCrontabIntended`
are the corrected variant, kept beside them for comparison.

## Model

| member | source | states |
|---|---|---|
| `Lines.ContainsIffOccurs` | migrations/0.8.0.py:54-65 | The `marker in line` test holds exactly when the marker occurs at some index of the line. |
| `Lines.ReadLines` | migrations/0.8.0.py:51 | `readlines()` cuts the text into lines. Each line ends in '\n' except possibly the last one. Joining the lines gives back the text. |
| `Lines.ReadLinesOfConcat` | migrations/0.8.0.py:51-73 | Reading back the joined text of such lines yields the same lines, so writing `clean` and reading it again adds or merges no line. |
| `CronBlock.Step` | migrations/0.8.0.py:52-69 | One loop iteration raises exactly when the state is MATCHED and the line lacks the END marker. Whatever it emits is nothing, the line itself, or the buffer followed by the line. In END it emits the line and stays in END. |
| `CronBlock.RemoveBlock` | migrations/0.8.0.py:39-73 | When `run` writes, what it writes is a subsequence of the input lines: lines are kept in their order and none is altered. |
| `CronBlock.RaisedAbsorbs` | migrations/0.8.0.py:56-57 | After the exception no later line is processed and nothing more is emitted. |
| `CronBlock.EndCopiesRest` | migrations/0.8.0.py:52-53 | Once in END, every remaining line is appended unchanged and the state never leaves END. |
| `CronBlock.SeekingCopies` | migrations/0.8.0.py:68-69 | In SEEKING, lines without the BEGIN marker are copied unchanged and in order, and the buffer stays empty. |
| `CronBlock.FalseMatchRecovers` | migrations/0.8.0.py:60-66 | A BEGIN line followed by a line without the sdw-notify path: both are emitted verbatim in that order, the buffer is emptied, and the state returns to SEEKING. |
| `CronBlock.TrueMatchRemovesBlock` | migrations/0.8.0.py:54-66 | BEGIN, sdw-notify and END lines met in SEEKING take the scan to END. None of the three is emitted, and every later line is. |
| `CronBlock.MatchedRaises` | migrations/0.8.0.py:54-57 | In MATCHED, a line without the END marker raises immediately. |
| `CronBlock.ScanInvariantHolds` | migrations/0.8.0.py:51-69 | After every prefix of the input, `clean` is a subsequence of the lines read. The buffer is empty in SEEKING. In BEGIN the buffer is exactly the last line read, which holds the BEGIN marker. |
| `CronBlock.ScanKeepsOrder` | migrations/0.8.0.py:51-69 | When the loop finishes without raising, `clean` is a subsequence of the input. |
| `CronBlock.ScanMatchesExpected` | migrations/0.8.0.py:51-69 | The loop equals the block-by-block description of the scan, from any starting `clean`. |
| `CronBlock.ExpectedShape` | migrations/0.8.0.py:51-69 | When the loop ends, `clean` depends on the final state. SEEKING: all lines. BEGIN: all but a trailing BEGIN line. MATCHED: all but a trailing BEGIN and sdw-notify pair. END: all but one BEGIN/sdw-notify/END block. |
| `CronBlock.AsWrittenOutcomes` | migrations/0.8.0.py:70-73 | As written, `run` writes either the whole input, or the input less its last line, or the input less its last two lines. A complete block is never removed. |
| `CronBlock.AsWrittenCompleteBlockRaises` | migrations/0.8.0.py:54-71 | If the first BEGIN line starts a complete block, `run` raises and writes nothing. The corrected check writes the input without the block. |
| `CronBlock.AsWrittenDropsTrailingBegin` | migrations/0.8.0.py:65-73 | If the input ends in a BEGIN line met in SEEKING (at the start, after copied lines, or after a false match), `run` writes what the scan kept before that line. That is the same write as for the input without the line, so the line is lost. The corrected check raises. |
| `CronBlock.NoBlockAtAll` | migrations/0.8.0.py:68-73 | A crontab without a BEGIN line is written back unchanged as written. The corrected check raises on it. |
| `CronBlock.CompleteBlockExample` | migrations/0.8.0.py:70-71 | Concrete input for the inverted end check. A foreign line, the block and another foreign line: `run` raises, while the corrected check yields the two foreign lines. |
| `CronBlock.TrailingBeginExample` | migrations/0.8.0.py:65-73 | Concrete input for the lost BEGIN line. A foreign line followed by a BEGIN line is written back as the foreign line alone. |
| `CronBlock.RemoveBlockIntended` | migrations/0.8.0.py:49-73 | With the end check corrected to `state != END`, a write removes exactly one BEGIN/sdw-notify/END block of three consecutive lines and keeps everything else in order. |
| `CronBlock.CleanCrontab` | migrations/0.8.0.py:40-71 | The imperative loop over `state`, `buffer` and `clean`, with the end-of-input check, has the same outcome as the fold. |
| `Files.Join` | migrations/0.8.0.py:18 | `p / name` adds one component that becomes the path's name, and `p` becomes its parent. An empty name leaves the path unchanged. |
| `Migration080.DesktopTarget` | migrations/0.8.0.py:18 | The target keeps the source file's name and lies directly in `<gui_user_path>/Desktop`. |
| `Migration080.Install` | migrations/0.8.0.py:22-25 | A missing source or a copy onto itself raises. Otherwise the target gets the source's data, the given uid and gid, and mode 0o755. It is the only entry that changes. |
| `Migration080.RemoveFile` | migrations/0.8.0.py:27-29 | After rollback the target is absent, and every other entry is unchanged. |
| `Migration080.RollbackAfterInstall` | migrations/0.8.0.py:22-29 | Install followed by rollback restores the map exactly when the target did not exist before. A target that existed before is deleted, not restored. |
| `Migration080.DesktopFile.constructor` | migrations/0.8.0.py:15-20 | The step keeps its arguments, and its target is `DesktopTarget(path, gui_user_path)`. |
| `Migration080.DesktopFile.Run` | migrations/0.8.0.py:22-25 | The copy, chown and chmod leave the filesystem as `Install` says, or raise with the filesystem untouched. |
| `Migration080.DesktopFile.Rollback` | migrations/0.8.0.py:27-29 | Deletes the target if it exists, and nothing else. |
| `Migration080.RewriteCrontab` | migrations/0.8.0.py:39-73 | A missing crontab raises. An existing crontab is rewritten exactly when the scan as written ends in a write, and then holds the text of the kept lines. A write changes only the crontab's data, and keeps its owner and mode. Any other failure is the malformed-block error. |
| `Migration080.RewriteKeepsPrefix` | migrations/0.8.0.py:51-73 | As written, the rewritten crontab text is a prefix of the original text. Reading it back yields exactly the lines the scan kept. |
| `Migration080.RewriteCrontabIntended` | migrations/0.8.0.py:49-73 | With the corrected check, an existing crontab is rewritten exactly when the corrected scan ends in a write, and then holds the text of the kept lines. A write changes only the crontab's data. Any other failure is a missing file or the malformed-block error. |
| `Migration080.IntendedRewriteExcisesBlock` | migrations/0.8.0.py:49-73 | With the corrected check, the original text is the text before the block, the block's three lines, and the text after it. The rewrite is the first and last parts. Reading it back yields their lines. |
| `Migration080.RemoveCronJob.constructor` | migrations/0.8.0.py:33-34 | The step keeps the crontab path. |
| `Migration080.RemoveCronJob.Run` | migrations/0.8.0.py:39-73 | Reads the crontab, runs the loop, and either writes `clean` joined back into text or raises. When it raises, the filesystem is not written. |
| `Steps080.Steps` | migrations/0.8.0.py:96-110 | The list has seven steps. The irreversible systemd timer step is last and appears only there. The desktop step installs `<home>/Desktop/press.freedom.SecureDropUpdater.desktop`, which neither Absent step deletes. The crontab step acts on `/etc/crontab`. |

## Left out

- `EnableSystemdUserTimer` (migrations/0.8.0.py:79-85) is left out. It only runs two shell commands through `os.popen` and keeps no state. It appears only as the last element of the step list.
- The lookup of the GUI user, home directory, uid and gid in the group and password databases (migrations/0.8.0.py:90-94) is left out. These values are parameters of `Steps080.Steps` and of the `DesktopFile` constructor.
- `Absent`, `Move`, `Symlink`, the `MigrationStep` base class, `path_snapshot`, `path_rollback` and the migration runner come from `migration_steps`, which is not part of this model. So `RemoveCronJob.snapshot` and `RemoveCronJob.rollback` (migrations/0.8.0.py:36-37, 75-76) are not modelled either. The three library steps appear in the list only with their arguments.
- `shutil.copy2`, `os.chown` and `chmod` affect only the data, owner and mode of an entry. Timestamps and extended attributes are left out. Failures of `chown` or `chmod` after a successful copy, such as permission errors, are left out too.
- Directories and symbolic links are not in the filesystem map. So a missing `Desktop` directory, a target that is a directory, and `follow_symlinks=False` are not modelled.
- A file that `copy2` creates belongs to the process running the migration, taken to be root (uid 0, gid 0). Running as another user is not modelled.
- Text-mode file I/O is left out: character decoding and universal-newline translation. A file's data is its decoded text, with lines ended by '\n'.
- The write is a truncate followed by a write. An interruption between the two is not modelled.

## Findings

| source | as written | input that shows it | evidently intended | confidence | as-written member | corrected member |
|---|---|---|---|---|---|---|
| migrations/0.8.0.py:70-71 | After the loop, `if state == END: raise error`, so the crontab is rewritten only when the block was not fully found. | The lines `a`, the BEGIN line, the sdw-notify line, the END line, `b` (each ending in '\n'): `run` raises and the block stays in the file. | `if state != END: raise error`. The error message says the block was not found. The rewrite then yields `a`, `b`. | high; not executed | `CronBlock.CompleteBlockExample` | `CronBlock.RemoveBlockIntended` |
| migrations/0.8.0.py:66-73 | The BEGIN line held in `buffer` is never flushed when the input ends in BEGIN, and the file is still rewritten. | The lines `a`, then the BEGIN line: the file is rewritten as `a` alone, and the BEGIN line is lost. | The same corrected end check raises for this input and leaves the file untouched. | medium; not executed | `CronBlock.TrailingBeginExample` | `CronBlock.RemoveBlockIntended` |
