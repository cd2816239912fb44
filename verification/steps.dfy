/**
 * The ordered list of steps that migration 0.8.0 hands to the migration
 * runner. The GUI user's name, home directory, uid and gid are inputs here;
 * the migration looks them up in the group and password databases.
 */
module Steps080 {
  import opened Files
  import Migration080

  const DESKTOP_FILE_NAME: string := "press.freedom.SecureDropUpdater.desktop"
  const APPLICATION_PATH: Path := Path(["usr", "share", "applications"])
  const CRONTAB: Path := Path(["etc", "crontab"])

  /** One step of the list, by its class and constructor arguments. Absent,
      Move and Symlink are library steps whose behaviour is not part of this
      model; their arguments are kept in the order the migration passes them. */
  datatype MigrationStep =
    | Absent(path: Path)
    | Move(first: Path, second: Path)
    | Symlink(first: Path, second: Path)
    | DesktopFile(path: Path, guiUserPath: Path, uid: int, gid: int)
    | RemoveCronJob(crontab: Path)
    | EnableSystemdUserTimer(guiUser: string)

  /** The `steps` list. The timer step, which cannot be rolled back, comes
      last; the shortcut the desktop step installs is not one the two
      Absent steps delete. */
  function Steps(guiUser: string, home: Path, uid: int, gid: int): (s: seq<MigrationStep>)
    ensures |s| == 7
    ensures s[|s| - 1] == EnableSystemdUserTimer(guiUser)
    ensures forall i :: 0 <= i < |s| - 1 ==> !s[i].EnableSystemdUserTimer?
    ensures s[4].DesktopFile?
    ensures Migration080.DesktopTarget(s[4].path, s[4].guiUserPath) == Path(home.parts + ["Desktop", DESKTOP_FILE_NAME])
    ensures forall i :: 0 <= i < |s| && s[i].Absent? ==> s[i].path != Migration080.DesktopTarget(s[4].path, s[4].guiUserPath)
    ensures s[5] == RemoveCronJob(CRONTAB)
  {
    var applicationFile := Join(APPLICATION_PATH, DESKTOP_FILE_NAME);
    assert Name(applicationFile) == DESKTOP_FILE_NAME;
    assert home.parts + ["Desktop"] + [DESKTOP_FILE_NAME] == home.parts + ["Desktop", DESKTOP_FILE_NAME];
    [
      Absent(Join(Join(home, "Desktop"), "securedrop-launcher.desktop")),
      Absent(Join(Join(Join(home, ".config"), "autostart"), "SDWLogin.desktop")),
      Move(Join(home, ".securedrop_launcher"), Join(home, ".securedrop_updater")),
      Symlink(applicationFile, Join(Join(Join(home, ".config"), "autostart"), DESKTOP_FILE_NAME)),
      DesktopFile(applicationFile, home, uid, gid),
      RemoveCronJob(CRONTAB),
      EnableSystemdUserTimer(guiUser)
    ]
  }
}
