/**
 * The shared library of the binaries: where the IPC socket lives and where
 * the wallpaper manager keeps its configuration. Environment variables are
 * parameters (`None` when unset).
 */
module Dirs {
  import opened Wrappers
  import opened PathRules

  const SocketFile := "maypaper.sock"
  const AppDir := "maypaper"
  const ConfigFile := "wallpapers.toml"
  const WallpapersDir := "wallpapers"

  /** Why a path could not be derived; the socket case is a process exit in the program. */
  datatype EnvError = RuntimeDirUnset | ConfigHomeUnset

  datatype Paths = Paths(base: string, config: string, wallpapers: string)

  /** `get_default_socket_path`: `maypaper.sock` inside `XDG_RUNTIME_DIR`, or exit when it is unset. */
  function DefaultSocketPath(runtimeDir: Option<string>): (r: Result<string, EnvError>)
    ensures r.Failure? <==> runtimeDir.None?
    ensures r.Failure? ==> r.error == RuntimeDirUnset
    ensures r.Success? ==> r.value == Join(runtimeDir.value, SocketFile)
    ensures r.Success? ==> runtimeDir.value <= r.value && FileName(r.value) == Some(SocketFile)
  {
    match runtimeDir
    case None => Failure(RuntimeDirUnset)
    case Some(dir) =>
      FileNameOfJoin(dir, SocketFile);
      Success(Join(dir, SocketFile))
  }

  /**
   * `Paths::get_dirs`: the override is the base when given; otherwise the base is
   * `XDG_CONFIG_HOME/maypaper`, and an unset variable is an error.
   */
  function GetDirs(configDirOverride: Option<string>, configHome: Option<string>): (r: Result<Paths, EnvError>)
    ensures configDirOverride.Some? ==> r.Success? && r.value.base == configDirOverride.value
    ensures configDirOverride.None? ==> (r.Success? <==> configHome.Some?)
    ensures r.Failure? ==> r.error == ConfigHomeUnset
    ensures configDirOverride.None? && r.Success? ==> r.value.base == Join(configHome.value, AppDir)
    ensures configDirOverride.None? && r.Success? ==>
      configHome.value <= r.value.base && FileName(r.value.base) == Some(AppDir)
    ensures r.Success? ==>
      && r.value.config == Join(r.value.base, ConfigFile)
      && r.value.wallpapers == Join(r.value.base, WallpapersDir)
      && FileName(r.value.config) == Some(ConfigFile)
      && FileName(r.value.wallpapers) == Some(WallpapersDir)
      && r.value.config != r.value.wallpapers
  {
    match configDirOverride
    case Some(base) => Layout(base)
    case None =>
      match configHome
      case None => Failure(ConfigHomeUnset)
      case Some(home) =>
        FileNameOfJoin(home, AppDir);
        Layout(Join(home, AppDir))
  }

  /** The files kept under a configuration base directory. */
  function Layout(base: string): (r: Result<Paths, EnvError>)
    ensures r.Success? && r.value.base == base
    ensures FileName(r.value.config) == Some(ConfigFile) && FileName(r.value.wallpapers) == Some(WallpapersDir)
  {
    FileNameOfJoin(base, ConfigFile);
    FileNameOfJoin(base, WallpapersDir);
    Success(Paths(base, Join(base, ConfigFile), Join(base, WallpapersDir)))
  }
}
