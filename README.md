# maypaper, modelled in Dafny

maypaper puts per-monitor "live wallpaper" webviews on the screen. Their
content is either a remote url or a local static bundle. Local bundles are
served by short-lived HTTP servers on 127.0.0.1, and those servers are shared
and reference-counted by the displays that show them. The repository also
ships two command-line tools:
- `myppm`, a wallpaper package manager that keeps git sparse checkouts in step with a TOML config;
- `myptmp`, a generator that fills embedded HTML templates with copied media files.

This project models the sequential decision logic behind that plumbing and proves properties of it:

- **WebServer** (`src/webserver.rs`) is the web manager. It owns a table from content path to `Instance(url, watchers, shutdown)`. Acquire adds a watcher or binds a new server. Release removes a watcher, or removes the entry and fires the server's one-shot shutdown. The table is a `WebManager` class whose methods change it in place. Each method is proved against the step functions `AcquireStep` and `ReleaseStep`. The invariant `Consistent` says every entry is watched, and every unsignalled server task belongs to the entry of its path. Port binding is an oracle (`Bind`) that may fail in `bind` or in `local_addr`.
- **Display** (`src/main.rs`, the GTK side) is the registry of one instance per monitor. A broadcast `SetWebview` swaps each instance's path, sends a release for the old path if there was one, and loads the url. A targeted command does nothing. The `Registry` class runs that loop in place, and the effects it causes are recorded in order.
- **Router** (`src/main.rs`, `start_tokio`) sorts the router's messages: release to the web manager, acquire to the web manager, webview to the display. Queue closure ends the loop and `ReloadWebview` panics.
- **Ipc** (`src/ipc.rs`) is the socket listener. Each line is trimmed; blank and undecodable lines are skipped; `set_path` becomes `RequestServer` and `set_url` becomes `RequestWebview`. A read error ends the connection, and an accept error is skipped.
- **Ppm** (`src/bin/myppm.rs`) is the wallpaper manager. It covers:
  - name validation and the ordered config checks;
  - the install / skip-if-dirty / update decision of `sync_wallpaper`, over an abstract git host;
  - the named and full `sync` command, including removal of unconfigured entries.
- **Dirs** (`src/lib.rs`) derives the socket path and the configuration layout.
- **Template**, **Generators** and **LegacyTemplate** (`src/bin/myptmp/*.rs`, `src/bin/myptmp.rs`) cover:
  - destination resolution;
  - copying media into the destination;
  - the template-subtree loop with its normalised prefix;
  - the placeholder rewrites of the parallax, image and video generators, and the older single-file parallax generator.
- Support modules:
  - Wrappers holds `Option` and `Result`;
  - Effects holds the `Trace` of operations, with `AndThen` as Rust's `?`;
  - Text holds trimming and decimal formatting;
  - Replace holds `str::replace` as a left-to-right, non-overlapping replace-all;
  - PathRules holds `PathBuf::join`, `file_name` and `parent` for Unix paths.
- **Scenarios** composes the parts. One acquire is shown on all N monitors, then a second broadcast arrives. The code then sends N releases for an entry watched once. The first release removes the entry and shuts its server down. The other N−1 take the unknown-path branch and change nothing.

Effects on the outside world are recorded, not performed: git calls, file
system calls, webview loads and sent messages are appended, in order, to a
trace or log that the contracts describe.

The message shapes follow the files that produce and consume them, because `src/event.rs` comes from a different revision:
- the wire protocol is `set_path` / `set_url`;
- the acquire request carries an optional connector;
- `SetWebview` carries that connector as an optional target `monitor`.

Two behaviours are worth spelling out:
- A `set_url` request over IPC is meant to reach the display, which would then load that url. The code gives no behaviour to follow here, because its revisions do not compile together:
  - `src/ipc.rs:73` sends `IpcEvent::RequestWebview`;
  - the `IpcEvent` of `src/event.rs:53-56` declares no such variant;
  - the router's match in `src/main.rs:62-69` has no arm for it.

  The model's own reconciliation is that the router drops the request (`Router.Route`), and "## Left out" records this.
- One could expect a broadcast to release an instance's old path only when it differs from the new one. The code sends a release for every previously held path, even when it equals the new path, and the model follows the code (`Display.ReleaseBeforeLoad`).

## Model

| member | source | states |
|---|---|---|
| WebServer.UrlInjective | src/webserver.rs:68 | Two ports with the same `http://127.0.0.1:{port}/` url are the same port. |
| WebServer.Signal | src/webserver.rs:122-126 | Firing a shutdown sets exactly that task's flag; every other task is unchanged. |
| WebServer.AcquireStep | src/webserver.rs:35-95 | An existing path gains exactly one watcher and keeps its url, with no new task, and the reply carries that url, `Some(path)` and the connector. A new path with a bound port gets one entry with one watcher and url `http://127.0.0.1:{port}/`, plus one new unsignalled task and one reply. A failed bind or `local_addr` changes nothing and sends nothing. |
| WebServer.ReleaseStep | src/webserver.rs:99-127 | An unknown path changes nothing. More than one watcher loses exactly one watcher and keeps the entry. The last watcher removes the entry and fires its task's shutdown, and no reply is sent. |
| WebServer.Step | src/webserver.rs:31-128 | One received command is an acquire step or a release step of its path; `StepFrame` and `StepConsistent` state what every step keeps. |
| WebServer.Run | src/webserver.rs:29-129 | The command loop: one step per command with that command's bind outcome, in order; `RunSnoc` and `RunAppend` state how runs compose, and `RunConsistent` that they keep the invariant. |
| WebServer.Consistent | src/webserver.rs:15-20 | The table invariant: every entry has at least one watcher and its own unsignalled task, and every unsignalled task belongs to the entry of its path; every step keeps it (`StepConsistent`). |
| WebServer.StepFrame | src/webserver.rs:35-126 | A command leaves the entries of every other path as they were: same presence, same content. |
| WebServer.StepConsistent | src/webserver.rs:29-127 | Each command keeps the invariant: every entry has watchers ≥ 1 and its own unsignalled task, and every unsignalled task belongs to its path's entry. |
| WebServer.AcquireConsistent | src/webserver.rs:35-95 | Acquire, in each of its three branches, keeps the table invariant. |
| WebServer.ReleaseConsistent | src/webserver.rs:99-127 | Release, in each of its three branches, keeps the table invariant. |
| WebServer.LastReleaseConsistent | src/webserver.rs:122-126 | Removing the last watcher's entry and signalling its task keeps the invariant. |
| WebServer.RunConsistent | src/webserver.rs:29-127 | Any sequence of commands, whatever the bind outcomes, keeps the invariant. |
| WebServer.RunSnoc | src/webserver.rs:29 | The command loop handles one more command after the earlier ones. |
| WebServer.RunAppend | src/webserver.rs:29 | Running two command sequences back to back is running their concatenation. |
| WebServer.AcquireMany | src/webserver.rs:35-86 | N acquires of a new path whose first bind succeeds give one entry with N watchers and the first url, exactly one spawned task, and N replies with that url. |
| WebServer.ReleaseFewer | src/webserver.rs:104-107 | k releases, with k below the watcher count, only subtract k from that entry's watchers. |
| WebServer.ReleaseAll | src/webserver.rs:102-126 | As many releases as watchers remove the entry, fire its shutdown, and send nothing. |
| WebServer.AcquireReleaseRoundTrip | src/webserver.rs:35-126 | N acquires then N releases of a new path restore the table, leave exactly one task for the path with its shutdown fired, send N replies, and make a further release a no-op. |
| WebServer.WebManager.constructor | src/webserver.rs:27 | The manager starts with an empty table, no tasks and no replies, and satisfies the invariant. |
| WebServer.WebManager.HandleAcquire | src/webserver.rs:33-96 | The in-place update of `instances` for an acquire is `AcquireStep` of the old state, and the invariant is kept. |
| WebServer.WebManager.AddWatcher | src/webserver.rs:35-48 | The `watchers += 1` branch updates the table as `AcquireStep` does and keeps the invariant. |
| WebServer.WebManager.StartServer | src/webserver.rs:68-95 | The insert-and-reply branch after a successful bind updates the table as `AcquireStep` does and keeps the invariant. |
| WebServer.WebManager.HandleRelease | src/webserver.rs:99-127 | The in-place update for a release is `ReleaseStep` of the old state, and the invariant is kept. |
| WebServer.WebManager.Handle | src/webserver.rs:31-128 | One received command updates the state by one step. |
| WebServer.WebManager.Serve | src/webserver.rs:29-129 | The `while let` command loop leaves the state `Run` of the old one over the commands received, and the invariant is kept. |
| Display.Initial | src/main.rs:141-157 | One instance per monitor, in order. Each has the monitor's connector, or "" when it has none, and no path. |
| Display.Retarget | src/main.rs:176-178 | Every instance's path becomes the command's path, including `None`, and connectors are kept. |
| Display.Apply | src/main.rs:164-190 | A targeted command changes no instance and does nothing. A broadcast retargets every instance and appends the broadcast's effects. |
| Display.InstanceEffects | src/main.rs:177-188 | One instance's turn: a release of its old path when it held one, then one load of the url into its webview (`InstanceLoads`, `ReleaseBeforeLoad`). |
| Display.BroadcastEffects | src/main.rs:176-189 | The instances' turns in instance order; `BroadcastReleasesHeld` and `BroadcastLoadsAll` state that it releases exactly the held paths and loads the url once per instance. |
| Display.ApplyAll | src/main.rs:161-193 | Every received command applied in order; `Registry.Serve` is proved against it. |
| Display.ReleasedAppend | src/main.rs:176-189 | The releases among concatenated effects are the releases of each part, in order. |
| Display.LoadsAppend | src/main.rs:176-189 | The loads among concatenated effects are the loads of each part, in order. |
| Display.BroadcastReleasesHeld | src/main.rs:177-186 | A broadcast sends exactly one release per instance that held a path, with that path and in instance order; an instance with no path sends none. |
| Display.InstanceLoads | src/main.rs:187 | Each instance's turn loads the url exactly once, into its own webview. |
| Display.BroadcastLoadsAll | src/main.rs:176-189 | A broadcast loads the url once into every instance, in instance order. |
| Display.BroadcastPrefix | src/main.rs:176-189 | What the first k instances do is a prefix of what the whole broadcast does. |
| Display.ReleaseBeforeLoad | src/main.rs:177-187 | An instance holding a path sends its release immediately before loading the new url, even when the old path equals the new one. |
| Display.HeldAfterRetarget | src/main.rs:178 | After a broadcast every instance holds the new path; a broadcast without a path leaves none held. |
| Display.Registry.constructor | src/main.rs:139-157 | The `push` loop builds exactly the initial instances, and no effects have happened. |
| Display.Registry.SetWebview | src/main.rs:164-190 | The in-place loop over `&mut instances` leaves the state `Apply` of the old one. |
| Display.Registry.Serve | src/main.rs:161-193 | The receive loop applies every command in order. |
| Router.Route | src/main.rs:42-80 | A UI release goes to the web manager as `ReleaseServer`, an IPC acquire goes as `AcquireServer`, and a web `SetWebview` goes to the display, with payloads unchanged; each holds in both directions. A closed tokio queue stops the loop, `ReloadWebview` panics, and UI receive errors are ignored. `RequestWebview`, for which no revision of the router has an arm, is dropped by the model's choice. |
| Router.Forward | src/main.rs:40-83 | What the loop has sent to each side after a run of inputs, and why it ended; `ForwardEnded`, `ForwardAppend` and `ForwardReleases` state its properties, and `RunRouter` is proved against it. |
| Router.NextAfter | src/main.rs:40-83 | One turn of the loop only appends to what was already sent. |
| Router.ForwardEnded | src/main.rs:79 | Once the loop has stopped or panicked, later messages change nothing. |
| Router.ForwardAppend | src/main.rs:40-83 | While the loop runs, routing a concatenation routes each part in turn. |
| Router.ForwardReleases | src/main.rs:47-51 | Releases from the display reach the web manager one for one, unchanged and in order. |
| Router.RunRouter | src/main.rs:40-83 | The router loop sends to each side exactly what `Forward` says, and ends for the reason it gives. |
| Ipc.ToEvent | src/ipc.rs:50-77 | `set_path` becomes one `RequestServer` with the same path and the monitor as connector; `set_url` becomes one `RequestWebview` with the same url and the monitor as connector. |
| Ipc.LineEvents | src/ipc.rs:43-80 | A line yields at most one event. |
| Ipc.LineEventsSpec | src/ipc.rs:43-79 | A blank line yields nothing, an undecodable trimmed line yields nothing, and a decoded one yields exactly its event. |
| Ipc.ConnectionEvents | src/ipc.rs:42-81 | A connection's events: each read line's events in order, up to the first read error; characterised by `SkippedLine`, `DecodedLine`, `ReadErrorEnds` and `AtMostOneEventPerLine`. |
| Ipc.ServerEvents | src/ipc.rs:26-83 | The accept loop's events: each accepted connection's events in accept order, accept errors contributing none (`AcceptErrorSkipped`). |
| Ipc.ConnectionAppend | src/ipc.rs:42 | Events of concatenated line runs are the events of each run, in order, while no read failed. |
| Ipc.AtMostOneEventPerLine | src/ipc.rs:42-81 | A connection yields no more events than lines read. |
| Ipc.SkippedLine | src/ipc.rs:44-46 | A blank or bad line anywhere contributes nothing, and the lines after it are still read. |
| Ipc.DecodedLine | src/ipc.rs:48-78 | A decoded line contributes exactly its event, between the events of the lines before and after it. |
| Ipc.ReadErrorEnds | src/ipc.rs:42 | Nothing after the first read error is read. |
| Ipc.HandleLine | src/ipc.rs:43-80 | Handling one line sends exactly the line's events. |
| Ipc.ServeConnection | src/ipc.rs:40-81 | The per-connection loop sends exactly the connection's events, in line order. |
| Ipc.ServerEventsSnoc | src/ipc.rs:26-39 | One more accepted connection adds its events after the earlier ones. |
| Ipc.AcceptErrorSkipped | src/ipc.rs:32-35 | An accept error contributes nothing, and accepting continues. |
| Ipc.Listen | src/ipc.rs:16-83 | A bind failure returns without events; otherwise the events are those of every connection, in accept order. |
| Dirs.DefaultSocketPath | src/lib.rs:9-16 | The socket is `XDG_RUNTIME_DIR` joined with `maypaper.sock`, so its file name is `maypaper.sock` and the directory is its prefix. An unset variable is the exit error, and only then. |
| Dirs.GetDirs | src/lib.rs:26-37 | An override is the base. Otherwise the base is `XDG_CONFIG_HOME` joined with `maypaper`, and an unset variable fails, and only then. config is `base/wallpapers.toml` and wallpapers is `base/wallpapers`, and the two differ. |
| Dirs.Layout | src/lib.rs:32-36 | The base is kept as given and the two files are named under it. |
| Ppm.ValidateWallpaperName | src/bin/myppm.rs:215-223 | A name is rejected for a separator iff it has '/' or '\\'. It is rejected for a dot segment iff it has no separator and is "." or contains "..". Every other name is accepted. |
| Ppm.ValidNameStaysInside | src/bin/myppm.rs:124 | A valid non-empty name is one plain path component, so joining it to the wallpapers directory names exactly that entry. |
| Ppm.EntryCheck | src/bin/myppm.rs:106-116 | An entry passes iff its name is non-empty and safe and its repo is non-empty; otherwise the first failing check, in that order, is reported. The subdir is not checked. |
| Ppm.LoadConfig | src/bin/myppm.rs:99-121 | Read and parse failures are reported. Otherwise the config is accepted iff every entry passes, and is then returned as parsed. A rejection names the first failing entry by index. |
| Ppm.RunGit | src/bin/myppm.rs:225-235 | One git call is logged, and it fails iff the host fails it. |
| Ppm.GitCapture | src/bin/myppm.rs:237-253 | Captured output is the trimmed stdout, and a failure happens iff the call fails. |
| Ppm.DefaultBranch | src/bin/myppm.rs:191-200 | The upstream is the trimmed `symbolic-ref` output, or "origin/master" when that lookup fails. |
| Ppm.EnsureBranch | src/bin/myppm.rs:189-208 | The lookup then `checkout -B mayppm --track <upstream>` run, in that order; it fails iff the checkout fails. |
| Ppm.IsDirty | src/bin/myppm.rs:210-213 | It fails iff `status --porcelain` fails. |
| Ppm.IsDirtyIff | src/bin/myppm.rs:210-213 | A readable status is dirty iff its output is not all whitespace. |
| Ppm.SparseSet | src/bin/myppm.rs:136-138 | `sparse-checkout set` runs iff a subdir is configured. |
| Ppm.CloneSparse | src/bin/myppm.rs:156-187 | The install: clone, sparse init, set when a subdir is given, `checkout -f`, then `ensure_branch`, each failure ending it; it never pulls (`CloneNeverPulls`). |
| Ppm.SyncWallpaper | src/bin/myppm.rs:123-130 | A missing destination is cloned, and nothing else happens. |
| Ppm.CleanIsUpdated | src/bin/myppm.rs:132-153 | An existing, clean checkout runs sparse init, set and status, then `ensure_branch`, then `pull --ff-only`, each failure ending the sync. |
| Ppm.PrepareFailureStops | src/bin/myppm.rs:135-138 | A failing `sparse-checkout init`, or `set`, ends the sync with that call's error before the status is read. |
| Ppm.StatusFailureFails | src/bin/myppm.rs:141 | A status that cannot be read ends the sync with its error, after the sparse settings. |
| Ppm.DirtyIsSkipped | src/bin/myppm.rs:132-147 | An existing, dirty destination runs only sparse init, set and status, then succeeds, with no branch fix and no pull. |
| Ppm.CloneNeverPulls | src/bin/myppm.rs:156-187 | Installing never pulls. |
| Ppm.PullOnlyWhenClean | src/bin/myppm.rs:141-151 | A pull happens only for an existing destination whose status is clean. |
| Ppm.SyncOnlyRunsGit | src/bin/myppm.rs:123-154 | Syncing one wallpaper only runs git. |
| Ppm.Find | src/bin/myppm.rs:292-295 | The named wallpaper is the first with an equal name, or there is none. |
| Ppm.AfterSync | src/bin/myppm.rs:123-174 | After one sync, the only new path is that wallpaper's destination. It exists afterwards iff it existed before or the clone ran and succeeded. Git failures and outputs are unchanged. |
| Ppm.UpdateContinuesPastFailure | src/bin/myppm.rs:308-313 | Every entry is synced in order, whatever the earlier ones did. Each sync runs against the host the earlier syncs left. |
| Ppm.UpdateAll | src/bin/myppm.rs:308-313 | Every wallpaper's sync in configuration order, each against the checkouts the earlier ones cloned, a failure not stopping the later ones (`UpdateContinuesPastFailure`, `DuplicateFindsClone`, `DistinctNamesIndependent`); `SyncAll` is proved against it. |
| Ppm.PrepareStartsWithInit | src/bin/myppm.rs:126-135 | A sync of an existing checkout starts with `sparse-checkout init` there. |
| Ppm.DuplicateFindsClone | src/bin/myppm.rs:123-135 | The config loader accepts a repeated name. A second wallpaper of that name finds the first one's successful clone, so its sync starts with the sparse init in that checkout instead of cloning again. |
| Ppm.HostAfterFrame | src/bin/myppm.rs:308-313 | The syncs of a list change no git failure or output. A path that is no listed wallpaper's destination exists after them iff it existed before. |
| Ppm.SameGitAnswers | src/bin/myppm.rs:156-253 | Clone, sparse init and set, status, branch fix and pull give the same trace on two hosts that agree on failing calls and outputs, whatever paths exist. |
| Ppm.SyncSeesOnlyItsDestination | src/bin/myppm.rs:123-154 | A sync depends on which paths exist only through its own destination. |
| Ppm.DistinctNamesIndependent | src/bin/myppm.rs:308-313 | With valid, pairwise distinct names, the loop equals every sync run against the host as the command found it. |
| Ppm.CleanupEntry | src/bin/myppm.rs:324-343 | A configured entry is kept; any other is removed, as a directory or a file, and a failed removal ends the command. |
| Ppm.Cleanup | src/bin/myppm.rs:321-344 | The removal loop over the entries; `CleanupRemovesUnconfigured` and `CleanupStopsAtFailure` state what it removes and where it stops, and `RemoveUnconfigured` is proved against it. |
| Ppm.UnconfiguredMembers | src/bin/myppm.rs:321-334 | An entry is scheduled for removal iff it is listed and its name matches no configured wallpaper. |
| Ppm.CleanupRemovesUnconfigured | src/bin/myppm.rs:321-344 | Without removal failures, cleanup removes exactly the unconfigured entries, in listing order, and succeeds. |
| Ppm.CleanupStopsAtFailure | src/bin/myppm.rs:337-341 | A failed removal ends cleanup; later entries are untouched. |
| Ppm.SyncCommand | src/bin/myppm.rs:277-278 | A configuration that could not be loaded fails the command with that load error before any operation; a loaded one does what `SyncLoaded` says. |
| Ppm.SyncLoaded | src/bin/myppm.rs:279-347 | An empty config does nothing. A missing target fails before any git call. A named target syncs only the first match, with its outcome. A full sync syncs every wallpaper first. Then an unreadable wallpapers directory fails with `ReadDirFailed`; otherwise the cleanup of the readable entries follows the updates. |
| Ppm.FullSyncRemovesUnconfigured | src/bin/myppm.rs:308-346 | With a readable directory and no failing removal, a full sync performs every update, then removes exactly the entries no wallpaper is named after, in order, and succeeds. |
| Ppm.NamedSyncNeverRemoves | src/bin/myppm.rs:277-305 | A named sync removes nothing, whatever the configuration load gave. |
| Ppm.IsConfigured | src/bin/myppm.rs:324-330 | The `found` loop with its early `break` finds a name iff some wallpaper has it. |
| Ppm.SyncAll | src/bin/myppm.rs:308-313 | The update loop, tracking the checkouts its clones create, performs exactly the syncs `UpdateAll` describes, in order. |
| Ppm.CollectEntries | src/bin/myppm.rs:316-319 | Unreadable directory entries are dropped and the rest are kept in order. |
| Ppm.RemoveUnconfigured | src/bin/myppm.rs:321-344 | The removal loop does exactly what `Cleanup` says. |
| Ppm.SyncConfigured | src/bin/myppm.rs:279-347 | The arm after `load_config` does exactly what `SyncLoaded` says. |
| Ppm.Sync | src/bin/myppm.rs:277-347 | The whole arm starting from the config file's text. An unreadable file or a failed decode fails, with that error, before any git call. An invalid entry also fails before any git call, and the error names the first invalid entry. A valid config does what `SyncCommand` says for it. |
| PathRules.Join | src/bin/myptmp/common.rs:87 | An absolute name replaces the base. Otherwise the result is the base and the name, with a '/' between them unless the base is empty or already ends in '/'. |
| PathRules.JoinInjective | src/bin/myppm.rs:124 | Two relative names joined onto the same base give the same path iff they are the same name. |
| PathRules.FileName | src/bin/myptmp/common.rs:46-50 | A file name, when there is one, is a single plain component. |
| PathRules.Parent | src/bin/myptmp/common.rs:89 | The parent is the prefix before the last '/', or "" without one. |
| PathRules.FileNameOfJoin | src/bin/myptmp/common.rs:52 | Joining a plain name to a directory gives a path whose file name is that name. |
| Template.Perform | src/bin/myptmp/common.rs:39-40 | One file-system operation is logged, and it fails with the given error iff the disk fails it. |
| Template.ResolveDest | src/bin/myptmp/common.rs:10-32 | No output gives `./<default>`. A bare name gives `./<name>`. A path ending in a separator gets the default name joined. Any other path with a separator is used as it is. |
| Template.InCurrentDirectory | src/bin/myptmp/common.rs:12-19 | The default name and a bare name both land directly in ".". |
| Template.IntoDirectory | src/bin/myptmp/common.rs:22-24 | A path ending in '/' names the default directory inside it. |
| Template.CreateDestDir | src/bin/myptmp/common.rs:10-43 | An existing destination is an error before anything is created. Otherwise one `create_dir_all` of the destination runs, and the destination is returned unless that fails. |
| Template.CopyFileIntoDir | src/bin/myptmp/common.rs:45-61 | Without a file name nothing is copied and an error is returned. Otherwise one copy into `dest/name` runs, and the name is returned unless the copy fails. |
| Template.NormPrefix | src/bin/myptmp/common.rs:69-73 | The prefix ends in '/'; a trailing '/' is kept and one is added otherwise. |
| Template.AssetEffect | src/bin/myptmp/common.rs:79-105 | One asset: nothing outside the prefix or without content; else its parent directory is created and it is written at `dest/rel` (`AssetEffectWrites`). |
| Template.WriteAsset | src/bin/myptmp/common.rs:94-105 | `index.html` is written rewritten, or fails when it is not UTF-8; other assets are written byte for byte. |
| Template.Materialize | src/bin/myptmp/common.rs:63-109 | The assets' effects in order under the normalised prefix, the first failure ending it. `OnlySubtreeWritten` says what may be written, and `SelectedAssetsWritten` that everything selected is written when nothing fails. `TrailingSlashOptional`, `UnselectedIgnored` and `FailureEndsMaterialize` also characterise it. |
| Template.AssetWritten | src/bin/myptmp/common.rs:79-105 | An asset none of whose steps can fail succeeds with exactly its expected operations: nothing when unselected, else its parent directory, then its file. |
| Template.SelectedAssetsWritten | src/bin/myptmp/common.rs:63-109 | When no directory creation or write fails and every selected `index.html` is UTF-8, the loop succeeds. Its operations are then exactly each selected asset's parent creation and write, in iteration order. |
| Template.SelectedAssetWritten | src/bin/myptmp/common.rs:79-105 | Under the same conditions, every selected asset is written at the destination joined with its path below the prefix, with its rewritten or raw contents. |
| Template.TrailingSlashOptional | src/bin/myptmp/common.rs:68-73 | "x" and "x/" materialise exactly the same. |
| Template.UnselectedIgnored | src/bin/myptmp/common.rs:79-81 | An asset outside the prefix has no effect wherever it is. |
| Template.AssetEffectWrites | src/bin/myptmp/common.rs:79-105 | Each asset only creates directories and writes itself at `dest/rel`: `index.html` through the rewrite, others byte for byte. |
| Template.WriteAssetWrites | src/bin/myptmp/common.rs:94-105 | Writing a selected asset performs only that asset's write, at its place, with its rewritten or raw contents. |
| Template.OnlySubtreeWritten | src/bin/myptmp/common.rs:75-106 | Every write comes from an asset under the normalised prefix. |
| Template.FailureEndsMaterialize | src/bin/myptmp/common.rs:90-104 | A failing step ends the loop; later assets are untouched. |
| Template.MaterializeSubtree | src/bin/myptmp/common.rs:63-109 | The loop over assets does exactly what `Materialize` says. |
| Template.VisitAsset | src/bin/myptmp/common.rs:76-105 | One turn of the loop: an asset outside the subtree or without content is skipped, and any other is written; the result equals the loop's step `AssetEffect`. |
| Template.Unselected | src/bin/myptmp/common.rs:79-85 | An asset outside the subtree, or without content, is skipped with no operation. |
| Template.SubtreeAsset | src/bin/myptmp/common.rs:87-105 | One selected asset: its parent is created, then it is written as `AssetEffect` says. |
| Template.WriteFile | src/bin/myptmp/common.rs:94-105 | `index.html` is decoded and rewritten, and other assets are copied byte for byte. |
| Replace.ReplaceAll | src/bin/myptmp/parallax.rs:16-18 | `str::replace`: each occurrence found scanning left to right is replaced and the scan resumes after it; characterised by `ReplaceAbsent`, `ReplaceSplit` and `ReplaceToken`. |
| Replace.ReplaceAbsent | src/bin/myptmp/parallax.rs:16-18 | Text without the pattern is unchanged by replacement. |
| Replace.ReplaceSplit | src/bin/myptmp/parallax.rs:16-18 | Replacing over a split point that no match straddles replaces each side separately. |
| Replace.ReplaceToken | src/bin/myptmp/parallax.rs:16-18 | An occurrence of a pattern whose first character never recurs in it becomes the replacement, and each side is replaced separately. |
| Generators.TokensHaveUniqueOpeners | src/bin/myptmp/parallax.rs:16-18 | None of the four placeholders can overlap another occurrence of itself. |
| Generators.DepthTokenSurvives | src/bin/myptmp/parallax.rs:16-17 | Replacing `{IMAGE}` leaves every `{IMAGE_DEPTH}` intact. |
| Generators.ParallaxHtml | src/bin/myptmp/parallax.rs:16-18 | The three replacements in order `{IMAGE}`, `{IMAGE_DEPTH}`, `{PARALLAX_STRENGTH}` (`DepthTokenSurvives`, `ParallaxWithoutPlaceholders`). |
| Generators.ParallaxWithoutPlaceholders | src/bin/myptmp/parallax.rs:16-18 | A page with none of the placeholders is unchanged by the parallax rewrite. |
| Generators.ImageTokenFilled | src/bin/myptmp/image.rs:10 | Every `{IMAGE}` becomes the copied file's name. |
| Generators.VideoTokenFilled | src/bin/myptmp/video.rs:10 | Every `{VIDEO}` becomes the copied file's name. |
| Generators.SingleWithoutPlaceholder | src/bin/myptmp/image.rs:10 | Text without the placeholder is unchanged by a one-placeholder rewrite. |
| Generators.GenerateParallax | src/bin/myptmp/parallax.rs:6-21 | Copy the image, copy the depth image, then the "parallax" subtree with the rewrite; stated by `ParallaxImageFirst`, `ParallaxDepthSecond` and `ParallaxWritesSubtree`. |
| Generators.GenerateSingle | src/bin/myptmp/image.rs:6-13 | The one-file generators: copy the file, then its subtree with one placeholder replaced (`SingleOrder`, `ImageSteps`, `VideoSteps`). |
| Generators.ParallaxImageFirst | src/bin/myptmp/parallax.rs:12 | The image is copied first, and a name or copy failure ends the command there. |
| Generators.ParallaxDepthSecond | src/bin/myptmp/parallax.rs:13 | The depth image is copied second, and its failure ends the command before any template is written. |
| Generators.ParallaxWritesSubtree | src/bin/myptmp/parallax.rs:15-18 | After both copies, exactly the "parallax" subtree is materialised, with the three placeholders replaced in order. |
| Generators.BothCopied | src/bin/myptmp/parallax.rs:12-15 | When both copies succeed, the rest runs with both names. |
| Generators.SingleOrder | src/bin/myptmp/image.rs:6-13 | The one-file generators copy first, and a failure ends the command; otherwise they materialise their subtree. |
| Generators.ImageSteps | src/bin/myptmp/image.rs:6-13 | `generate_image` copies the image first. A failed copy ends the command with its error. Otherwise the "image" subtree is materialised with `{IMAGE}` replaced. |
| Generators.VideoSteps | src/bin/myptmp/video.rs:6-13 | `generate_video` copies the video first. A failed copy ends the command with its error. Otherwise the "video" subtree is materialised with `{VIDEO}` replaced. |
| LegacyTemplate.GenerateParallax | src/bin/myptmp.rs:74-144 | Both file names checked first, then the two copies, then the inlined "parallax/" loop (`CopiesThenSubtree`, `BadDepthNameCopiesNothing`, `AgreesWithModular`). |
| LegacyTemplate.Command | src/bin/myptmp.rs:146-166 | Create the destination, refusing an existing one, then generate into it with the strength or "0.1" (`ExistingDestinationUntouched`, `StrengthDefault`). |
| LegacyTemplate.AgreesWithModular | src/bin/myptmp.rs:74-144 | With two usable file names, the single-file generator does exactly what the modular one does. |
| LegacyTemplate.BadDepthNameCopiesNothing | src/bin/myptmp.rs:81-89 | An unusable depth name fails before anything is copied; the modular generator has already copied the image. |
| LegacyTemplate.ExistingDestinationUntouched | src/bin/myptmp.rs:64-66 | An existing destination is refused before any directory is created. |
| LegacyTemplate.StrengthDefault | src/bin/myptmp.rs:155-161 | The destination is created first, and the strength is "0.1" when none is given. |
| LegacyTemplate.RunGenerateParallax | src/bin/myptmp.rs:74-144 | The inlined generator, step by step, does what `GenerateParallax` says. |
| LegacyTemplate.CopyAndMaterialize | src/bin/myptmp.rs:91-141 | The image copy, then the depth copy, each failure ending the command, then the "parallax/" loop. |
| LegacyTemplate.CopiesThenSubtree | src/bin/myptmp.rs:91-141 | The three outcomes of the copies: image failed, depth failed, or both copied followed by the subtree. |
| Text.Trim | src/ipc.rs:43 | `str::trim`: the result is no longer than the line, and `TrimSpec` states that exactly the leading and trailing whitespace is removed. |
| Text.TrimSpec | src/ipc.rs:43 | The trimmed line is empty iff the line is all whitespace; otherwise it neither starts nor ends with whitespace. |
| Text.NatToString | src/webserver.rs:68 | The port's decimal text: non-empty, only digits, no leading zero; `DecimalRoundTrip` reads it back. |
| Text.DecimalRoundTrip | src/webserver.rs:68 | The decimal port text reads back as the port. |
| Scenarios.ReleasesOfAbsent | src/webserver.rs:112-119 | Any number of releases of a path with no entry change nothing. |
| Scenarios.ReleasesOfSingleWatcher | src/webserver.rs:102-126 | k ≥ 1 releases of a path watched once remove the entry and fire its shutdown exactly once; the rest are no-ops. |
| Scenarios.InitialHoldsNothing | src/main.rs:155 | Fresh instances hold no path. |
| Scenarios.AcquireOnStart | src/webserver.rs:68-95 | The first acquire on a fresh manager creates one entry watched once, one task and one reply. |
| Scenarios.TwoBroadcasts | src/main.rs:175-189 | On fresh screens the first broadcast releases nothing, and the second releases the shown path once per monitor. |
| Scenarios.RoutedReleases | src/main.rs:47-51 | The router hands the web manager one release for each one the display sent. |
| Scenarios.BroadcastTwiceReleasesOnce | src/webserver.rs:102-126 | One acquire, shown on all N monitors and then replaced, produces N releases of a path watched once. One of them removes the entry and shuts its server down. The other N−1 hit the unknown-path branch, so a table with one watcher per entry does not match the display's N holders. |
| Scenarios.EveryPrefixOfReleases | src/webserver.rs:112-115 | Every non-empty prefix of those releases leaves the same, empty table. |
| Scenarios.ReleasesAfterAcquire | src/webserver.rs:99-127 | After that one acquire, any k ≥ 1 releases empty the table and signal the one task once. |

## Left out

- Monitor enumeration, the GTK windows and WebKit webviews (layer shell, JavaScript, mute handling) are UI behind foreign libraries. `src/webview.rs` is not part of this model. A monitor is its optional connector name, and loading a url is a recorded effect.
- The targeted `SetWebview` branch is a TODO in the code, so it is modelled as doing nothing.
- `run_web` (axum, static file serving, `/api/health`) is an HTTP framework the model does not see. A server is a task whose only state is whether its shutdown was signalled.
- TCP bind and port assignment are an oracle per command. The model does not claim that ports are distinct.
- The tokio runtime, `select!`, task spawning, and the async channels are concurrency:
  - queues are sequences, handled one message at a time;
  - the router sees one interleaving of its two queues;
  - IPC connections are read one after another, not concurrently;
  - send results, which the code ignores, are not modelled.
- `serde_json` and `toml` decoding are oracles that return the decoded value or an error.
- git subprocesses and `fs` calls are modelled as follows:
  - git is abstract host state: the set of failing calls and each call's stdout;
  - the file system is a set of existing paths and a set of operations that fail;
  - each call is recorded, not performed;
  - in the wallpaper manager, a successful `git clone` adds its destination to the existing paths, so a later wallpaper of the same name finds it (`Ppm.AfterSync`).
- Ppm.AfterSync: the other effects of a sync on the host, such as what a pull or checkout changes in git's answers, are not fed back to later steps. Only the new checkout is, because `destination.exists()` is the only host fact a later sync tests. The listing the cleanup reads is a separate input, so it is not derived from the clones.
- Entry paths are given with their names, so `file_name().unwrap()` and `to_str().unwrap()` on directory entries are not modelled.
- `is_dir` only picks between `remove_dir_all` and `remove_file`, so both are one removal operation.
- `Templates::iter` and `Templates::get`: the embedded templates are a sequence of assets with optional content, and UTF-8 validity of `index.html` is a field of that content. Byte-level decoding is not modelled.
- Paths are modelled as Unix paths. '/' is the only separator; '\\' counts only where the code tests for it explicitly. `Path::parent` is the text before the last '/'. Non-UTF-8 file names are not modelled.
- The f32 `parallax_strength` is an opaque string. Its default `0.1` is the string "0.1" that `to_string` gives.
- The rewrite closures always return `Ok`, so a rewrite is a total function on strings.
- `Paths::ensure_dirs` and `ensure_default_config` are file-system I/O before the command runs, and are left out.
- The `list` subcommand only prints, and is left out.
- Logging (`tracing`, `println!`) is left out. `std::process::exit` is an error result.
- `src/bin/myptmp/main.rs` and the clap command-line structs only dispatch, and are left out.
- `src/event.rs` is used only for its datatypes, reconciled as described above.
- The router's handling of a remote-url request (`RequestWebview`) is not modelled from code. The router's match has no arm for it and `IpcEvent` does not declare it, so no revision defines what happens. Router.Route drops it as a modelling choice; forwarding a `set_url` request to the display, so that the display loads the url, is not modelled.
- Ppm.SyncWallpaper: its own contract covers only the install branch. The branches of an existing checkout are stated by `PrepareFailureStops`, `StatusFailureFails`, `DirtyIsSkipped` and `CleanIsUpdated`, with `PullOnlyWhenClean` and `SyncOnlyRunsGit` over all of them.
