/**
 * The messages exchanged between the IPC listener, the router, the web
 * manager and the display registry.
 *
 * The shapes follow the files that produce and consume them: the IPC wire
 * protocol is `set_path` / `set_url`, the acquire request carries an optional
 * connector, and the webview command carries that connector as an optional
 * target `monitor`.
 */
module Events {
  import opened Wrappers

  /** A request to serve a directory: `RequestServer` when the listener sends it, `AcquireServer` in the router. */
  datatype Acquire = Acquire(path: string, connector: Option<string>)

  /** `ReleaseServer`: the display stopped showing this served path. */
  datatype Release = Release(path: string)

  /** `SetWebview`: the url to load, the served path behind it (if any), and the target monitor (if any). */
  datatype Webview = Webview(url: string, path: Option<string>, monitor: Option<string>)

  /** `RequestWebview`: show a remote url. */
  datatype UrlRequest = UrlRequest(url: string, connector: Option<string>)

  /** One decoded IPC line: `{"type":"set_path",...}` or `{"type":"set_url",...}`. */
  datatype IpcMessage =
    | SetPath(monitor: Option<string>, path: string)
    | SetUrl(monitor: Option<string>, url: string)

  datatype IpcEvent =
    | RequestServer(acquire: Acquire)
    | RequestWebview(request: UrlRequest)
    | ReloadWebview(index: Option<nat>)

  /** What reaches the router's tokio queue. */
  datatype TokioEvent = FromIpc(ipc: IpcEvent) | FromWeb(webview: Webview)

  /** What the display registry sends back (`UiEvent::ReleaseServer`). */
  datatype UiEvent = UiRelease(release: Release)

  /** What the router sends to the display registry (`UiCmd::SetWebview`). */
  datatype UiCmd = SetWebview(webview: Webview)

  /** What the router sends to the web manager. */
  datatype WebCmd = AcquireServer(acquire: Acquire) | ReleaseServer(release: Release)
}
