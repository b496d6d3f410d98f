/**
 * The router task of the daemon: it takes one message at a time from either
 * queue (the display's events, or the listener's and web manager's events)
 * and forwards it. Which queue is served next is not modelled: the input is
 * one interleaving of the two queues.
 */
module Router {
  import opened Wrappers
  import opened Events

  /** `async_channel::RecvError`: the display side's sender is gone. */
  datatype RecvError = RecvError

  datatype RouterInput =
    | FromUi(ui: Result<UiEvent, RecvError>)
    | FromTokio(tokio: Option<TokioEvent>)

  /** What one message makes the router do. */
  datatype Action = ToWeb(web: WebCmd) | ToUi(ui: UiCmd) | Ignore | Stop | Panic

  /**
   * One arm of the router's `select!`. The router's match (main.rs:62-69)
   * names no set_url event, and the `IpcEvent` declared in event.rs:53-56
   * has no such variant, although ipc.rs:73 sends one; these revisions do
   * not compile together. The model reconciles them by dropping the set_url
   * event (`RequestWebview`) here. `ReloadWebview` is `todo!()`, a panic.
   */
  function Route(input: RouterInput): (a: Action)
    ensures a.ToWeb? <==>
      (input.FromUi? && input.ui.Success?) ||
      (input.FromTokio? && input.tokio.Some? && input.tokio.value.FromIpc? && input.tokio.value.ipc.RequestServer?)
    ensures a.ToWeb? && input.FromUi? ==> a.web == ReleaseServer(input.ui.value.release)
    ensures a.ToWeb? && input.FromTokio? ==> a.web == AcquireServer(input.tokio.value.ipc.acquire)
    ensures a.ToUi? <==> input.FromTokio? && input.tokio.Some? && input.tokio.value.FromWeb?
    ensures a.ToUi? ==> a.ui == SetWebview(input.tokio.value.webview)
    ensures a.Stop? <==> input == FromTokio(None)
    ensures a.Panic? <==> input.FromTokio? && input.tokio.Some? && input.tokio.value.FromIpc? && input.tokio.value.ipc.ReloadWebview?
  {
    match input
    case FromUi(Success(UiRelease(rel))) => ToWeb(ReleaseServer(rel))
    case FromUi(Failure(_)) => Ignore
    case FromTokio(None) => Stop
    case FromTokio(Some(FromIpc(RequestServer(acq)))) => ToWeb(AcquireServer(acq))
    case FromTokio(Some(FromIpc(RequestWebview(_)))) => Ignore
    case FromTokio(Some(FromIpc(ReloadWebview(_)))) => Panic
    case FromTokio(Some(FromWeb(w))) => ToUi(SetWebview(w))
  }

  /** Whether the router loop is still running, and if not, why it ended. */
  datatype RouterEnd = Listening | QueueClosed | Unimplemented

  datatype Routed = Routed(web: seq<WebCmd>, ui: seq<UiCmd>, end: RouterEnd)

  /** What the router has sent to each side after a run of inputs; nothing is read after the loop ends. */
  function Forward(inputs: seq<RouterInput>): Routed
    decreases |inputs|
  {
    if inputs == [] then Routed([], [], Listening)
    else Next(Forward(inputs[..|inputs| - 1]), inputs[|inputs| - 1])
  }

  /** One turn of the loop: nothing once it has ended, else what the message's arm does. */
  function Next(s: Routed, input: RouterInput): Routed {
    if s.end != Listening then s
    else
      match Route(input)
      case ToWeb(c) => s.(web := s.web + [c])
      case ToUi(c) => s.(ui := s.ui + [c])
      case Ignore => s
      case Stop => s.(end := QueueClosed)
      case Panic => s.(end := Unimplemented)
  }

  /** A turn adds to the end of what was sent, whatever was sent before. */
  lemma NextAfter(web: seq<WebCmd>, ui: seq<UiCmd>, t: Routed, input: RouterInput)
    ensures var n := Next(t, input);
      Next(Routed(web + t.web, ui + t.ui, t.end), input) == Routed(web + n.web, ui + n.ui, n.end)
  {
    if t.end == Listening {
      match Route(input)
      case ToWeb(c) => assert web + t.web + [c] == web + (t.web + [c]);
      case ToUi(c) => assert ui + t.ui + [c] == ui + (t.ui + [c]);
      case Ignore =>
      case Stop =>
      case Panic =>
    }
  }

  /** Once the loop has ended, later messages change nothing. */
  lemma {:induction false} ForwardEnded(a: seq<RouterInput>, b: seq<RouterInput>)
    requires Forward(a).end != Listening
    ensures Forward(a + b) == Forward(a)
    decreases |b|
  {
    if b == [] {
      assert a + b == a;
    } else {
      var n := |b| - 1;
      assert (a + b)[..|a| + n] == a + b[..n];
      ForwardEnded(a, b[..n]);
    }
  }

  /** While the loop runs, routing a concatenation routes each part in turn. */
  lemma {:induction false} ForwardAppend(a: seq<RouterInput>, b: seq<RouterInput>)
    requires Forward(a).end == Listening
    ensures var s := Forward(a + b); var t := Forward(b);
      s == Routed(Forward(a).web + t.web, Forward(a).ui + t.ui, t.end)
    decreases |b|
  {
    var fa := Forward(a);
    if b == [] {
      assert a + b == a;
      assert fa.web + [] == fa.web && fa.ui + [] == fa.ui;
    } else {
      var n := |b| - 1;
      assert (a + b)[..|a| + n] == a + b[..n];
      assert (a + b)[|a| + n] == b[n];
      ForwardAppend(a, b[..n]);
      NextAfter(fa.web, fa.ui, Forward(b[..n]), b[n]);
    }
  }

  /** Releases from the display reach the web manager one for one, unchanged and in order. */
  lemma {:induction false} ForwardReleases(rels: seq<Release>)
    ensures Forward(seq(|rels|, i requires 0 <= i < |rels| => FromUi(Success(UiRelease(rels[i])))))
         == Routed(seq(|rels|, i requires 0 <= i < |rels| => ReleaseServer(rels[i])), [], Listening)
    decreases |rels|
  {
    if rels != [] {
      var n := |rels| - 1;
      var ins := seq(|rels|, i requires 0 <= i < |rels| => FromUi(Success(UiRelease(rels[i]))));
      assert ins[..n] == seq(n, i requires 0 <= i < n => FromUi(Success(UiRelease(rels[..n][i]))));
      ForwardReleases(rels[..n]);
      assert seq(n, i requires 0 <= i < n => ReleaseServer(rels[..n][i])) + [ReleaseServer(rels[n])]
          == seq(|rels|, i requires 0 <= i < |rels| => ReleaseServer(rels[i]));
    }
  }

  /** The router loop: forward each message until the tokio queue closes or an unimplemented event arrives. */
  method RunRouter(inputs: seq<RouterInput>) returns (web: seq<WebCmd>, ui: seq<UiCmd>, end: RouterEnd)
    ensures Routed(web, ui, end) == Forward(inputs)
  {
    web, ui, end := [], [], Listening;
    var i := 0;
    while i < |inputs| && end == Listening
      invariant 0 <= i <= |inputs|
      invariant Routed(web, ui, end) == Forward(inputs[..i])
    {
      assert inputs[..i + 1][..i] == inputs[..i];
      match Route(inputs[i]) {
        case ToWeb(c) => web := web + [c];
        case ToUi(c) => ui := ui + [c];
        case Ignore =>
        case Stop => end := QueueClosed;
        case Panic => end := Unimplemented;
      }
      i := i + 1;
    }
    if i < |inputs| {
      ForwardEnded(inputs[..i], inputs[i..]);
      assert inputs[..i] + inputs[i..] == inputs;
    } else {
      assert inputs[..i] == inputs;
    }
  }
}
