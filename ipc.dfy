/**
 * The IPC listener: a Unix socket whose clients send one JSON message per
 * line. The JSON decoder is an oracle; a connection is the sequence of
 * outcomes of reading its lines, and the end of the sequence is end of file.
 * Connections are handled one after another, in accept order.
 */
module Ipc {
  import opened Wrappers
  import opened Text
  import opened Events

  datatype JsonError = JsonError

  /** A decoder for one line: `serde_json::from_str::<Ipc>`. */
  type Decoder = string -> Result<IpcMessage, JsonError>

  /** One `next_line()` outcome other than end of file. */
  datatype ReadResult = Line(text: string) | ReadError

  /** One `accept()` outcome: a connection and what reading it yields, or an error. */
  datatype Accepted = Connection(outcomes: seq<ReadResult>) | AcceptError

  /** A decoded message as the listener forwards it: the monitor becomes the connector. */
  function ToEvent(msg: IpcMessage): (e: TokioEvent)
    ensures msg.SetPath? ==> e == FromIpc(RequestServer(Acquire(msg.path, msg.monitor)))
    ensures msg.SetUrl? ==> e == FromIpc(RequestWebview(UrlRequest(msg.url, msg.monitor)))
  {
    match msg
    case SetPath(monitor, path) => FromIpc(RequestServer(Acquire(path, monitor)))
    case SetUrl(monitor, url) => FromIpc(RequestWebview(UrlRequest(url, monitor)))
  }

  /** What one line sends: nothing for a blank or undecodable line, else its one event. */
  function LineEvents(line: string, decode: Decoder): (r: seq<TokioEvent>)
    ensures |r| <= 1
  {
    var t := Trim(line);
    if t == [] then []
    else
      match decode(t)
      case Success(msg) => [ToEvent(msg)]
      case Failure(_) => []
  }

  /**
   * A line of whitespace sends nothing and is never decoded; otherwise the
   * trimmed line is decoded, and it sends its message's event or, when it
   * does not decode, nothing.
   */
  lemma LineEventsSpec(line: string, decode: Decoder)
    ensures AllWhitespace(line) ==> LineEvents(line, decode) == []
    ensures !AllWhitespace(line) && decode(Trim(line)).Success? ==>
      LineEvents(line, decode) == [ToEvent(decode(Trim(line)).value)]
    ensures decode(Trim(line)).Failure? ==> LineEvents(line, decode) == []
  {
    TrimSpec(line);
  }

  /** What a connection sends, line by line, until end of file or its first read error. */
  function ConnectionEvents(outcomes: seq<ReadResult>, decode: Decoder): seq<TokioEvent>
    decreases |outcomes|
  {
    if outcomes == [] || outcomes[0].ReadError? then []
    else LineEvents(outcomes[0].text, decode) + ConnectionEvents(outcomes[1..], decode)
  }

  /** Every read succeeded. */
  predicate AllRead(outcomes: seq<ReadResult>) {
    forall k :: 0 <= k < |outcomes| ==> outcomes[k].Line?
  }

  /** After lines that were all read, the connection goes on with what follows, in order. */
  lemma {:induction false} ConnectionAppend(a: seq<ReadResult>, b: seq<ReadResult>, decode: Decoder)
    requires AllRead(a)
    ensures ConnectionEvents(a + b, decode) == ConnectionEvents(a, decode) + ConnectionEvents(b, decode)
    decreases |a|
  {
    if a == [] {
      assert a + b == b;
    } else {
      assert (a + b)[1..] == a[1..] + b;
      assert AllRead(a[1..]) by {
        forall k | 0 <= k < |a[1..]| ensures a[1..][k].Line? {
          assert a[1..][k] == a[k + 1];
        }
      }
      ConnectionAppend(a[1..], b, decode);
    }
  }

  /** At most one event per line. */
  lemma {:induction false} AtMostOneEventPerLine(outcomes: seq<ReadResult>, decode: Decoder)
    ensures |ConnectionEvents(outcomes, decode)| <= |outcomes|
    decreases |outcomes|
  {
    if outcomes != [] && outcomes[0].Line? {
      AtMostOneEventPerLine(outcomes[1..], decode);
    }
  }

  /** A blank line or a line that does not decode is skipped, and the next line is handled as usual. */
  lemma SkippedLine(a: seq<ReadResult>, line: string, b: seq<ReadResult>, decode: Decoder)
    requires AllRead(a)
    requires AllWhitespace(line) || decode(Trim(line)).Failure?
    ensures ConnectionEvents(a + [Line(line)] + b, decode) == ConnectionEvents(a, decode) + ConnectionEvents(b, decode)
  {
    assert a + [Line(line)] + b == a + ([Line(line)] + b);
    ConnectionAppend(a, [Line(line)] + b, decode);
    assert ([Line(line)] + b)[1..] == b;
    LineEventsSpec(line, decode);
  }

  /** A line that decodes sends exactly its one event, between those of the lines around it. */
  lemma DecodedLine(a: seq<ReadResult>, line: string, msg: IpcMessage, b: seq<ReadResult>, decode: Decoder)
    requires AllRead(a)
    requires !AllWhitespace(line) && decode(Trim(line)) == Success(msg)
    ensures ConnectionEvents(a + [Line(line)] + b, decode) == ConnectionEvents(a, decode) + [ToEvent(msg)] + ConnectionEvents(b, decode)
  {
    assert a + [Line(line)] + b == a + ([Line(line)] + b);
    ConnectionAppend(a, [Line(line)] + b, decode);
    assert ([Line(line)] + b)[1..] == b;
    LineEventsSpec(line, decode);
  }

  /** Nothing after the first read error is read. */
  lemma {:induction false} ReadErrorEnds(a: seq<ReadResult>, b: seq<ReadResult>, decode: Decoder)
    ensures ConnectionEvents(a + [ReadError] + b, decode) == ConnectionEvents(a, decode)
    decreases |a|
  {
    if a != [] && a[0].Line? {
      assert (a + [ReadError] + b)[1..] == a[1..] + [ReadError] + b;
      ReadErrorEnds(a[1..], b, decode);
    }
  }

  /** The body of the per-connection loop for one line: trim, skip if blank, decode, forward. */
  method HandleLine(text: string, decode: Decoder) returns (events: seq<TokioEvent>)
    ensures events == LineEvents(text, decode)
  {
    events := [];
    var line := Trim(text);
    if line == [] {
      return;
    }
    match decode(line) {
      case Success(msg) => events := [ToEvent(msg)];
      case Failure(_) =>
    }
  }

  /** The per-connection loop: `while let Ok(Some(line)) = lines.next_line().await`. */
  method ServeConnection(outcomes: seq<ReadResult>, decode: Decoder) returns (sent: seq<TokioEvent>)
    ensures sent == ConnectionEvents(outcomes, decode)
  {
    sent := [];
    var rest := outcomes;
    while rest != [] && rest[0].Line?
      invariant sent + ConnectionEvents(rest, decode) == ConnectionEvents(outcomes, decode)
      decreases |rest|
    {
      var events := HandleLine(rest[0].text, decode);
      assert sent + events + ConnectionEvents(rest[1..], decode) == sent + (events + ConnectionEvents(rest[1..], decode));
      sent := sent + events;
      rest := rest[1..];
    }
    assert sent + [] == sent;
  }

  /** What the listener sends over all connections, in accept order, skipping failed accepts. */
  function ServerEvents(accepts: seq<Accepted>, decode: Decoder): seq<TokioEvent>
    decreases |accepts|
  {
    if accepts == [] then []
    else
      var n := |accepts| - 1;
      ServerEvents(accepts[..n], decode) + AcceptedEvents(accepts[n], decode)
  }

  function AcceptedEvents(acc: Accepted, decode: Decoder): seq<TokioEvent> {
    match acc
    case Connection(outcomes) => ConnectionEvents(outcomes, decode)
    case AcceptError => []
  }

  lemma ServerEventsSnoc(a: seq<Accepted>, x: Accepted, decode: Decoder)
    ensures ServerEvents(a + [x], decode) == ServerEvents(a, decode) + AcceptedEvents(x, decode)
  {
    assert (a + [x])[..|a|] == a;
  }

  /** A failed accept is skipped and the loop goes on accepting. */
  lemma {:induction false} AcceptErrorSkipped(a: seq<Accepted>, b: seq<Accepted>, decode: Decoder)
    ensures ServerEvents(a + [AcceptError] + b, decode) == ServerEvents(a + b, decode)
    decreases |b|
  {
    if b == [] {
      ServerEventsSnoc(a, AcceptError, decode);
      assert a + [AcceptError] + b == a + [AcceptError];
      assert a + b == a;
    } else {
      var n := |b| - 1;
      assert a + [AcceptError] + b == (a + [AcceptError] + b[..n]) + [b[n]];
      assert a + b == (a + b[..n]) + [b[n]];
      ServerEventsSnoc(a + [AcceptError] + b[..n], b[n], decode);
      ServerEventsSnoc(a + b[..n], b[n], decode);
      AcceptErrorSkipped(a, b[..n], decode);
    }
  }

  /**
   * `ipc_server`: when binding the socket fails the listener returns without
   * accepting anything; otherwise it serves every accepted connection.
   */
  method Listen(bindOk: bool, accepts: seq<Accepted>, decode: Decoder) returns (sent: seq<TokioEvent>)
    ensures !bindOk ==> sent == []
    ensures bindOk ==> sent == ServerEvents(accepts, decode)
  {
    sent := [];
    if !bindOk {
      return;
    }
    var i := 0;
    while i < |accepts|
      invariant 0 <= i <= |accepts|
      invariant sent == ServerEvents(accepts[..i], decode)
    {
      assert accepts[..i + 1][..i] == accepts[..i];
      match accepts[i] {
        case AcceptError =>
        case Connection(outcomes) =>
          var more := ServeConnection(outcomes, decode);
          sent := sent + more;
      }
      i := i + 1;
    }
    assert accepts[..i] == accepts;
  }
}
