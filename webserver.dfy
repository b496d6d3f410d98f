/**
 * The web manager: a table from content path to a running local HTTP server,
 * reference-counted by the displays that watch it, changed one command at a
 * time.
 *
 * Binding a listener is an oracle (`Bind`): it may fail in either of its two
 * steps, and the port it yields is arbitrary. A spawned server task is seen
 * only through its one-shot shutdown flag (`Task`).
 */
module WebServer {
  import opened Wrappers
  import opened Text
  import opened Events

  type Port = p: int | 0 <= p < 0x1_0000

  /** The outcome of `TcpListener::bind(("127.0.0.1", 0))` and then `local_addr()`. */
  datatype Bind = BindFailed | LocalAddrFailed | Bound(port: Port)

  /** A table entry: the server's url, its watcher count, and which task its shutdown sender belongs to. */
  datatype Instance = Instance(url: string, watchers: nat, shutdown: nat)

  /** A spawned `run_web` task: the path it serves and whether its shutdown has been signalled. */
  datatype Task = Task(path: string, signalled: bool)

  /** The manager's whole state: the table, every task spawned so far, and the replies sent to the router. */
  datatype Manager = Manager(instances: map<string, Instance>, tasks: seq<Task>, sent: seq<Webview>)

  const Start := Manager(map[], [], [])

  const UrlPrefix := "http://127.0.0.1:"

  /** `format!("http://127.0.0.1:{port}/")`. */
  function Url(port: Port): string {
    UrlPrefix + NatToString(port) + "/"
  }

  /** Different ports give different urls (the model does not claim the ports differ). */
  lemma UrlInjective(p: Port, q: Port)
    requires Url(p) == Url(q)
    ensures p == q
  {
    var a, b := NatToString(p), NatToString(q);
    assert a == Url(p)[|UrlPrefix|..|Url(p)| - 1];
    assert b == Url(q)[|UrlPrefix|..|Url(q)| - 1];
    NatToStringInjective(p, q);
  }

  /** An entry is live: watched at least once, and backed by its own task, not yet signalled. */
  ghost predicate Live(m: Manager, p: string)
    requires p in m.instances
  {
    var inst := m.instances[p];
    inst.watchers >= 1 && inst.shutdown < |m.tasks| && m.tasks[inst.shutdown] == Task(p, false)
  }

  /**
   * The table's invariant: every entry is live, and every task whose shutdown
   * has not been signalled belongs to the entry of its path, so at most one
   * server runs per path and a signalled task is owned by no entry.
   */
  ghost predicate Consistent(m: Manager) {
    && (forall p | p in m.instances :: Live(m, p))
    && (forall t | 0 <= t < |m.tasks| && !m.tasks[t].signalled ::
          m.tasks[t].path in m.instances && m.instances[m.tasks[t].path].shutdown == t)
  }

  /** Fire the one-shot shutdown of task `t`. */
  function Signal(tasks: seq<Task>, t: nat): (r: seq<Task>)
    ensures |r| == |tasks|
    ensures forall k :: 0 <= k < |tasks| && k != t ==> r[k] == tasks[k]
    ensures t < |tasks| ==> r[t] == tasks[t].(signalled := true)
  {
    if t < |tasks| then tasks[t := tasks[t].(signalled := true)] else tasks
  }

  /** `WebCmd::AcquireServer` (webserver.rs:32-97). */
  function AcquireStep(m: Manager, a: Acquire, bind: Bind): (r: Manager)
    // an existing entry gains one watcher and keeps its url; the reply carries that url
    ensures a.path in m.instances ==>
      var inst := m.instances[a.path];
      && r.instances == m.instances[a.path := inst.(watchers := inst.watchers + 1)]
      && r.tasks == m.tasks
      && r.sent == m.sent + [Webview(inst.url, Some(a.path), a.connector)]
    // a new path with a bound port: one new task, one entry with one watcher, one reply
    ensures a.path !in m.instances && bind.Bound? ==>
      && r.instances == m.instances[a.path := Instance(Url(bind.port), 1, |m.tasks|)]
      && r.tasks == m.tasks + [Task(a.path, false)]
      && r.sent == m.sent + [Webview(Url(bind.port), Some(a.path), a.connector)]
    // a failed bind or local_addr drops the request: nothing changes, nothing is sent
    ensures a.path !in m.instances && !bind.Bound? ==> r == m
  {
    if a.path in m.instances then
      var inst := m.instances[a.path];
      m.(instances := m.instances[a.path := inst.(watchers := inst.watchers + 1)],
         sent := m.sent + [Webview(inst.url, Some(a.path), a.connector)])
    else
      match bind
      case Bound(port) =>
        m.(instances := m.instances[a.path := Instance(Url(port), 1, |m.tasks|)],
           tasks := m.tasks + [Task(a.path, false)],
           sent := m.sent + [Webview(Url(port), Some(a.path), a.connector)])
      case _ => m
  }

  /** `WebCmd::ReleaseServer` (webserver.rs:99-127). */
  function ReleaseStep(m: Manager, path: string): (r: Manager)
    // an unknown path is logged and changes nothing
    ensures path !in m.instances ==> r == m
    // a path watched more than once loses one watcher and stays
    ensures path in m.instances && m.instances[path].watchers > 1 ==>
      var inst := m.instances[path];
      r == m.(instances := m.instances[path := inst.(watchers := inst.watchers - 1)])
    // the last watcher removes the entry and fires its shutdown; no reply is sent
    ensures path in m.instances && m.instances[path].watchers <= 1 ==>
      && r.instances == m.instances - {path}
      && r.tasks == Signal(m.tasks, m.instances[path].shutdown)
      && r.sent == m.sent
  {
    if path !in m.instances then m
    else
      var inst := m.instances[path];
      if inst.watchers > 1 then
        m.(instances := m.instances[path := inst.(watchers := inst.watchers - 1)])
      else
        m.(instances := m.instances - {path}, tasks := Signal(m.tasks, inst.shutdown))
  }

  /** The path a command is about. */
  function CmdPath(cmd: WebCmd): string {
    match cmd
    case AcquireServer(a) => a.path
    case ReleaseServer(r) => r.path
  }

  /** One iteration of the command loop; `bind` is consulted only by an acquire of a new path. */
  function Step(m: Manager, cmd: WebCmd, bind: Bind): Manager {
    match cmd
    case AcquireServer(a) => AcquireStep(m, a, bind)
    case ReleaseServer(r) => ReleaseStep(m, r.path)
  }

  /** The command loop over a queue of commands, with one bind outcome per command. */
  function Run(m: Manager, cmds: seq<WebCmd>, binds: seq<Bind>): Manager
    requires |binds| == |cmds|
    decreases |cmds|
  {
    if cmds == [] then m
    else
      var n := |cmds| - 1;
      Step(Run(m, cmds[..n], binds[..n]), cmds[n], binds[n])
  }

  function Acquires(a: Acquire, n: nat): seq<WebCmd> {
    seq(n, _ => AcquireServer(a))
  }

  function Releases(path: string, n: nat): seq<WebCmd> {
    seq(n, _ => ReleaseServer(Release(path)))
  }

  /** A command leaves every other path's entry exactly as it was, and never rewrites an earlier task. */
  lemma StepFrame(m: Manager, cmd: WebCmd, bind: Bind, q: string)
    requires q != CmdPath(cmd)
    ensures var r := Step(m, cmd, bind);
      && (q in r.instances <==> q in m.instances)
      && (q in m.instances ==> r.instances[q] == m.instances[q])
  {
  }

  /** Every command keeps the table consistent; in particular every entry keeps at least one watcher. */
  lemma StepConsistent(m: Manager, cmd: WebCmd, bind: Bind)
    requires Consistent(m)
    ensures Consistent(Step(m, cmd, bind))
  {
    match cmd
    case AcquireServer(a) => AcquireConsistent(m, a, bind);
    case ReleaseServer(rel) => ReleaseConsistent(m, rel.path);
  }

  lemma AcquireConsistent(m: Manager, a: Acquire, bind: Bind)
    requires Consistent(m)
    ensures Consistent(AcquireStep(m, a, bind))
  {
    var r := AcquireStep(m, a, bind);
    if a.path !in m.instances && bind.Bound? {
      forall t | 0 <= t < |r.tasks| && !r.tasks[t].signalled
        ensures r.tasks[t].path in r.instances && r.instances[r.tasks[t].path].shutdown == t
      {
        if t < |m.tasks| {
          assert r.tasks[t] == m.tasks[t];
          assert m.tasks[t].path != a.path;
        }
      }
    }
  }

  lemma ReleaseConsistent(m: Manager, p: string)
    requires Consistent(m)
    ensures Consistent(ReleaseStep(m, p))
  {
    if p in m.instances && m.instances[p].watchers <= 1 {
      LastReleaseConsistent(m, p);
    }
  }

  /** Removing the last watcher's entry and signalling its task keeps the table consistent. */
  lemma LastReleaseConsistent(m: Manager, p: string)
    requires Consistent(m) && p in m.instances && m.instances[p].watchers <= 1
    ensures Consistent(ReleaseStep(m, p))
  {
    var r := ReleaseStep(m, p);
    var s := m.instances[p].shutdown;
    assert r.instances == m.instances - {p} && r.tasks == Signal(m.tasks, s);
    forall q | q in r.instances ensures Live(r, q) {
      assert m.instances[q].shutdown != s;
    }
    forall t | 0 <= t < |r.tasks| && !r.tasks[t].signalled
      ensures r.tasks[t].path in r.instances && r.instances[r.tasks[t].path].shutdown == t
    {
      assert t != s;
      assert r.tasks[t] == m.tasks[t];
    }
  }

  lemma {:induction false} RunConsistent(m: Manager, cmds: seq<WebCmd>, binds: seq<Bind>)
    requires Consistent(m) && |binds| == |cmds|
    ensures Consistent(Run(m, cmds, binds))
    decreases |cmds|
  {
    if cmds != [] {
      var n := |cmds| - 1;
      RunConsistent(m, cmds[..n], binds[..n]);
      StepConsistent(Run(m, cmds[..n], binds[..n]), cmds[n], binds[n]);
    }
  }

  /** The last command of a queue is handled after all the others. */
  lemma RunSnoc(m: Manager, cmds: seq<WebCmd>, binds: seq<Bind>, c: WebCmd, b: Bind)
    requires |binds| == |cmds|
    ensures Run(m, cmds + [c], binds + [b]) == Step(Run(m, cmds, binds), c, b)
  {
    assert (cmds + [c])[..|cmds|] == cmds;
    assert (binds + [b])[..|binds|] == binds;
  }

  /** Running two queues one after the other is running their concatenation. */
  lemma {:induction false} RunAppend(m: Manager, c1: seq<WebCmd>, b1: seq<Bind>, c2: seq<WebCmd>, b2: seq<Bind>)
    requires |b1| == |c1| && |b2| == |c2|
    ensures Run(m, c1 + c2, b1 + b2) == Run(Run(m, c1, b1), c2, b2)
    decreases |c2|
  {
    if c2 == [] {
      assert c1 + c2 == c1 && b1 + b2 == b1;
    } else {
      var n := |c2| - 1;
      assert c1 + c2 == (c1 + c2[..n]) + [c2[n]];
      assert b1 + b2 == (b1 + b2[..n]) + [b2[n]];
      assert c2 == c2[..n] + [c2[n]];
      assert b2 == b2[..n] + [b2[n]];
      RunSnoc(m, c1 + c2[..n], b1 + b2[..n], c2[n], b2[n]);
      RunSnoc(Run(m, c1, b1), c2[..n], b2[..n], c2[n], b2[n]);
      RunAppend(m, c1, b1, c2[..n], b2[..n]);
    }
  }

  /**
   * N acquires of a new path, the first of which binds: one task is spawned,
   * the entry has N watchers and the first url, and N replies carry that url.
   */
  lemma {:induction false} AcquireMany(m: Manager, a: Acquire, n: nat, binds: seq<Bind>)
    requires a.path !in m.instances
    requires n >= 1 && |binds| == n && binds[0].Bound?
    ensures var r := Run(m, Acquires(a, n), binds);
      var url := Url(binds[0].port);
      && r.instances == m.instances[a.path := Instance(url, n, |m.tasks|)]
      && r.tasks == m.tasks + [Task(a.path, false)]
      && r.sent == m.sent + seq(n, _ => Webview(url, Some(a.path), a.connector))
    decreases n
  {
    var url := Url(binds[0].port);
    var reply := Webview(url, Some(a.path), a.connector);
    if n == 1 {
      assert Acquires(a, 1)[..0] == [];
      assert seq(1, _ => reply) == [reply];
    } else {
      assert Acquires(a, n)[..n - 1] == Acquires(a, n - 1);
      AcquireMany(m, a, n - 1, binds[..n - 1]);
      assert seq(n - 1, _ => reply) + [reply] == seq(n, _ => reply);
    }
  }

  /** Fewer releases than watchers only count the watchers down. */
  lemma {:induction false} ReleaseFewer(m: Manager, p: string, k: nat, binds: seq<Bind>)
    requires p in m.instances && k < m.instances[p].watchers && |binds| == k
    ensures var inst := m.instances[p];
      Run(m, Releases(p, k), binds) == m.(instances := m.instances[p := inst.(watchers := inst.watchers - k)])
    decreases k
  {
    var inst := m.instances[p];
    if k == 0 {
      assert m.instances[p := inst] == m.instances;
    } else {
      assert Releases(p, k)[..k - 1] == Releases(p, k - 1);
      ReleaseFewer(m, p, k - 1, binds[..k - 1]);
    }
  }

  /** As many releases as watchers remove the entry and fire its shutdown; nothing is sent. */
  lemma ReleaseAll(m: Manager, p: string, binds: seq<Bind>)
    requires p in m.instances && m.instances[p].watchers >= 1 && |binds| == m.instances[p].watchers
    ensures var r := Run(m, Releases(p, |binds|), binds);
      && r.instances == m.instances - {p}
      && r.tasks == Signal(m.tasks, m.instances[p].shutdown)
      && r.sent == m.sent
  {
    var n := |binds|;
    assert Releases(p, n)[..n - 1] == Releases(p, n - 1);
    ReleaseFewer(m, p, n - 1, binds[..n - 1]);
    var inst := m.instances[p];
    assert m.instances[p := inst.(watchers := 1)] - {p} == m.instances - {p};
  }

  /**
   * N acquires of a new path then N releases of it: the table is as before,
   * exactly one task was spawned for the path and its shutdown was fired, and
   * a further release changes nothing.
   */
  lemma AcquireReleaseRoundTrip(m: Manager, a: Acquire, n: nat, binds: seq<Bind>)
    requires a.path !in m.instances
    requires n >= 1 && |binds| == 2 * n && binds[0].Bound?
    ensures var r := Run(m, Acquires(a, n) + Releases(a.path, n), binds);
      && r.instances == m.instances
      && r.tasks == m.tasks + [Task(a.path, true)]
      && |r.sent| == |m.sent| + n
      && ReleaseStep(r, a.path) == r
  {
    RunAppend(m, Acquires(a, n), binds[..n], Releases(a.path, n), binds[n..]);
    assert binds[..n] + binds[n..] == binds;
    AcquireMany(m, a, n, binds[..n]);
    var mid := Run(m, Acquires(a, n), binds[..n]);
    ReleaseAll(mid, a.path, binds[n..]);
    assert m.instances[a.path := Instance(Url(binds[0].port), n, |m.tasks|)] - {a.path} == m.instances;
    assert Signal(m.tasks + [Task(a.path, false)], |m.tasks|) == m.tasks + [Task(a.path, true)];
  }

  /** The manager task: the table it owns and what it has done so far. */
  class WebManager {
    var instances: map<string, Instance>
    var tasks: seq<Task>
    var sent: seq<Webview>

    function State(): Manager
      reads this
    {
      Manager(instances, tasks, sent)
    }

    ghost predicate Valid()
      reads this
    {
      Consistent(State())
    }

    /** `HashMap::new()` before the loop starts (webserver.rs:27). */
    constructor ()
      ensures Valid() && State() == Start
    {
      instances := map[];
      tasks := [];
      sent := [];
    }

    method HandleAcquire(a: Acquire, bind: Bind)
      requires Valid()
      modifies this
      ensures Valid()
      ensures State() == AcquireStep(old(State()), a, bind)
    {
      if a.path in instances {
        AddWatcher(a, bind);
        return;
      }
      match bind {
        case BindFailed =>
        case LocalAddrFailed =>
        case Bound(port) => StartServer(a, port);
      }
    }

    /** A path already served: one more watcher, and the existing URL sent back. */
    method AddWatcher(a: Acquire, bind: Bind)
      requires Valid() && a.path in instances
      modifies this
      ensures Valid()
      ensures State() == AcquireStep(old(State()), a, bind)
    {
      ghost var m := State();
      var inst := instances[a.path];
      instances := instances[a.path := inst.(watchers := inst.watchers + 1)];
      sent := sent + [Webview(inst.url, Some(a.path), a.connector)];
      StepConsistent(m, AcquireServer(a), bind);
    }

    /** A new path bound to `port`: its server task is spawned and its URL sent back. */
    method StartServer(a: Acquire, port: Port)
      requires Valid() && a.path !in instances
      modifies this
      ensures Valid()
      ensures State() == AcquireStep(old(State()), a, Bound(port))
    {
      ghost var m := State();
      var url := Url(port);
      tasks := tasks + [Task(a.path, false)];
      instances := instances[a.path := Instance(url, 1, |tasks| - 1)];
      sent := sent + [Webview(url, Some(a.path), a.connector)];
      StepConsistent(m, AcquireServer(a), Bound(port));
    }

    method HandleRelease(rel: Release)
      requires Valid()
      modifies this
      ensures Valid()
      ensures State() == ReleaseStep(old(State()), rel.path)
    {
      var shouldShutdown := false;
      if rel.path in instances {
        var inst := instances[rel.path];
        if inst.watchers > 1 {
          instances := instances[rel.path := inst.(watchers := inst.watchers - 1)];
        } else {
          shouldShutdown := true;
        }
      }
      StepConsistent(old(State()), ReleaseServer(rel), BindFailed);
      if !shouldShutdown {
        return;
      }
      if rel.path in instances {
        var inst := instances[rel.path];
        instances := instances - {rel.path};
        if inst.shutdown < |tasks| {
          tasks := tasks[inst.shutdown := tasks[inst.shutdown].(signalled := true)];
        }
      }
    }

    method Handle(cmd: WebCmd, bind: Bind)
      requires Valid()
      modifies this
      ensures Valid()
      ensures State() == Step(old(State()), cmd, bind)
    {
      match cmd {
        case AcquireServer(a) => HandleAcquire(a, bind);
        case ReleaseServer(rel) => HandleRelease(rel);
      }
    }

    /** `while let Some(cmd) = rx.recv().await`: every queued command, in order. */
    method Serve(cmds: seq<WebCmd>, binds: seq<Bind>)
      requires Valid() && |binds| == |cmds|
      modifies this
      ensures Valid()
      ensures State() == Run(old(State()), cmds, binds)
    {
      var i := 0;
      while i < |cmds|
        invariant 0 <= i <= |cmds|
        invariant Valid()
        invariant State() == Run(old(State()), cmds[..i], binds[..i])
      {
        Handle(cmds[i], binds[i]);
        assert cmds[..i + 1][..i] == cmds[..i];
        assert binds[..i + 1][..i] == binds[..i];
        i := i + 1;
      }
      assert cmds[..i] == cmds && binds[..i] == binds;
    }
  }
}
