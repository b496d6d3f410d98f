/**
 * The daemon's parts composed: the web manager's replies go through the
 * router to the display, and the display's releases go back through the
 * router to the web manager.
 *
 * The case worked out here is one path acquired once and shown on every
 * monitor, then replaced by a second broadcast. Each monitor then releases
 * the path, so the web manager receives as many releases as there are
 * monitors for an entry watched once: the first removes the entry and shuts
 * its server down, and the others find no entry and change nothing.
 */
module Scenarios {
  import opened Wrappers
  import opened Events
  import opened WebServer
  import opened Display
  import opened Router

  /** Releases of a path that has no entry change nothing, however many there are. */
  lemma {:induction false} ReleasesOfAbsent(m: Manager, p: string, k: nat, binds: seq<Bind>)
    requires p !in m.instances && |binds| == k
    ensures Run(m, Releases(p, k), binds) == m
    decreases k
  {
    if k > 0 {
      assert Releases(p, k) == Releases(p, k - 1) + [ReleaseServer(Release(p))];
      assert binds == binds[..k - 1] + [binds[k - 1]];
      RunSnoc(m, Releases(p, k - 1), binds[..k - 1], ReleaseServer(Release(p)), binds[k - 1]);
      ReleasesOfAbsent(m, p, k - 1, binds[..k - 1]);
    }
  }

  /**
   * `k >= 1` releases of a path watched once: the first removes the entry and
   * fires its shutdown, and the remaining `k - 1` are no-ops.
   */
  lemma ReleasesOfSingleWatcher(m: Manager, p: string, k: nat, binds: seq<Bind>)
    requires p in m.instances && m.instances[p].watchers == 1
    requires k >= 1 && |binds| == k
    ensures var r := Run(m, Releases(p, k), binds);
      && r.instances == m.instances - {p}
      && r.tasks == Signal(m.tasks, m.instances[p].shutdown)
      && r.sent == m.sent
  {
    ReleaseAll(m, p, binds[..1]);
    var first := Run(m, Releases(p, 1), binds[..1]);
    ReleasesOfAbsent(first, p, k - 1, binds[1..]);
    assert Releases(p, 1) + Releases(p, k - 1) == Releases(p, k);
    assert binds[..1] + binds[1..] == binds;
    RunAppend(m, Releases(p, 1), binds[..1], Releases(p, k - 1), binds[1..]);
  }

  /** Fresh instances hold no path, so their first broadcast releases nothing. */
  lemma InitialHoldsNothing(monitors: seq<Option<string>>)
    ensures HeldPaths(Initial(monitors)) == []
  {
    var insts := Initial(monitors);
    assert Retarget(insts, None) == insts;
    HeldAfterRetarget(insts, None);
  }

  /** How the display's releases reach the router. */
  function ReleaseInputs(paths: seq<string>): seq<RouterInput> {
    seq(|paths|, i requires 0 <= i < |paths| => FromUi(Success(UiRelease(Release(paths[i])))))
  }

  /** The first acquire of `p` on a fresh manager: one entry, watched once, and the reply broadcast to every monitor. */
  lemma AcquireOnStart(p: string, port: Port)
    ensures AcquireStep(Start, Acquire(p, None), Bound(port))
         == Manager(map[p := Instance(Url(port), 1, 0)], [Task(p, false)], [Webview(Url(port), Some(p), None)])
  {
  }

  /**
   * Two broadcasts onto fresh screens, the first showing `p`: the first
   * releases nothing, the second releases `p` once per monitor.
   */
  lemma TwoBroadcasts(monitors: seq<Option<string>>, p: string, w1: Webview, w2: Webview)
    requires w1.monitor.None? && w1.path == Some(p) && w2.monitor.None?
    ensures var s1 := Apply(Screens(Initial(monitors), []), w1);
      var s2 := Apply(s1, w2);
      && Released(s1.effects) == []
      && Released(s2.effects[|s1.effects|..]) == seq(|monitors|, _ => p)
  {
    var insts := Initial(monitors);
    var s1 := Apply(Screens(insts, []), w1);
    assert Released(s1.effects) == [] by {
      InitialHoldsNothing(monitors);
      BroadcastReleasesHeld(insts, w1.url);
      assert s1.effects == BroadcastEffects(insts, w1.url);
    }
    var held := Retarget(insts, Some(p));
    var s2 := Apply(s1, w2);
    assert s2.effects[|s1.effects|..] == BroadcastEffects(held, w2.url);
    BroadcastReleasesHeld(held, w2.url);
    HeldAfterRetarget(insts, Some(p));
  }

  /** The router hands the web manager one release of `p` for each one the display sent. */
  lemma RoutedReleases(p: string, n: nat)
    ensures Forward(ReleaseInputs(seq(n, _ => p))) == Routed(Releases(p, n), [], Listening)
  {
    var rels := seq(n, _ => Release(p));
    assert ReleaseInputs(seq(n, _ => p)) == seq(|rels|, i requires 0 <= i < |rels| => FromUi(Success(UiRelease(rels[i]))));
    ForwardReleases(rels);
    assert seq(|rels|, i requires 0 <= i < |rels| => ReleaseServer(rels[i])) == Releases(p, n);
  }

  /**
   * One acquire of `p` by no particular monitor, shown on all `N` monitors,
   * then a second broadcast: the first broadcast releases nothing, the second
   * releases `p` once per monitor, the router hands the web manager `N`
   * releases of `p`, and after them the table is empty and the one server
   * for `p` has been shut down once. Every prefix of at least one of these
   * releases leaves that same state, the whole run included: the other
   * `N - 1` change nothing.
   */
  lemma BroadcastTwiceReleasesOnce(monitors: seq<Option<string>>, p: string, port: Port, w2: Webview, binds: seq<Bind>)
    requires |monitors| >= 1 && w2.monitor.None? && |binds| == |monitors|
    ensures var m1 := AcquireStep(Start, Acquire(p, None), Bound(port));
      var w1 := Webview(Url(port), Some(p), None);
      var s1 := Apply(Screens(Initial(monitors), []), w1);
      var s2 := Apply(s1, w2);
      var released := Released(s2.effects[|s1.effects|..]);
      var final := Manager(map[], [Task(p, true)], [w1]);
      && m1.sent == [w1]
      && Route(FromTokio(Some(FromWeb(w1)))) == ToUi(SetWebview(w1))
      && Released(s1.effects) == []
      && released == seq(|monitors|, _ => p)
      && Forward(ReleaseInputs(released)) == Routed(Releases(p, |monitors|), [], Listening)
      && forall k :: 1 <= k <= |monitors| ==> Run(m1, Releases(p, k), binds[..k]) == final
  {
    var n := |monitors|;
    var w1 := Webview(Url(port), Some(p), None);
    AcquireOnStart(p, port);
    var m1 := AcquireStep(Start, Acquire(p, None), Bound(port));
    TwoBroadcasts(monitors, p, w1, w2);
    RoutedReleases(p, n);
    EveryPrefixOfReleases(p, port, binds);
  }

  lemma EveryPrefixOfReleases(p: string, port: Port, binds: seq<Bind>)
    ensures forall k :: 1 <= k <= |binds| ==>
      Run(AcquireStep(Start, Acquire(p, None), Bound(port)), Releases(p, k), binds[..k])
        == Manager(map[], [Task(p, true)], [Webview(Url(port), Some(p), None)])
  {
    forall k | 1 <= k <= |binds|
      ensures Run(AcquireStep(Start, Acquire(p, None), Bound(port)), Releases(p, k), binds[..k])
           == Manager(map[], [Task(p, true)], [Webview(Url(port), Some(p), None)])
    {
      ReleasesAfterAcquire(p, port, k, binds[..k]);
    }
  }

  /** After that one acquire, any `k >= 1` releases of `p` empty the table and shut its server down once. */
  lemma ReleasesAfterAcquire(p: string, port: Port, k: nat, binds: seq<Bind>)
    requires k >= 1 && |binds| == k
    ensures Run(AcquireStep(Start, Acquire(p, None), Bound(port)), Releases(p, k), binds)
         == Manager(map[], [Task(p, true)], [Webview(Url(port), Some(p), None)])
  {
    AcquireOnStart(p, port);
    var m1 := AcquireStep(Start, Acquire(p, None), Bound(port));
    ReleasesOfSingleWatcher(m1, p, k, binds);
    assert Signal([Task(p, false)], 0) == [Task(p, true)];
    assert m1.instances - {p} == map[];
  }
}
