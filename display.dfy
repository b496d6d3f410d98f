/**
 * The display side: one wallpaper instance per monitor, each remembering the
 * served path it shows, and the receive loop that applies webview commands.
 *
 * What an instance does to the outside world is recorded as effects, in
 * order: a release sent back towards the web manager, or a url loaded into
 * instance `i`'s webview.
 */
module Display {
  import opened Wrappers
  import opened Events

  /** A monitor's window: its connector name and the served path it currently shows. */
  datatype DisplayInstance = DisplayInstance(connector: string, wallpaperPath: Option<string>)

  datatype UiEffect = SendRelease(release: Release) | LoadUri(instance: nat, url: string)

  datatype Screens = Screens(instances: seq<DisplayInstance>, effects: seq<UiEffect>)

  /** The instances built at start-up: the connector or "" when the monitor reports none, and no path yet. */
  function Initial(monitors: seq<Option<string>>): (r: seq<DisplayInstance>)
    ensures |r| == |monitors|
    ensures forall i :: 0 <= i < |r| ==> r[i].wallpaperPath.None?
    ensures forall i :: 0 <= i < |r| ==> (monitors[i].Some? ==> r[i].connector == monitors[i].value)
    ensures forall i :: 0 <= i < |r| ==> (monitors[i].None? ==> r[i].connector == "")
  {
    seq(|monitors|, i requires 0 <= i < |monitors| => DisplayInstance(monitors[i].GetOr(""), None))
  }

  /** Every instance now shows `path`; nothing else about it changes. */
  function Retarget(insts: seq<DisplayInstance>, path: Option<string>): (r: seq<DisplayInstance>)
    ensures |r| == |insts|
    ensures forall i :: 0 <= i < |r| ==> r[i].connector == insts[i].connector && r[i].wallpaperPath == path
  {
    seq(|insts|, i requires 0 <= i < |insts| => insts[i].(wallpaperPath := path))
  }

  /** What broadcasting `url` does at instance `i` that showed `held`: release it if any, then load. */
  function InstanceEffects(held: Option<string>, i: nat, url: string): seq<UiEffect> {
    (if held.Some? then [SendRelease(Release(held.value))] else []) + [LoadUri(i, url)]
  }

  /** The effects of a broadcast over the instances, in instance order. */
  function BroadcastEffects(insts: seq<DisplayInstance>, url: string): seq<UiEffect>
    decreases |insts|
  {
    if insts == [] then []
    else
      var n := |insts| - 1;
      BroadcastEffects(insts[..n], url) + InstanceEffects(insts[n].wallpaperPath, n, url)
  }

  /** One `UiCmd::SetWebview`: a targeted command is not acted on; an untargeted one is broadcast. */
  function Apply(s: Screens, w: Webview): (r: Screens)
    ensures w.monitor.Some? ==> r == s
    ensures w.monitor.None? ==>
      && r.instances == Retarget(s.instances, w.path)
      && r.effects == s.effects + BroadcastEffects(s.instances, w.url)
  {
    if w.monitor.Some? then s
    else Screens(Retarget(s.instances, w.path), s.effects + BroadcastEffects(s.instances, w.url))
  }

  /** The receive loop over every queued command. */
  function ApplyAll(s: Screens, cmds: seq<UiCmd>): Screens
    decreases |cmds|
  {
    if cmds == [] then s
    else Apply(ApplyAll(s, cmds[..|cmds| - 1]), cmds[|cmds| - 1].webview)
  }

  /** The served paths the instances hold, in instance order. */
  function HeldPaths(insts: seq<DisplayInstance>): seq<string>
    decreases |insts|
  {
    if insts == [] then []
    else
      var n := |insts| - 1;
      HeldPaths(insts[..n]) + (if insts[n].wallpaperPath.Some? then [insts[n].wallpaperPath.value] else [])
  }

  /** The paths released by a run of effects, in order. */
  function Released(effects: seq<UiEffect>): seq<string>
    decreases |effects|
  {
    if effects == [] then []
    else
      var n := |effects| - 1;
      Released(effects[..n]) + (if effects[n].SendRelease? then [effects[n].release.path] else [])
  }

  /** The loads performed by a run of effects, in order. */
  function Loads(effects: seq<UiEffect>): seq<UiEffect>
    decreases |effects|
  {
    if effects == [] then []
    else
      var n := |effects| - 1;
      Loads(effects[..n]) + (if effects[n].LoadUri? then [effects[n]] else [])
  }

  /** The url loaded into instances 0 to n-1, in that order. */
  function LoadEach(n: nat, url: string): seq<UiEffect> {
    seq(n, i requires 0 <= i < n => LoadUri(i, url))
  }

  lemma {:induction false} ReleasedAppend(a: seq<UiEffect>, b: seq<UiEffect>)
    ensures Released(a + b) == Released(a) + Released(b)
    decreases |b|
  {
    if b == [] {
      assert a + b == a;
    } else {
      var n := |b| - 1;
      assert (a + b)[..|a| + n] == a + b[..n];
      ReleasedAppend(a, b[..n]);
    }
  }

  lemma {:induction false} LoadsAppend(a: seq<UiEffect>, b: seq<UiEffect>)
    ensures Loads(a + b) == Loads(a) + Loads(b)
    decreases |b|
  {
    if b == [] {
      assert a + b == a;
    } else {
      var n := |b| - 1;
      assert (a + b)[..|a| + n] == a + b[..n];
      LoadsAppend(a, b[..n]);
    }
  }

  /** A broadcast releases exactly the paths the instances held, in instance order, each once. */
  lemma {:induction false} BroadcastReleasesHeld(insts: seq<DisplayInstance>, url: string)
    ensures Released(BroadcastEffects(insts, url)) == HeldPaths(insts)
    decreases |insts|
  {
    if insts != [] {
      var n := |insts| - 1;
      BroadcastReleasesHeld(insts[..n], url);
      var held := insts[n].wallpaperPath;
      ReleasedAppend(BroadcastEffects(insts[..n], url), InstanceEffects(held, n, url));
      if held.Some? {
        ReleasedAppend([SendRelease(Release(held.value))], [LoadUri(n, url)]);
        assert Released([SendRelease(Release(held.value))]) == [held.value] by {
          assert [SendRelease(Release(held.value))][..0] == [];
        }
        assert Released([LoadUri(n, url)]) == [] by {
          assert [LoadUri(n, url)][..0] == [];
        }
      } else {
        assert InstanceEffects(held, n, url) == [LoadUri(n, url)];
        assert [LoadUri(n, url)][..0] == [];
      }
    }
  }

  /** One instance's effects hold exactly one load. */
  lemma InstanceLoads(held: Option<string>, n: nat, url: string)
    ensures Loads(InstanceEffects(held, n, url)) == [LoadUri(n, url)]
  {
    assert [LoadUri(n, url)][..0] == [];
    if held.Some? {
      LoadsAppend([SendRelease(Release(held.value))], [LoadUri(n, url)]);
      assert [SendRelease(Release(held.value))][..0] == [];
    } else {
      assert InstanceEffects(held, n, url) == [LoadUri(n, url)];
    }
  }

  /** A broadcast loads the url into every instance exactly once, in instance order. */
  lemma {:induction false} BroadcastLoadsAll(insts: seq<DisplayInstance>, url: string)
    ensures Loads(BroadcastEffects(insts, url)) == LoadEach(|insts|, url)
    decreases |insts|
  {
    if insts != [] {
      var n := |insts| - 1;
      BroadcastLoadsAll(insts[..n], url);
      LoadsAppend(BroadcastEffects(insts[..n], url), InstanceEffects(insts[n].wallpaperPath, n, url));
      InstanceLoads(insts[n].wallpaperPath, n, url);
      assert LoadEach(n, url) + [LoadUri(n, url)] == LoadEach(n + 1, url);
    }
  }

  /** The effects of the first `k` instances come first. */
  lemma {:induction false} BroadcastPrefix(insts: seq<DisplayInstance>, url: string, k: nat)
    requires k <= |insts|
    ensures BroadcastEffects(insts[..k], url) <= BroadcastEffects(insts, url)
    decreases |insts|
  {
    if k < |insts| {
      var n := |insts| - 1;
      assert insts[..n][..k] == insts[..k];
      BroadcastPrefix(insts[..n], url, k);
    } else {
      assert insts[..k] == insts;
    }
  }

  /** An instance that held a path releases it immediately before it loads the new url. */
  lemma ReleaseBeforeLoad(insts: seq<DisplayInstance>, url: string, i: nat)
    requires i < |insts| && insts[i].wallpaperPath.Some?
    ensures var e := BroadcastEffects(insts, url);
      var j := |BroadcastEffects(insts[..i], url)|;
      && j + 1 < |e|
      && e[j] == SendRelease(Release(insts[i].wallpaperPath.value))
      && e[j + 1] == LoadUri(i, url)
  {
    BroadcastPrefix(insts, url, i + 1);
    assert insts[..i + 1][..i] == insts[..i];
  }

  /** After a broadcast of `path`, every instance holds it, so the next broadcast releases it once per instance. */
  lemma {:induction false} HeldAfterRetarget(insts: seq<DisplayInstance>, path: Option<string>)
    ensures path.Some? ==> HeldPaths(Retarget(insts, path)) == seq(|insts|, _ => path.value)
    ensures path.None? ==> HeldPaths(Retarget(insts, path)) == []
    decreases |insts|
  {
    if insts != [] {
      var n := |insts| - 1;
      assert Retarget(insts, path)[..n] == Retarget(insts[..n], path);
      HeldAfterRetarget(insts[..n], path);
      if path.Some? {
        assert seq(n, _ => path.value) + [path.value] == seq(n + 1, _ => path.value);
      }
    }
  }

  /** The GTK side: the instance list and the effects performed so far. */
  class Registry {
    var instances: seq<DisplayInstance>
    var effects: seq<UiEffect>

    function State(): Screens
      reads this
    {
      Screens(instances, effects)
    }

    /** One instance per monitor, pushed in monitor order (main.rs:139-157). */
    constructor (monitors: seq<Option<string>>)
      ensures State() == Screens(Initial(monitors), [])
    {
      var built: seq<DisplayInstance> := [];
      var i := 0;
      while i < |monitors|
        invariant 0 <= i <= |monitors|
        invariant built == Initial(monitors[..i])
      {
        var connector := monitors[i].GetOr("");
        built := built + [DisplayInstance(connector, None)];
        i := i + 1;
      }
      assert monitors[..i] == monitors;
      instances := built;
      effects := [];
    }

    /** One `SetWebview` command: the broadcast loop over `&mut instances`. */
    method SetWebview(w: Webview)
      modifies this
      ensures State() == Apply(old(State()), w)
    {
      if w.monitor.Some? {
        return;
      }
      ghost var before := instances;
      var i := 0;
      while i < |instances|
        invariant 0 <= i <= |instances| == |before|
        invariant forall k :: 0 <= k < i ==> instances[k] == before[k].(wallpaperPath := w.path)
        invariant forall k :: i <= k < |before| ==> instances[k] == before[k]
        invariant effects == old(effects) + BroadcastEffects(before[..i], w.url)
      {
        var oldPath := instances[i].wallpaperPath;
        instances := instances[i := instances[i].(wallpaperPath := w.path)];
        if oldPath.Some? {
          effects := effects + [SendRelease(Release(oldPath.value))];
        }
        effects := effects + [LoadUri(i, w.url)];
        assert before[..i + 1][..i] == before[..i];
        i := i + 1;
      }
      assert before[..i] == before;
      assert instances == Retarget(before, w.path);
    }

    /** `while let Ok(event) = ui_rx.recv().await`: every command until the channel closes. */
    method Serve(cmds: seq<UiCmd>)
      modifies this
      ensures State() == ApplyAll(old(State()), cmds)
    {
      var k := 0;
      while k < |cmds|
        invariant 0 <= k <= |cmds|
        invariant State() == ApplyAll(old(State()), cmds[..k])
      {
        SetWebview(cmds[k].webview);
        assert cmds[..k + 1][..k] == cmds[..k];
        k := k + 1;
      }
      assert cmds[..k] == cmds;
    }
  }
}
