/** Whose credentials are sent: in every run each attempt is made for the network it is booked on. */
module Credentials {
  import opened WifiTypes
  import opened RetrySpec
  import opened RetryBound
  import opened RetryPhases
  import opened Roaming
  import RetrySync

  /**
   * An attempt belongs to a configured network and sends its password. Hidden networks are probed without BSSID and
   * channel, fast connect uses the configuration as it is, and no attempt is made while the adapter restarts.
   */
  predicate Configured(cfg: Config, a: Attempt) {
    0 <= a.index < |cfg.sta| && a.params.password == cfg.sta[a.index].password &&
    match a.phase
    case InitialConnect => true
    case FastConnectCyclingAps => a.params == cfg.sta[a.index]
    case ExplicitHidden => a.params == Probe(cfg.sta[a.index])
    case ScanConnecting => true
    case RetryHidden => a.params == Probe(cfg.sta[a.index])
    case RestartingAdapter => false
  }

  /** The step makes no attempt, or one, and that is a configured one. */
  predicate Extends(cfg: Config, s: State, t: State) {
    t.attempts == s.attempts ||
    (t.attempts != [] && t.attempts == s.attempts + [t.attempts[|t.attempts| - 1]] &&
     Configured(cfg, t.attempts[|t.attempts| - 1]))
  }

  lemma AttemptExtends(cfg: Config, s: State, u: State, params: Ap, env: Env)
    requires u.attempts == s.attempts && Configured(cfg, Attempt(u.phase, u.selected, params))
    ensures Extends(cfg, s, StartConnecting(u, params, env))
  {
    assert StartConnecting(u, params, env).attempts == s.attempts + [Attempt(u.phase, u.selected, params)];
  }

  lemma BuildIsConfigured(cfg: Config, s: State)
    requires HasSelected(cfg, s) && s.phase != RestartingAdapter
    ensures Configured(cfg, Attempt(s.phase, s.selected, BuildParams(cfg, s)))
  {
  }

  lemma ConnectExtends(cfg: Config, s: State, u: State, env: Env)
    requires u.attempts == s.attempts && HasSelected(cfg, u) && u.phase != RestartingAdapter
    ensures Extends(cfg, s, Connect(cfg, u, env))
  {
    BuildIsConfigured(cfg, u);
    AttemptExtends(cfg, s, u, BuildParams(cfg, u), env);
  }

  lemma DestinationIsNoRestart(cfg: Config, s: State, env: Env)
    requires !TransitionToPhase(cfg, s, DetermineNextPhase(cfg, s, env), env).1
    ensures RetrySync.Destination(cfg, s, env).attempts == s.attempts
    ensures RetrySync.Destination(cfg, s, env).phase != RestartingAdapter
  {
    var next := DetermineNextPhase(cfg, s, env);
    RetrySync.TransitionShape(cfg, s, next, env);
    RetrySync.AdvanceShape(cfg, s);
    assert s.phase == RestartingAdapter ==> next != RestartingAdapter;
  }

  lemma MoveOnExtends(cfg: Config, s: State, env: Env)
    requires cfg.Valid() && Inv(cfg, s) && MayFail(s)
    ensures Extends(cfg, s, MoveOn(cfg, s, env))
  {
    MoveOnBurnsFuel(cfg, s, env);
    RetrySync.MoveOnCases(cfg, s, env);
    var t := RetrySync.Destination(cfg, s, env);
    RetrySync.TransitionShape(cfg, s, DetermineNextPhase(cfg, s, env), env);
    if !TransitionToPhase(cfg, s, DetermineNextPhase(cfg, s, env), env).1 {
      DestinationIsNoRestart(cfg, s, env);
      if t.selected >= 0 {
        assert Connect(cfg, t, env).selected == t.selected;
        ConnectExtends(cfg, s, t, env);
      }
    }
  }

  lemma RetryExtends(cfg: Config, s: State, env: Env)
    requires cfg.Valid() && Inv(cfg, s) && MayFail(s)
    ensures Extends(cfg, s, RetryConnect(cfg, s, env))
  {
    var p := Penalise(cfg, s);
    assert p == s.(priorities := p.priorities);
    MoveOnExtends(cfg, p, env);
  }

  lemma ScanExtends(cfg: Config, s: State, env: Env)
    requires s.scan != [] && s.selected < |cfg.sta|
    ensures Extends(cfg, s, ScanFinished(cfg, s, env))
  {
    var b := Marked(cfg, s, env);
    ScanFinishedCases(cfg, s, env);
    if FoundMatch(cfg, b) {
      MatchExtends(cfg, b.(selected := FirstOwner(b.scan[0], cfg.sta)), env);
    } else {
      NoMatchExtends(cfg, b, env);
    }
  }

  lemma MatchExtends(cfg: Config, b: State, env: Env)
    requires HasSelected(cfg, b)
    ensures
      var (t, waits) := TransitionToPhase(cfg, b, ScanConnecting, env);
      Extends(cfg, b, if waits then t else Connect(cfg, t, env))
  {
    var (t, waits) := TransitionToPhase(cfg, b, ScanConnecting, env);
    RetrySync.TransitionShape(cfg, b, ScanConnecting, env);
    if !waits {
      ConnectExtends(cfg, b, t, env);
    }
  }

  lemma NoMatchExtends(cfg: Config, b: State, env: Env)
    requires b.selected < |cfg.sta|
    ensures
      var t := TransitionToPhase(cfg, b, RetryHidden, env).0;
      Extends(cfg, b, if t.selected == -1 then t else Connect(cfg, t, env))
  {
    var t := TransitionToPhase(cfg, b, RetryHidden, env).0;
    RetrySync.TransitionShape(cfg, b, RetryHidden, env);
    if HasSelected(cfg, t) {
      ConnectExtends(cfg, b, t, env);
    }
  }

  lemma StartExtends(cfg: Config, s: State, loaded: bool, saved: Saved, env: Env)
    requires cfg.Valid()
    ensures Extends(cfg, s, StartUp(cfg, s, loaded, saved, env))
  {
    var a := if loaded then s.(selected := 0) else s;
    var b := TransitionToPhase(cfg, a, InitialConnect, env).0;
    RetrySync.TransitionShape(cfg, a, InitialConnect, env);
    ConnectExtends(cfg, s, b.(selected := 0), env);
    ConnectExtends(cfg, s, b.(selected := 0, phase := ExplicitHidden), env);
    if saved.SavedAp? && saved.index < |cfg.sta| {
      AttemptExtends(cfg, s, b.(selected := saved.index), SavedParams(cfg, saved), env);
    }
  }

  /** A roaming scan read in the event led to a target with the password of the selected network, if to any. */
  predicate RoamsWithin(cfg: Config, s: State, ev: Event) {
    ev.RoamScanRead? && ev.target.TheAp? ==>
      HasSelected(cfg, s) && ev.target.ap.password == cfg.sta[s.selected].password
  }

  lemma TickExtends(cfg: Config, s: State, ev: Event)
    requires cfg.Valid() && Inv(cfg, s) && ev.Tick?
    ensures Extends(cfg, s, Step(cfg, s, ev))
  {
    if Retries(s, ev) {
      StepRetries(cfg, s, ev);
      RetryExtends(cfg, Failing(s, ev.env), ev.env);
    } else if s.link == Scanning && s.scanDone {
      ScanExtends(cfg, s, ev.env);
    }
  }

  lemma StepExtends(cfg: Config, s: State, ev: Event)
    requires cfg.Valid() && Inv(cfg, s) && RoamsWithin(cfg, s, ev)
    ensures Extends(cfg, s, Step(cfg, s, ev))
  {
    match ev
    case Tick(_, _, _, _, _) => TickExtends(cfg, s, ev);
    case Enabled(loaded, saved, env) => StartExtends(cfg, s, loaded, saved, env);
    case RoamScanRead(target, env) =>
      if s.link == Connected && s.scanDone && target.TheAp? {
        AttemptExtends(cfg, s, s.(scanDone := false, scan := []), target.ap, env);
      }
    case _ =>
  }

  lemma TargetIsSelected(cfg: Config, w: Whole, pass: Pass)
    ensures
      var target := Roaming.Target(cfg, w, pass);
      target.TheAp? ==> HasSelected(cfg, w.retry) && target.ap.password == cfg.sta[w.retry.selected].password
  {
    var selected := Selected(cfg, w.retry);
    if selected.TheAp? {
      assert selected == TheAp(cfg.sta[w.retry.selected]);
    }
  }

  lemma RoamingStaysWithin(cfg: Config, enabled: bool, w: Whole, h: Happening)
    requires Proper(h) && Seen(cfg, enabled, w, h) != []
    ensures RoamsWithin(cfg, w.retry, Seen(cfg, enabled, w, h)[0])
  {
    if h.Passes? {
      TargetIsSelected(cfg, w, h.pass);
    }
  }

  /** Every event makes at most one attempt, a configured one. */
  lemma ProceedExtends(cfg: Config, enabled: bool, w: Whole, h: Happening)
    requires cfg.Valid() && Inv(cfg, w.retry) && Proper(h)
    ensures Extends(cfg, w.retry, Proceed(cfg, enabled, w, h).retry)
  {
    SeenIsStep(cfg, enabled, w, h);
    var evs := Seen(cfg, enabled, w, h);
    if evs != [] {
      RoamingStaysWithin(cfg, enabled, w, h);
      StepExtends(cfg, w.retry, evs[0]);
    }
  }

  /** In every run, roaming included, all attempts are configured ones: no password goes with another's index. */
  lemma {:induction false} AttemptsAreConfigured(cfg: Config, enabled: bool, hs: seq<Happening>)
    requires cfg.Valid() && forall i :: 0 <= i < |hs| ==> Proper(hs[i])
    ensures forall a :: a in CourseOf(cfg, enabled, IDLE, hs).w.retry.attempts ==> Configured(cfg, a)
  {
    if hs != [] {
      var n := |hs| - 1;
      AttemptsAreConfigured(cfg, enabled, hs[..n]);
      var evs := ReconnectRunsInside(cfg, enabled, hs[..n]);
      ProceedExtends(cfg, enabled, CourseOf(cfg, enabled, IDLE, hs[..n]).w, hs[n]);
    }
  }
}
