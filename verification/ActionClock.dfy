/** When a cooldown, a scan or an attempt began, and that none of them is given up before its time is over. */
module ActionClock {
  import opened Millis
  import opened WifiTypes
  import opened RetrySpec
  import opened RetryBound
  import opened Roaming
  import RetrySync

  const COOLDOWN_DURATION: nat := 500
  const COOLDOWN_WITH_AP_ACTIVE: nat := 30000
  const SCAN_TIMEOUT: nat := 31000
  const CONNECT_TIMEOUT: nat := 46000

  function CooldownDuration(env: Env): nat {
    if env.portal || env.improv then COOLDOWN_WITH_AP_ACTIVE else COOLDOWN_DURATION
  }

  /** A pass with what the clock says about the running action. */
  function Timed(pass: Pass, started: Reading, state: Link): Pass
    requires pass.tick.Tick?
  {
    var elapsed := Elapsed(pass.now, started);
    pass.(tick := pass.tick.(timedOut := elapsed > (if state == Scanning then SCAN_TIMEOUT else CONNECT_TIMEOUT),
                             quiet := elapsed > CooldownDuration(pass.tick.env)))
  }

  // ---- What begins ----

  /** The driver is asked to connect; if it refuses, the cooldown after that begins. */
  predicate AttemptBegins(s: State, t: State) { |t.attempts| > |s.attempts| }

  predicate RestartBegins(s: State, t: State) { t.phase == RestartingAdapter && s.phase != RestartingAdapter }

  /** A start scans, or SCAN_CONNECTING is entered without results that may be used. */
  predicate ScanBegins(s: State, t: State) {
    t.link == Scanning &&
    (|| s.link != Scanning
     || (t.phase == ScanConnecting && s.phase != ScanConnecting &&
         (s.scan == [] || s.phase == ExplicitHidden || s.phase == RetryHidden || s.phase == RestartingAdapter)))
  }

  predicate ActionBegins(s: State, t: State) { AttemptBegins(s, t) || RestartBegins(s, t) || ScanBegins(s, t) }

  /** The two states look the same to ActionBegins. */
  predicate SameAction(s: State, u: State) {
    && u.attempts == s.attempts && u.phase == s.phase && (u.link == Scanning <==> s.link == Scanning)
    && (u.scan == [] <==> s.scan == [])
  }

  lemma TransitionBegins(cfg: Config, s: State, next: Phase, env: Env)
    ensures
      var (t, waits) := TransitionToPhase(cfg, s, next, env);
      ActionBegins(s, t) == waits && (!waits ==> t.attempts == s.attempts && t.link == s.link)
  {
  }

  lemma ConnectBegins(cfg: Config, s: State, u: State, env: Env)
    requires u.attempts == s.attempts
    ensures ActionBegins(s, Connect(cfg, u, env))
  {
  }

  lemma AdvanceMovesOnly(cfg: Config, t: State)
    ensures Advance(cfg, t) == t.(selected := Advance(cfg, t).selected, numRetried := Advance(cfg, t).numRetried)
  {
  }

  /** A failure begins something unless there is nothing to try, and then it leaves the link as it is. */
  lemma MoveOnBegins(cfg: Config, s: State, env: Env)
    ensures
      var waits := TransitionToPhase(cfg, s, DetermineNextPhase(cfg, s, env), env).1;
      var t := MoveOn(cfg, s, env);
      && ActionBegins(s, t) == (waits || RetrySync.Destination(cfg, s, env).selected >= 0)
      && (!ActionBegins(s, t) ==> t.link == s.link && t.selected < 0)
  {
    var next := DetermineNextPhase(cfg, s, env);
    var (t, waits) := TransitionToPhase(cfg, s, next, env);
    TransitionBegins(cfg, s, next, env);
    if !waits {
      AdvanceMovesOnly(cfg, t);
      ConnectBegins(cfg, s, RetrySync.Destination(cfg, s, env), env);
    }
  }

  lemma SameBegins(s: State, u: State, t: State)
    requires SameAction(s, u)
    ensures ActionBegins(s, t) == ActionBegins(u, t)
  {
  }

  lemma RetryBegins(cfg: Config, s: State, env: Env)
    ensures
      var t := RetryConnect(cfg, s, env);
      !ActionBegins(s, t) ==> t.link == s.link && t.selected < 0
  {
    var p := Penalise(cfg, s);
    assert p == s.(priorities := p.priorities);
    MoveOnBegins(cfg, p, env);
    SameBegins(s, p, RetryConnect(cfg, s, env));
  }

  lemma MatchBegins(cfg: Config, s: State, b: State, env: Env)
    requires SameAction(s, b)
    ensures
      var (t, waits) := TransitionToPhase(cfg, b, ScanConnecting, env);
      ActionBegins(s, if waits then t else Connect(cfg, t, env))
  {
    var (t, waits) := TransitionToPhase(cfg, b, ScanConnecting, env);
    TransitionBegins(cfg, b, ScanConnecting, env);
    if waits { SameBegins(s, b, t); } else { ConnectBegins(cfg, s, t, env); }
  }

  lemma NoMatchBegins(cfg: Config, s: State, b: State, env: Env)
    requires SameAction(s, b) && b.link == s.link
    ensures
      var t := TransitionToPhase(cfg, b, RetryHidden, env).0;
      var u := if t.selected == -1 then t else Connect(cfg, t, env);
      ActionBegins(s, u) == (t.selected != -1) && (t.selected == -1 ==> u.link == s.link)
  {
    var t := TransitionToPhase(cfg, b, RetryHidden, env).0;
    TransitionBegins(cfg, b, RetryHidden, env);
    SameBegins(s, b, t);
    if t.selected != -1 { ConnectBegins(cfg, s, t, env); }
  }

  lemma ScanFinishedBegins(cfg: Config, s: State, env: Env)
    requires s.scan != []
    ensures !ActionBegins(s, ScanFinished(cfg, s, env)) ==> ScanFinished(cfg, s, env).link == s.link
  {
    var b := Marked(cfg, s, env);
    MarkedIsNotEmpty(cfg, s, env);
    ScanFinishedCases(cfg, s, env);
    MatchBegins(cfg, s, b.(selected := FirstOwner(b.scan[0], cfg.sta)), env);
    NoMatchBegins(cfg, s, b, env);
  }

  lemma FirstActionBegins(cfg: Config, s: State, b: State, saved: Saved, env: Env)
    requires s.link != Scanning && b.attempts == s.attempts
    ensures ActionBegins(s, Begin(cfg, b, saved, env))
  {
  }

  lemma StartBegins(cfg: Config, s: State, loaded: bool, saved: Saved, env: Env)
    requires s.link != Scanning
    ensures ActionBegins(s, StartUp(cfg, s, loaded, saved, env))
  {
    var u := if loaded then s.(selected := 0) else s;
    TransitionBegins(cfg, u, InitialConnect, env);
    FirstActionBegins(cfg, s, TransitionToPhase(cfg, u, InitialConnect, env).0, saved, env);
  }

  lemma PenaltyBeginsNothing(cfg: Config, s: State)
    ensures SameAction(s, Penalise(cfg, s))
  {
  }

  /** No link is taken up unnoticed: only a lost connection with nothing to try keeps the time of the last action. */
  lemma LinkChangesWithAction(cfg: Config, s: State, ev: Event)
    ensures
      var t := Step(cfg, s, ev);
      t.link != s.link && t.link != Off && t.link != Connected ==>
        ActionBegins(s, t) || (s.link == Connected && t.link == Connecting && t.selected < 0)
  {
    if Retries(s, ev) {
      var f := Failing(s, ev.env);
      assert Step(cfg, s, ev) == RetryConnect(cfg, f, ev.env);
      RetryBegins(cfg, f, ev.env);
      SameBegins(s, f, Step(cfg, s, ev));
    } else if ev.Tick? && s.link == Scanning && s.scanDone {
      ScanFinishedBegins(cfg, s, ev.env);
    } else if Starts(s, ev) {
      StartBegins(cfg, s, ev.loaded, ev.saved, ev.env);
    }
  }

  // ---- In true time ----

  /** The link that the pass finds, and how long after the action began it comes: what that allows and demands. */
  predicate InTime(cfg: Config, w: Whole, next: Whole, pass: Pass, waited: nat)
    requires pass.tick.Tick?
  {
    var env, status := pass.tick.env, pass.tick.status;
    var over := if env.portal || env.improv then 30000 else 500;
    match w.retry.link
    case Cooldown =>
      && (next != w ==> waited > over)
      && (over < waited < 0x1_0000_0000 && status != Up && status != InProgress ==>
            next.retry == RetryConnect(cfg, w.retry, env))
    case Scanning =>
      !w.retry.scanDone ==>
        && (next != w ==> waited > 31000)
        && (31000 < waited < 0x1_0000_0000 ==> next.retry == RetryConnect(cfg, w.retry, env))
    case Connecting =>
      status == InProgress && !w.retry.error ==>
        && (next != w ==> waited > 46000)
        && (46000 < waited < 0x1_0000_0000 ==> next.retry == RetryConnect(cfg, w.retry, env))
    case _ => true
  }

  /**
   * With the time at which the action began at hand, a pass leaves no cooldown before 500 ms are over, or 30 s with
   * the portal or provisioning active, and gives up no scan before 31 s and no attempt before 46 s; and it does so
   * once that time is over, unless the clock has wrapped in between.
   */
  lemma PassIsInTime(cfg: Config, enabled: bool, w: Whole, pass: Pass, begun: nat, now: nat)
    requires pass.tick.Tick? && pass.now == Shown(now) && begun <= now
    ensures InTime(cfg, w, LoopPass(cfg, enabled, w, Timed(pass, Shown(begun), w.retry.link)), pass, now - begun)
  {
    ElapsedAtMost(now, begun);
  }
}
