/** Looking for a better access point while connected, and why that cannot go on forever. */
module Roaming {
  import opened Millis
  import opened WifiTypes
  import opened RetrySpec
  import opened RetryBound

  const MAX_ATTEMPTS: nat := 3
  const CHECK_INTERVAL: nat := 300000
  const SCAN_GRACE_PERIOD: nat := 30000
  const GOOD_RSSI: Int8 := -49
  const RSSI_DISCONNECTED: Int8 := -127
  const MIN_IMPROVEMENT: Int8 := 10

  datatype RoamPhase = NotRoaming | RoamScan | RoamConnect | RoamReconnect

  /** A scan end of zero stands for "no scan", a target of zero for "no target". */
  datatype Roam = Roam(phase: RoamPhase, attempts: nat, lastCheck: Reading, scanEnd: Reading, target: Bssid)

  const CLEARED := Roam(NotRoaming, 0, 0, 0, 0)

  predicate InGrace(r: Roam, now: Reading) {
    r.scanEnd != 0 && Elapsed(now, r.scanEnd) < SCAN_GRACE_PERIOD
  }

  /** A failure while roaming keeps the attempts counted; an ordinary one clears them. */
  function OnRetry(r: Roam, now: Reading): Roam {
    match r.phase
    case RoamConnect => r.(phase := RoamReconnect)
    case RoamScan => r.(phase := RoamReconnect)
    case NotRoaming => if InGrace(r, now) then r.(phase := RoamReconnect) else CLEARED
    case RoamReconnect => r
  }

  predicate ReachedTarget(r: Roam, current: Bssid) { r.target != 0 && current == r.target }

  function OnConnected(r: Roam, now: Reading, current: Bssid): Roam {
    Roam(NotRoaming, if r.phase == RoamReconnect && !ReachedTarget(r, current) then r.attempts else 0, now, 0, 0)
  }

  /** Starts a scan unless the network is hidden or the signal good. */
  function Check(r: Roam, now: Reading, selected: MaybeAp, rssi: Int8, starts: bool): Roam {
    if selected.NoAp? || selected.ap.hidden then r.(attempts := MAX_ATTEMPTS)
    else
      var counted := r.(lastCheck := now, attempts := r.attempts + 1);
      if rssi > GOOD_RSSI then counted
      else counted.(phase := if starts then RoamScan else NotRoaming)
  }

  /** The check gets as far as asking the driver for a scan. */
  predicate AsksForScan(selected: MaybeAp, rssi: Int8) {
    selected.TheAp? && !selected.ap.hidden && rssi <= GOOD_RSSI
  }

  predicate CheckIsDue(r: Roam, now: Reading, enabled: bool, suppressed: bool) {
    && enabled && r.phase == NotRoaming && r.attempts < MAX_ATTEMPTS
    && Elapsed(now, r.lastCheck) >= CHECK_INTERVAL && !suppressed
  }

  // ---- Choosing the target ----

  predicate Other(r: ScanResult, ssid: string, current: Bssid) { r.ssid == ssid && r.bssid != current }

  /** Position of the strongest other access point of the same network, or -1. */
  function BestOther(scan: seq<ScanResult>, ssid: string, current: Bssid): (i: Index)
    ensures i < |scan|
  {
    if scan == [] then -1
    else
      var n := |scan| - 1;
      var best := BestOther(scan[..n], ssid, current);
      if Other(scan[n], ssid, current) && (best == -1 || scan[n].rssi > scan[best].rssi) then n else best
  }

  lemma {:induction false} BestOtherIsFirstStrongest(scan: seq<ScanResult>, ssid: string, current: Bssid)
    ensures
      var i := BestOther(scan, ssid, current);
      && (i >= 0 ==> scan[i].ssid == ssid && scan[i].bssid != current)
      && (forall k :: 0 <= k < |scan| && scan[k].ssid == ssid && scan[k].bssid != current ==>
            i >= 0 && scan[k].rssi <= scan[i].rssi)
      && (forall k :: 0 <= k < i && scan[k].ssid == ssid && scan[k].bssid != current ==> scan[k].rssi < scan[i].rssi)
  {
    if scan != [] {
      BestOtherIsFirstStrongest(scan[..|scan| - 1], ssid, current);
    }
  }

  /** A difference of signal strengths stored in eight bits. */
  function Narrow(d: int): Int8
    requires -256 < d < 256
  {
    if d > 127 then d - 256 else if d < -128 then d + 256 else d
  }

  function Improvement(scan: seq<ScanResult>, best: Index, rssi: Int8): Int8
    requires best < |scan|
  {
    if best == -1 then 0 else Narrow(scan[best].rssi - rssi)
  }

  /** Reads a finished roaming scan: the new roaming state, and the parameters to connect with if there is a target. */
  function ReadScan(r: Roam, now: Reading, rssi: Int8, ssid: string, current: Bssid, selected: MaybeAp,
                    scan: seq<ScanResult>): (Roam, MaybeAp)
  {
    var idle := r.(phase := NotRoaming, scanEnd := now);
    if rssi == RSSI_DISCONNECTED then (idle, NoAp)
    else
      var best := BestOther(scan, ssid, current);
      if selected.NoAp? || Improvement(scan, best, rssi) < MIN_IMPROVEMENT then (idle, NoAp)
      else (idle.(phase := RoamConnect, target := scan[best].bssid), TheAp(WithScan(selected.ap, scan[best])))
  }

  /** For real signal strengths a target is chosen exactly when some other access point is at least 10 dB stronger. */
  lemma RoamsExactlyForGain(r: Roam, now: Reading, rssi: Int8, ssid: string, current: Bssid, selected: MaybeAp,
                            scan: seq<ScanResult>)
    requires selected.TheAp? && -127 < rssi <= 0
    requires forall k :: 0 <= k < |scan| ==> scan[k].rssi <= 0
    ensures ReadScan(r, now, rssi, ssid, current, selected, scan).1.TheAp? <==>
            exists k :: 0 <= k < |scan| && scan[k].ssid == ssid && scan[k].bssid != current && scan[k].rssi >= rssi + 10
  {
    BestOtherIsFirstStrongest(scan, ssid, current);
    var best := BestOther(scan, ssid, current);
    if best >= 0 {
      assert Other(scan[best], ssid, current);
    }
  }

  // ---- Together with the reconnect machine ----

  datatype Whole = Whole(retry: State, roam: Roam)

  /** What one pass of the main loop sees besides what the reconnect machine sees. */
  datatype Pass = Pass(tick: Event, now: Reading, rssi: Int8, ssid: string, current: Bssid, suppressed: bool)

  function Selected(cfg: Config, s: State): MaybeAp {
    if HasSelected(cfg, s) then TheAp(cfg.sta[s.selected]) else NoAp
  }

  function CheckNow(cfg: Config, w: Whole, now: Reading, rssi: Int8, env: Env): Whole {
    var selected := Selected(cfg, w.retry);
    Whole(if AsksForScan(selected, rssi) then Step(cfg, w.retry, RoamScanStarted(env)) else w.retry,
          Check(w.roam, now, selected, rssi, env.scanStarts))
  }

  function ReadNow(cfg: Config, w: Whole, pass: Pass, env: Env): Whole {
    var (roam, target) := ReadScan(w.roam, pass.now, pass.rssi, pass.ssid, pass.current, Selected(cfg, w.retry),
                                   w.retry.scan);
    Whole(Step(cfg, w.retry, RoamScanRead(target, env)), roam)
  }

  predicate StaysConnected(s: State, ev: Event) { ev.Tick? && s.link == Connected && ev.status == Up && !s.error }

  /** One pass of the main loop; `enabled` is the configured post-connect roaming. */
  function LoopPass(cfg: Config, enabled: bool, w: Whole, pass: Pass): Whole {
    if StaysConnected(w.retry, pass.tick) then
      if w.roam.phase == RoamScan then
        if w.retry.scanDone then ReadNow(cfg, w, pass, pass.tick.env) else w
      else if CheckIsDue(w.roam, pass.now, enabled, pass.suppressed) then
        CheckNow(cfg, w, pass.now, pass.rssi, pass.tick.env)
      else w
    else
      Whole(Step(cfg, w.retry, pass.tick),
            if Retries(w.retry, pass.tick) then OnRetry(w.roam, pass.now)
            else if Succeeds(w.retry, pass.tick) then OnConnected(w.roam, pass.now, pass.current)
            else w.roam)
  }

  datatype Happening =
    | Passes(pass: Pass)
    | ScanArrives(results: seq<ScanResult>)
    | Disconnects
    | PortalStarts
    | Forced(status: Status, now: Reading, rssi: Int8, suppressed: bool, env: Env)
    | DriverRoams(now: Reading)
    | SwitchesOff
    | SwitchesOn(loaded: bool, saved: Saved, env: Env)
    /** New credentials are set; here, what that does to roaming. */
    | CredentialsSet

  predicate MayForce(w: Whole, h: Happening) {
    && h.Forced? && w.retry.link == Connected && h.status == Up && !w.retry.error
    && w.roam.phase == NotRoaming && !h.suppressed
  }

  function Proceed(cfg: Config, enabled: bool, w: Whole, h: Happening): Whole {
    match h
    case Passes(pass) => LoopPass(cfg, enabled, w, pass)
    case ScanArrives(results) => w.(retry := Step(cfg, w.retry, ScanArrived(results)))
    case Disconnects => w.(retry := Step(cfg, w.retry, Disconnected))
    case PortalStarts => w.(retry := Step(cfg, w.retry, PortalStarted))
    case Forced(_, now, rssi, _, env) =>
      if MayForce(w, h) then CheckNow(cfg, w.(roam := w.roam.(attempts := 0)), now, rssi, env) else w
    case DriverRoams(now) =>
      if w.retry.link != Connected then w
      else Whole(Step(cfg, w.retry, DriverRoamed), w.roam.(lastCheck := now, attempts := 0, scanEnd := 0))
    case SwitchesOff => w.(retry := Step(cfg, w.retry, Disabled))
    case SwitchesOn(loaded, saved, env) =>
      if w.retry.link != Off then w
      else Whole(Step(cfg, w.retry, Enabled(loaded, saved, env)), if loaded then CLEARED else w.roam)
    case CredentialsSet => w.(roam := CLEARED)
  }

  // ---- When a roaming scan starts, and what it leads to ----

  /** The selected network is there and can be seen in a scan. */
  predicate SelectedIsVisible(cfg: Config, s: State) { 0 <= s.selected < |cfg.sta| && !cfg.sta[s.selected].hidden }

  /**
   * A pass over an idle connection starts a roaming scan exactly if roaming is enabled and not suppressed, five
   * minutes have passed since the last check, fewer than three attempts are counted, the network is not hidden, the
   * signal is at most -49 dBm, and the driver starts the scan.
   */
  lemma PassScansExactly(cfg: Config, enabled: bool, w: Whole, pass: Pass)
    requires pass.tick.Tick? && w.retry.link == Connected && pass.tick.status == Up && !w.retry.error
    requires w.roam.phase == NotRoaming
    ensures
      var t := Proceed(cfg, enabled, w, Passes(pass));
      && (t.roam.phase == RoamScan <==>
            && enabled && !pass.suppressed && Elapsed(pass.now, w.roam.lastCheck) >= 300000 && w.roam.attempts < 3
            && SelectedIsVisible(cfg, w.retry) && pass.rssi <= -49 && pass.tick.env.scanStarts)
      && (t.roam.phase == RoamScan ==> t.retry.scanPending && !t.retry.scanDone)
      && (t.roam.phase == RoamScan || t.roam.phase == NotRoaming) && t.retry.link == Connected
  {
  }

  /**
   * Such a pass counts a check exactly if one is due for a visible network, however good the signal is; for a hidden
   * one it ends all checks.
   */
  lemma PassCountsExactly(cfg: Config, enabled: bool, w: Whole, pass: Pass)
    requires pass.tick.Tick? && w.retry.link == Connected && pass.tick.status == Up && !w.retry.error
    requires w.roam.phase == NotRoaming
    ensures
      var due := enabled && !pass.suppressed && Elapsed(pass.now, w.roam.lastCheck) >= 300000 && w.roam.attempts < 3;
      var t := Proceed(cfg, enabled, w, Passes(pass)).roam;
      if !due then t == w.roam
      else if SelectedIsVisible(cfg, w.retry) then
        t == w.roam.(phase := t.phase, lastCheck := pass.now, attempts := w.roam.attempts + 1)
      else t == w.roam.(attempts := 3)
  {
  }

  /** A forced check does the same whatever has been counted, and whenever the last check was. */
  lemma ForcedScansExactly(cfg: Config, enabled: bool, w: Whole, status: Status, now: Reading, rssi: Int8,
                           suppressed: bool, env: Env)
    requires w.roam.phase == NotRoaming
    ensures
      var t := Proceed(cfg, enabled, w, Forced(status, now, rssi, suppressed, env));
      && (t.roam.phase == RoamScan <==>
            && w.retry.link == Connected && status == Up && !w.retry.error && !suppressed
            && SelectedIsVisible(cfg, w.retry) && rssi <= -49 && env.scanStarts)
      && (t.roam.phase == RoamScan ==> t.retry.scanPending && !t.retry.scanDone && t.roam.attempts == 1)
  {
  }

  /** In true time: what the clock calls five minutes is at least that, and exactly that below 2^32 ms. */
  lemma CheckIsTimely(now: nat, last: nat)
    requires last <= now
    ensures Elapsed(Shown(now), Shown(last)) >= 300000 ==> now - last >= 300000
    ensures now - last < 0x1_0000_0000 ==> (Elapsed(Shown(now), Shown(last)) >= 300000 <==> now - last >= 300000)
  {
    ElapsedAtMost(now, last);
  }

  /**
   * A finished roaming scan leads to an attempt exactly if some other access point of the network is 10 dB stronger;
   * then at the strongest, with the configuration of the selected network.
   */
  lemma ReadRoamsExactly(cfg: Config, enabled: bool, w: Whole, pass: Pass)
    requires pass.tick.Tick? && w.retry.link == Connected && pass.tick.status == Up && !w.retry.error
    requires w.roam.phase == RoamScan && w.retry.scanDone && 0 <= w.retry.selected < |cfg.sta|
    requires -127 < pass.rssi <= 0 && forall k :: 0 <= k < |w.retry.scan| ==> w.retry.scan[k].rssi <= 0
    ensures
      var t := Proceed(cfg, enabled, w, Passes(pass));
      && (t.retry.attempts != w.retry.attempts <==>
            exists k :: 0 <= k < |w.retry.scan| && w.retry.scan[k].ssid == pass.ssid &&
                        w.retry.scan[k].bssid != pass.current && w.retry.scan[k].rssi >= pass.rssi + 10)
      && (t.retry.attempts == w.retry.attempts ==>
            t.retry.link == Connected && t.roam == w.roam.(phase := NotRoaming, scanEnd := pass.now))
      && t.retry.scan == [] && !t.retry.scanDone
  {
    RoamsExactlyForGain(w.roam, pass.now, pass.rssi, pass.ssid, pass.current, Selected(cfg, w.retry), w.retry.scan);
  }

  /** A signal of -127 dBm says that the station is not connected any more: no attempt then. */
  lemma NoSignalNoRoam(cfg: Config, enabled: bool, w: Whole, pass: Pass)
    requires pass.tick.Tick? && w.retry.link == Connected && pass.tick.status == Up && !w.retry.error
    requires w.roam.phase == RoamScan && w.retry.scanDone && pass.rssi == -127
    ensures Proceed(cfg, enabled, w, Passes(pass)).retry == w.retry.(scanDone := false, scan := [])
  {
  }

  /** Result `k` is another access point of the network that none of the others is stronger than. */
  predicate StrongestOther(scan: seq<ScanResult>, ssid: string, current: Bssid, k: nat)
    requires k < |scan|
  {
    && scan[k].ssid == ssid && scan[k].bssid != current
    && forall j :: 0 <= j < |scan| && scan[j].ssid == ssid && scan[j].bssid != current ==> scan[j].rssi <= scan[k].rssi
  }

  lemma RoamsToStrongest(cfg: Config, enabled: bool, w: Whole, pass: Pass) returns (k: nat)
    requires pass.tick.Tick? && w.retry.link == Connected && pass.tick.status == Up && !w.retry.error
    requires w.roam.phase == RoamScan && w.retry.scanDone
    requires Proceed(cfg, enabled, w, Passes(pass)).retry.attempts != w.retry.attempts
    ensures
      var t := Proceed(cfg, enabled, w, Passes(pass));
      && k < |w.retry.scan| && StrongestOther(w.retry.scan, pass.ssid, pass.current, k)
      && 0 <= w.retry.selected < |cfg.sta|
      && var r, ap := w.retry.scan[k], cfg.sta[w.retry.selected];
      && t.retry.attempts == w.retry.attempts +
           [Attempt(w.retry.phase, w.retry.selected,
                    ap.(hidden := false, ssid := r.ssid, bssid := r.bssid, channel := r.channel))]
      && t.roam == w.roam.(phase := RoamConnect, target := r.bssid, scanEnd := pass.now)
  {
    BestOtherIsFirstStrongest(w.retry.scan, pass.ssid, pass.current);
    var best := BestOther(w.retry.scan, pass.ssid, pass.current);
    k := best;
  }

  /**
   * A failure keeps the attempts that are counted exactly if a roam, a roaming scan or the reconnection after one was
   * under way, or a roaming scan ended less than 30 s before; otherwise all of roaming starts afresh.
   */
  lemma FailureKeepsAttemptsExactly(cfg: Config, enabled: bool, w: Whole, pass: Pass)
    requires pass.tick.Tick? && Retries(w.retry, pass.tick)
    ensures
      var t := Proceed(cfg, enabled, w, Passes(pass)).roam;
      if w.roam.phase != NotRoaming || (w.roam.scanEnd != 0 && Elapsed(pass.now, w.roam.scanEnd) < 30000)
      then t == w.roam.(phase := RoamReconnect)
      else t == Roam(NotRoaming, 0, 0, 0, 0)
  {
  }

  /** A connection keeps them exactly if it comes after a failed roam and is not to the target. */
  lemma ConnectionKeepsAttemptsExactly(cfg: Config, enabled: bool, w: Whole, pass: Pass)
    requires pass.tick.Tick? && Succeeds(w.retry, pass.tick) && w.retry.link != Connected
    ensures
      var t := Proceed(cfg, enabled, w, Passes(pass)).roam;
      var keeps := w.roam.phase == RoamReconnect && (w.roam.target == 0 || w.roam.target != pass.current);
      t == Roam(NotRoaming, if keeps then w.roam.attempts else 0, pass.now, 0, 0)
  {
  }

  /** Roaming is over once a connection is up, except for a scan; its attempts are bounded. */
  predicate Together(w: Whole) {
    && (w.retry.link == Connected ==> w.roam.phase == NotRoaming || w.roam.phase == RoamScan)
    && w.roam.attempts <= MAX_ATTEMPTS
  }

  /**
   * The events that may start a fresh series of roaming attempts: an ordinary failure, an ordinary connection, a
   * roam that reached its target, a forced check, a roam by the driver, new credentials, a start with loaded ones.
   */
  predicate Resets(w: Whole, h: Happening) {
    match h
    case Passes(pass) =>
      if StaysConnected(w.retry, pass.tick) then false
      else if Retries(w.retry, pass.tick) then w.roam.phase == NotRoaming && !InGrace(w.roam, pass.now)
      else Succeeds(w.retry, pass.tick) && (w.roam.phase != RoamReconnect || ReachedTarget(w.roam, pass.current))
    case Forced(_, _, _, _, _) => MayForce(w, h)
    case DriverRoams(_) => w.retry.link == Connected
    case SwitchesOn(loaded, _, _) => loaded && w.retry.link == Off
    case CredentialsSet => true
    case _ => false
  }

  predicate StartsScan(w: Whole, next: Whole) { w.roam.phase != RoamScan && next.roam.phase == RoamScan }

  function Score(w: Whole, next: Whole): nat { if StartsScan(w, next) then 1 else 0 }

  lemma TransitionLeavesConnection(cfg: Config, s: State, next: Phase, env: Env)
    requires s.link != Connected
    ensures TransitionToPhase(cfg, s, next, env).0.link != Connected
  {
  }

  lemma RetryLeavesConnection(cfg: Config, s: State, env: Env)
    requires s.link != Connected
    ensures RetryConnect(cfg, s, env).link != Connected
  {
    var p := Penalise(cfg, s);
    assert p.link == s.link;
    MoveOnLeavesConnection(cfg, p, env);
  }

  lemma MoveOnLeavesConnection(cfg: Config, s: State, env: Env)
    requires s.link != Connected
    ensures MoveOn(cfg, s, env).link != Connected
  {
    TransitionLeavesConnection(cfg, s, DetermineNextPhase(cfg, s, env), env);
  }

  lemma ScanLeavesConnection(cfg: Config, s: State, env: Env)
    requires s.link != Connected && s.scan != []
    ensures ScanFinished(cfg, s, env).link != Connected
  {
    var b := Marked(cfg, s, env);
    ScanFinishedCases(cfg, s, env);
    TransitionLeavesConnection(cfg, b, RetryHidden, env);
    TransitionLeavesConnection(cfg, b.(selected := FirstOwner(b.scan[0], cfg.sta)), ScanConnecting, env);
  }

  lemma StepIsRetry(cfg: Config, s: State, tick: Event)
    requires Retries(s, tick)
    ensures Step(cfg, s, tick) == RetryConnect(cfg, Failing(s, tick.env), tick.env) && Failing(s, tick.env).link != Connected
  {
  }

  /** A retry leaves every connection, and a finished step of the reconnect machine connects only on success. */
  lemma LinkAfterPass(cfg: Config, s: State, tick: Event)
    requires tick.Tick? && !StaysConnected(s, tick)
    ensures Step(cfg, s, tick).link == Connected ==> Succeeds(s, tick)
  {
    if Retries(s, tick) {
      StepIsRetry(cfg, s, tick);
      RetryLeavesConnection(cfg, Failing(s, tick.env), tick.env);
    } else if s.link == Scanning && s.scanDone {
      ScanLeavesConnection(cfg, s, tick.env);
    }
  }

  lemma BeginLeavesConnection(cfg: Config, b: State, saved: Saved, env: Env)
    ensures Begin(cfg, b, saved, env).link != Connected
  {
  }

  lemma StartLeavesConnection(cfg: Config, s: State, loaded: bool, saved: Saved, env: Env)
    ensures StartUp(cfg, s, loaded, saved, env).link != Connected
  {
    BeginLeavesConnection(cfg, TransitionToPhase(cfg, if loaded then s.(selected := 0) else s, InitialConnect, env).0,
                          saved, env);
  }

  /** What one event does to the number of attempts and of scans started. */
  predicate Counts(w: Whole, next: Whole, resets: bool) {
    && Together(next)
    && (StartsScan(w, next) ==> w.retry.link == Connected)
    && Score(w, next) <= next.roam.attempts
    && (!resets ==> w.roam.attempts + Score(w, next) <= next.roam.attempts)
  }

  lemma CheckCounts(cfg: Config, w: Whole, now: Reading, rssi: Int8, env: Env)
    requires Together(w) && w.retry.link == Connected && w.roam.phase == NotRoaming && w.roam.attempts < MAX_ATTEMPTS
    ensures Counts(w, CheckNow(cfg, w, now, rssi, env), false)
  {
  }

  lemma PassCounts(cfg: Config, enabled: bool, w: Whole, pass: Pass)
    requires Together(w) && pass.tick.Tick?
    ensures Counts(w, LoopPass(cfg, enabled, w, pass), Resets(w, Passes(pass)))
  {
    if StaysConnected(w.retry, pass.tick) {
      if w.roam.phase != RoamScan && CheckIsDue(w.roam, pass.now, enabled, pass.suppressed) {
        CheckCounts(cfg, w, pass.now, pass.rssi, pass.tick.env);
      }
    } else {
      LinkAfterPass(cfg, w.retry, pass.tick);
    }
  }

  predicate Proper(h: Happening) { h.Passes? ==> h.pass.tick.Tick? }

  lemma ProceedCounts(cfg: Config, enabled: bool, w: Whole, h: Happening)
    requires Together(w) && Proper(h)
    ensures Counts(w, Proceed(cfg, enabled, w, h), Resets(w, h))
  {
    match h
    case Passes(pass) => PassCounts(cfg, enabled, w, pass);
    case Forced(_, now, rssi, _, env) =>
      if MayForce(w, h) {
        CheckCounts(cfg, w.(roam := w.roam.(attempts := 0)), now, rssi, env);
      }
    case SwitchesOn(loaded, saved, env) =>
      if w.retry.link == Off { StartLeavesConnection(cfg, w.retry, loaded, saved, env); }
    case _ =>
  }

  // ---- Whole runs ----

  /** A run: where it ends, how many roaming scans it started, and how often attempts were reset. */
  datatype Course = Course(w: Whole, scans: nat, resets: nat)

  function CourseOf(cfg: Config, enabled: bool, start: Whole, hs: seq<Happening>): Course {
    if hs == [] then Course(start, 0, 0)
    else
      var c := CourseOf(cfg, enabled, start, hs[..|hs| - 1]);
      var h := hs[|hs| - 1];
      var next := Proceed(cfg, enabled, c.w, h);
      Course(next, c.scans + Score(c.w, next), c.resets + (if Resets(c.w, h) then 1 else 0))
  }

  /**
   * Roaming cannot ping-pong: whatever the mix of failed roams, lost scans and late disconnects, at most three
   * roaming scans start between two resets, and the attempts never exceed three.
   */
  lemma {:induction false} NoPingPong(cfg: Config, enabled: bool, start: Whole, hs: seq<Happening>)
    requires Together(start) && forall i :: 0 <= i < |hs| ==> Proper(hs[i])
    ensures
      var c := CourseOf(cfg, enabled, start, hs);
      && Together(c.w) && c.w.roam.attempts <= 3
      && start.roam.attempts + c.scans <= 3 * c.resets + c.w.roam.attempts
      && c.scans <= 3 * (c.resets + 1) - start.roam.attempts
  {
    if hs != [] {
      var n := |hs| - 1;
      NoPingPong(cfg, enabled, start, hs[..n]);
      ProceedCounts(cfg, enabled, CourseOf(cfg, enabled, start, hs[..n]).w, hs[n]);
    }
  }

  // ---- The reconnect machine inside ----

  /** What the reconnect machine sees of one event: nothing, or one event of its own. */
  function Seen(cfg: Config, enabled: bool, w: Whole, h: Happening): seq<Event> {
    match h
    case Passes(pass) =>
      if !StaysConnected(w.retry, pass.tick) then [pass.tick]
      else if w.roam.phase == RoamScan then
        if w.retry.scanDone then [RoamScanRead(Target(cfg, w, pass), pass.tick.env)] else []
      else if CheckIsDue(w.roam, pass.now, enabled, pass.suppressed) && AsksForScan(Selected(cfg, w.retry), pass.rssi) then
        [RoamScanStarted(pass.tick.env)]
      else []
    case ScanArrives(results) => [ScanArrived(results)]
    case Disconnects => [Disconnected]
    case PortalStarts => [PortalStarted]
    case Forced(_, _, rssi, _, env) =>
      if MayForce(w, h) && AsksForScan(Selected(cfg, w.retry), rssi) then [RoamScanStarted(env)] else []
    case DriverRoams(_) => [DriverRoamed]
    case SwitchesOff => [Disabled]
    case SwitchesOn(loaded, saved, env) => [Enabled(loaded, saved, env)]
    case CredentialsSet => []
  }

  function Target(cfg: Config, w: Whole, pass: Pass): MaybeAp {
    ReadScan(w.roam, pass.now, pass.rssi, pass.ssid, pass.current, Selected(cfg, w.retry), w.retry.scan).1
  }

  lemma SeenIsStep(cfg: Config, enabled: bool, w: Whole, h: Happening)
    requires Proper(h)
    ensures
      var evs := Seen(cfg, enabled, w, h);
      |evs| <= 1 && Proceed(cfg, enabled, w, h).retry == if evs == [] then w.retry else Step(cfg, w.retry, evs[0])
  {
  }

  lemma CheckKeepsInv(cfg: Config, w: Whole, now: Reading, rssi: Int8, env: Env)
    requires cfg.Valid() && Inv(cfg, w.retry)
    ensures Inv(cfg, CheckNow(cfg, w, now, rssi, env).retry)
  {
    StepKeepsInv(cfg, w.retry, RoamScanStarted(env));
  }

  /** Every event keeps what is known about both machines. */
  lemma ProceedKeepsInv(cfg: Config, enabled: bool, w: Whole, h: Happening)
    requires cfg.Valid() && Inv(cfg, w.retry) && Together(w) && Proper(h)
    ensures Inv(cfg, Proceed(cfg, enabled, w, h).retry) && Together(Proceed(cfg, enabled, w, h))
  {
    ProceedCounts(cfg, enabled, w, h);
    SeenIsStep(cfg, enabled, w, h);
    var evs := Seen(cfg, enabled, w, h);
    if evs != [] {
      StepKeepsInv(cfg, w.retry, evs[0]);
    }
  }

  /** Before the first start. */
  const IDLE := Whole(FRESH, CLEARED)

  /**
   * With roaming and everything else around it the reconnect machine still makes one of its runs, so all that is
   * proved about its runs holds here; in particular the selected index and the retry counter stay in range.
   */
  lemma {:induction false} ReconnectRunsInside(cfg: Config, enabled: bool, hs: seq<Happening>) returns (evs: seq<Event>)
    requires cfg.Valid() && forall i :: 0 <= i < |hs| ==> Proper(hs[i])
    ensures
      var s := CourseOf(cfg, enabled, IDLE, hs).w.retry;
      s == RunOf(cfg, evs).s && Inv(cfg, s) && -1 <= s.selected < |cfg.sta| <= 127 && s.numRetried <= 1
  {
    evs := [];
    if hs != [] {
      var n := |hs| - 1;
      evs := ReconnectRunsInside(cfg, enabled, hs[..n]);
      var w := CourseOf(cfg, enabled, IDLE, hs[..n]).w;
      SeenIsStep(cfg, enabled, w, hs[n]);
      var seen := Seen(cfg, enabled, w, hs[n]);
      if seen != [] {
        RunExtends(cfg, evs, seen[0]);
        evs := evs + [seen[0]];
      }
    }
    EveryCycleEnds(cfg, evs);
  }
}
