/** Every retry cycle ends. */
module RetryBound {
  import Bags
  import opened WifiTypes
  import opened ScanSort
  import opened RetrySpec

  // ---- What every reachable state satisfies ----

  predicate Matched(s: State) { s.scan != [] && s.scan[0].matches }

  predicate Inv(cfg: Config, s: State) {
    && s.selected < |cfg.sta|
    && s.numRetried <= 1
    && (s.numRetried == 1 ==> s.phase == ScanConnecting)
    && (s.phase == FastConnectCyclingAps ==> cfg.fastConnect && 0 <= s.selected)
    && (s.phase == ExplicitHidden ==> cfg.HiddenFirst() && 0 <= s.selected < HiddenPrefix(cfg.sta))
    && (s.phase == RestartingAdapter ==> (s.link == Cooldown || s.link == Off) && s.mode == BlindRetry)
    && (s.link == Scanning ==> s.phase.InitialConnect? || s.phase.ScanConnecting? || s.phase.RetryHidden?)
    && (s.link == Connected ==> s.phase == InitialConnect)
    && (s.scanDone ==> !s.scanPending)
  }

  // ---- The measure ----

  /** The most failures a cycle can absorb before the adapter is restarted. */
  function Bound(cfg: Config): nat {
    (if cfg.fastConnect then 3 else 2) * |cfg.sta| + 4
  }

  /**
   * How many more failures the state absorbs before RestartingAdapter. A scan still running when RetryHidden is
   * entered with nothing to try can send the machine back to scanning once, which the measure pays for up front.
   */
  function Fuel(cfg: Config, s: State): int {
    var n := |cfg.sta|;
    match s.phase
    case InitialConnect => Bound(cfg)
    case FastConnectCyclingAps => 3 * n + 3 - s.selected
    case ExplicitHidden => 2 * n + 3 - s.selected
    case ScanConnecting =>
      if s.link == Scanning && s.scanPending && !Matched(s) then n + 3 else n + 2 - s.numRetried
    case RetryHidden =>
      if s.link == Scanning && (s.scanPending || s.scanDone) then n + 2
      else if s.selected == -1 then 1
      else n - s.selected
    case RestartingAdapter => 0
  }

  lemma FuelIsBounded(cfg: Config, s: State)
    requires cfg.Valid() && Inv(cfg, s)
    ensures 0 <= Fuel(cfg, s) <= Bound(cfg)
    ensures Fuel(cfg, s) == 0 <==> s.phase == RestartingAdapter
  {
  }

  /** What one failure leads to, as far as the invariant and the fuel are concerned. */
  ghost predicate Burns(cfg: Config, s: State, t: State) {
    && Inv(cfg, t)
    && t.link != Connected
    && (t.link == Off ==> s.link == Off)
    && (t.phase != ScanConnecting ==>
          t.scanPending == s.scanPending && t.scanDone == s.scanDone && (t.link == Scanning ==> s.link == Scanning))
    && Fuel(cfg, t) < (if s.phase == RestartingAdapter then Bound(cfg) else Fuel(cfg, s))
  }

  /** A state in which a failure can be noticed. */
  predicate MayFail(s: State) {
    s.link != Connected && (s.link == Scanning ==> !s.scanDone)
  }

  predicate Next(cfg: Config, s: State, env: Env, next: Phase) {
    cfg.Valid() && Inv(cfg, s) && MayFail(s) && DetermineNextPhase(cfg, s, env) == next
  }

  lemma EnterRestartingAdapter(cfg: Config, s: State, env: Env)
    requires Next(cfg, s, env, RestartingAdapter)
    ensures Burns(cfg, s, MoveOn(cfg, s, env))
  {
  }

  lemma EnterExplicitHidden(cfg: Config, s: State, env: Env)
    requires Next(cfg, s, env, ExplicitHidden) && s.phase != ExplicitHidden
    ensures Burns(cfg, s, MoveOn(cfg, s, env))
  {
  }

  lemma EnterFastConnect(cfg: Config, s: State, env: Env)
    requires Next(cfg, s, env, FastConnectCyclingAps) && s.phase != FastConnectCyclingAps
    ensures Burns(cfg, s, MoveOn(cfg, s, env))
  {
  }

  lemma EnterScanConnecting(cfg: Config, s: State, env: Env)
    requires Next(cfg, s, env, ScanConnecting) && s.phase != ScanConnecting
    ensures Burns(cfg, s, MoveOn(cfg, s, env))
  {
  }

  lemma EnterRetryHidden(cfg: Config, s: State, env: Env)
    requires Next(cfg, s, env, RetryHidden) && s.phase != RetryHidden
    ensures Burns(cfg, s, MoveOn(cfg, s, env))
  {
    NextCandidateFrame(cfg, s, s.(phase := RetryHidden, numRetried := 0), 0);
  }

  lemma StayFastConnect(cfg: Config, s: State, env: Env)
    requires Next(cfg, s, env, s.phase) && s.phase == FastConnectCyclingAps
    ensures Burns(cfg, s, MoveOn(cfg, s, env))
  {
  }

  lemma StayExplicitHidden(cfg: Config, s: State, env: Env)
    requires Next(cfg, s, env, s.phase) && s.phase == ExplicitHidden
    ensures Burns(cfg, s, MoveOn(cfg, s, env))
  {
    HiddenPrefixIsMaximal(cfg.sta);
  }

  lemma StayScanConnecting(cfg: Config, s: State, env: Env)
    requires Next(cfg, s, env, s.phase) && s.phase == ScanConnecting
    ensures Burns(cfg, s, MoveOn(cfg, s, env))
  {
  }

  lemma StayRetryHidden(cfg: Config, s: State, env: Env)
    requires Next(cfg, s, env, s.phase) && s.phase == RetryHidden
    ensures Burns(cfg, s, MoveOn(cfg, s, env))
  {
  }

  lemma MoveOnBurnsFuel(cfg: Config, s: State, env: Env)
    requires cfg.Valid() && Inv(cfg, s) && MayFail(s)
    ensures Burns(cfg, s, MoveOn(cfg, s, env))
  {
    match DetermineNextPhase(cfg, s, env)
    case InitialConnect => assert false;
    case FastConnectCyclingAps =>
      if s.phase == FastConnectCyclingAps { StayFastConnect(cfg, s, env); } else { EnterFastConnect(cfg, s, env); }
    case ExplicitHidden =>
      if s.phase == ExplicitHidden { StayExplicitHidden(cfg, s, env); } else { EnterExplicitHidden(cfg, s, env); }
    case ScanConnecting =>
      if s.phase == ScanConnecting { StayScanConnecting(cfg, s, env); } else { EnterScanConnecting(cfg, s, env); }
    case RetryHidden =>
      if s.phase == RetryHidden { StayRetryHidden(cfg, s, env); } else { EnterRetryHidden(cfg, s, env); }
    case RestartingAdapter => EnterRestartingAdapter(cfg, s, env);
  }

  /** Each failure uses up fuel, and leaving RestartingAdapter starts a cycle below the bound. */
  lemma RetryBurnsFuel(cfg: Config, s: State, env: Env)
    requires cfg.Valid() && Inv(cfg, s) && MayFail(s)
    ensures Burns(cfg, s, RetryConnect(cfg, s, env))
  {
    var p := Penalise(cfg, s);
    assert p == s.(priorities := p.priorities);
    MoveOnBurnsFuel(cfg, p, env);
  }

  // ---- Finished scans ----

  /** A step that is no failure never adds fuel. */
  ghost predicate Keeps(cfg: Config, s: State, t: State) {
    Inv(cfg, t) && Fuel(cfg, t) <= Fuel(cfg, s)
  }

  /** The state in which a finished scan's results have been marked and sorted. */
  function Marked(cfg: Config, s: State, env: Env): State {
    var (marked, table) := Track(cfg.sta, s.scan, s.priorities);
    s.(scanDone := false, portalScanned := !env.filtered, mode := ScanBased,
       scan := InsertionSort(marked), priorities := table)
  }

  lemma MarkedIsNotEmpty(cfg: Config, s: State, env: Env)
    requires s.scan != []
    ensures Marked(cfg, s, env).scan != []
  {
    var marked := Track(cfg.sta, s.scan, s.priorities).0;
    SortIsStablePermutation(marked);
    Bags.SameSize(marked, InsertionSort(marked));
  }

  /** The scan found a configured network, the first one the best result belongs to. */
  predicate FoundMatch(cfg: Config, b: State) {
    b.scan != [] && b.scan[0].matches && FirstOwner(b.scan[0], cfg.sta) < |cfg.sta|
  }

  function Connect(cfg: Config, s: State, env: Env): State {
    StartConnecting(s, BuildParams(cfg, s), env)
  }

  lemma ScanFinishedCases(cfg: Config, s: State, env: Env)
    requires s.scan != []
    ensures
      var b := Marked(cfg, s, env);
      ScanFinished(cfg, s, env) ==
        if FoundMatch(cfg, b) then
          var (t, waits) := TransitionToPhase(cfg, b.(selected := FirstOwner(b.scan[0], cfg.sta)), ScanConnecting, env);
          if waits then t else Connect(cfg, t, env)
        else
          var t := TransitionToPhase(cfg, b, RetryHidden, env).0;
          if t.selected == -1 then t else Connect(cfg, t, env)
  {
  }

  lemma MatchKeepsFuel(cfg: Config, b: State, env: Env)
    requires cfg.Valid() && Inv(cfg, b) && b.link == Scanning && !b.scanPending && FoundMatch(cfg, b)
    ensures
      var (t, waits) := TransitionToPhase(cfg, b.(selected := FirstOwner(b.scan[0], cfg.sta)), ScanConnecting, env);
      Inv(cfg, if waits then t else Connect(cfg, t, env)) &&
      Fuel(cfg, if waits then t else Connect(cfg, t, env)) <= Fuel(cfg, b.(scanDone := true))
  {
  }

  lemma NoMatchKeepsFuel(cfg: Config, b: State, env: Env)
    requires cfg.Valid() && Inv(cfg, b) && b.link == Scanning && !b.scanPending && !b.scanDone
    ensures
      var t := TransitionToPhase(cfg, b, RetryHidden, env).0;
      Keeps(cfg, b.(scanDone := true), if t.selected == -1 then t else Connect(cfg, t, env))
  {
  }

  lemma ScanFinishedKeepsFuel(cfg: Config, s: State, env: Env)
    requires cfg.Valid() && Inv(cfg, s) && s.link == Scanning && s.scanDone && s.scan != []
    ensures Keeps(cfg, s, ScanFinished(cfg, s, env))
  {
    var b := Marked(cfg, s, env);
    ScanFinishedCases(cfg, s, env);
    if FoundMatch(cfg, b) {
      MatchKeepsFuel(cfg, b, env);
    } else {
      NoMatchKeepsFuel(cfg, b, env);
    }
  }

  // ---- Whole runs ----

  /** The pass of the main loop in `ev` ends in a call to RetryConnect. */
  predicate Retries(s: State, ev: Event) {
    ev.Tick? &&
    match s.link
    case Off => false
    case Cooldown => ev.quiet && Fails(s, ev)
    case Connecting => Fails(s, ev)
    case Scanning => if s.scanDone then s.scan == [] else ev.timedOut
    case Connected => !(ev.status == Up && !s.error)
  }

  predicate Fails(s: State, ev: Event)
    requires ev.Tick?
  {
    if ev.status == Up then ev.ssidEmpty else ev.timedOut || s.error || ev.status != InProgress
  }

  predicate Succeeds(s: State, ev: Event) {
    ev.Tick? && (s.link == Connecting || (s.link == Cooldown && ev.quiet)) && ev.status == Up && !ev.ssidEmpty
  }

  /** The state RetryConnect is called in. */
  function Failing(s: State, env: Env): State {
    if s.link == Connected then s.(link := Connecting)
    else if s.link == Scanning && s.scanDone then
      s.(scanDone := false, portalScanned := !env.filtered, mode := ScanBased)
    else s
  }

  /** The component is started, after boot or after it was disabled. */
  predicate Starts(s: State, ev: Event) { ev.Enabled? && s.link == Off }

  /** A scan ends that is not accounted for: the one that was running has already ended. */
  predicate Strays(s: State, ev: Event) { ev.ScanArrived? && !s.scanPending }

  /** A run so far: its state, and the failures and stray scans since the last start, connection or restart. */
  datatype Run = Run(s: State, failures: nat, strays: nat)

  function Follow(cfg: Config, r: Run, ev: Event): Run {
    var t := Step(cfg, r.s, ev);
    if Succeeds(r.s, ev) || Starts(r.s, ev) then Run(t, 0, 0)
    else if Strays(r.s, ev) then Run(t, r.failures, r.strays + 1)
    else if !Retries(r.s, ev) then Run(t, r.failures, r.strays)
    else if r.s.phase == RestartingAdapter then Run(t, 1, 0)
    else Run(t, r.failures + 1, r.strays)
  }

  function RunOf(cfg: Config, evs: seq<Event>): Run {
    if evs == [] then Run(FRESH, 0, 0)
    else Follow(cfg, RunOf(cfg, evs[..|evs| - 1]), evs[|evs| - 1])
  }

  lemma RunExtends(cfg: Config, evs: seq<Event>, ev: Event)
    ensures RunOf(cfg, evs + [ev]) == Follow(cfg, RunOf(cfg, evs), ev)
    ensures RunOf(cfg, [ev]) == Follow(cfg, Run(FRESH, 0, 0), ev)
  {
    assert (evs + [ev])[..|evs|] == evs && [ev][..0] == [];
  }

  lemma StepRetries(cfg: Config, s: State, ev: Event)
    requires cfg.Valid() && Inv(cfg, s) && Retries(s, ev)
    ensures Step(cfg, s, ev) == RetryConnect(cfg, Failing(s, ev.env), ev.env)
    ensures Burns(cfg, Failing(s, ev.env), Step(cfg, s, ev))
    ensures Fuel(cfg, Failing(s, ev.env)) <= Fuel(cfg, s) && Failing(s, ev.env).phase == s.phase
  {
    RetryBurnsFuel(cfg, Failing(s, ev.env), ev.env);
  }

  lemma StepSucceeds(cfg: Config, s: State, ev: Event)
    requires cfg.Valid() && Inv(cfg, s) && Succeeds(s, ev)
    ensures Inv(cfg, Step(cfg, s, ev)) && Step(cfg, s, ev).phase == InitialConnect
  {
  }

  /** The phase is reset, and what else is left over does no harm. */
  lemma ResetIsSound(cfg: Config, s: State, loaded: bool, env: Env)
    requires cfg.Valid() && Inv(cfg, s)
    ensures
      var b := TransitionToPhase(cfg, if loaded then s.(selected := 0) else s, InitialConnect, env).0;
      b.phase == InitialConnect && b.numRetried == 0 && b.selected < |cfg.sta| && (b.scanDone ==> !b.scanPending)
  {
  }

  lemma InitialAttemptIsSound(cfg: Config, b: State, selected: nat, params: Ap, env: Env)
    requires cfg.Valid() && selected < |cfg.sta|
    requires b.phase == InitialConnect && b.numRetried == 0 && (b.scanDone ==> !b.scanPending)
    ensures
      var t := StartConnecting(b.(selected := selected), params, env);
      Inv(cfg, t) && t.link != Off && t.link != Connected
  {
  }

  lemma InitialConnectionIsSound(cfg: Config, b: State, env: Env)
    requires cfg.Valid() && b.selected < |cfg.sta|
    requires b.phase == InitialConnect && b.numRetried == 0 && (b.scanDone ==> !b.scanPending)
    ensures
      var t := StartInitialConnection(cfg, b, env);
      Inv(cfg, t) && t.link != Off && t.link != Connected
  {
  }

  /** Every start keeps the invariant and begins within the bound, whatever state the component was disabled in. */
  lemma StartUpIsSound(cfg: Config, s: State, loaded: bool, saved: Saved, env: Env)
    requires cfg.Valid() && Inv(cfg, s)
    ensures
      var t := StartUp(cfg, s, loaded, saved, env);
      Inv(cfg, t) && t.link != Off && t.link != Connected && 0 <= Fuel(cfg, t) <= Bound(cfg)
  {
    var b := TransitionToPhase(cfg, if loaded then s.(selected := 0) else s, InitialConnect, env).0;
    ResetIsSound(cfg, s, loaded, env);
    InitialConnectionIsSound(cfg, b, env);
    InitialAttemptIsSound(cfg, b, 0, BuildParams(cfg, b.(selected := 0)), env);
    if saved.SavedAp? && saved.index < |cfg.sta| {
      InitialAttemptIsSound(cfg, b, saved.index, SavedParams(cfg, saved), env);
    }
    var t := StartUp(cfg, s, loaded, saved, env);
    FuelIsBounded(cfg, t);
  }

  lemma StrayKeepsInv(cfg: Config, s: State, results: seq<ScanResult>)
    requires cfg.Valid() && Inv(cfg, s)
    ensures Inv(cfg, Step(cfg, s, ScanArrived(results)))
  {
  }

  lemma StepElse(cfg: Config, s: State, ev: Event)
    requires cfg.Valid() && Inv(cfg, s) && !Retries(s, ev) && !Succeeds(s, ev) && !Starts(s, ev) && !Strays(s, ev)
    ensures Keeps(cfg, s, Step(cfg, s, ev))
  {
    match ev
    case Tick(env, _, _, _, _) =>
      if s.link == Scanning && s.scanDone { ScanFinishedKeepsFuel(cfg, s, env); }
    case _ =>
  }

  /** Every event keeps the invariant. */
  lemma StepKeepsInv(cfg: Config, s: State, ev: Event)
    requires cfg.Valid() && Inv(cfg, s)
    ensures Inv(cfg, Step(cfg, s, ev))
  {
    if Retries(s, ev) {
      StepRetries(cfg, s, ev);
    } else if Succeeds(s, ev) {
      StepSucceeds(cfg, s, ev);
    } else if Starts(s, ev) {
      StartUpIsSound(cfg, s, ev.loaded, ev.saved, ev.env);
    } else if Strays(s, ev) {
      StrayKeepsInv(cfg, s, ev.results);
    } else {
      StepElse(cfg, s, ev);
    }
  }

  /** One bound for each stray scan of the cycle, and one for the cycle itself. */
  predicate WithinBudget(cfg: Config, r: Run) {
    Inv(cfg, r.s) && r.failures + Fuel(cfg, r.s) <= Bound(cfg) * (1 + r.strays)
  }

  lemma OneMoreBound(bound: nat, strays: nat)
    ensures bound * (1 + (strays + 1)) == bound * (1 + strays) + bound && bound * (1 + strays) >= bound
  {
  }

  /** Failures so far and failures still possible never exceed the bound together. */
  lemma FollowKeepsBudget(cfg: Config, r: Run, ev: Event)
    requires cfg.Valid() && WithinBudget(cfg, r)
    ensures WithinBudget(cfg, Follow(cfg, r, ev))
  {
    FuelIsBounded(cfg, r.s);
    OneMoreBound(Bound(cfg), r.strays);
    if Retries(r.s, ev) {
      StepRetries(cfg, r.s, ev);
    } else if Succeeds(r.s, ev) {
      StepSucceeds(cfg, r.s, ev);
      FuelIsBounded(cfg, Step(cfg, r.s, ev));
    } else if Starts(r.s, ev) {
      StartUpIsSound(cfg, r.s, ev.loaded, ev.saved, ev.env);
    } else if Strays(r.s, ev) {
      StrayKeepsInv(cfg, r.s, ev.results);
      FuelIsBounded(cfg, Step(cfg, r.s, ev));
    } else {
      StepElse(cfg, r.s, ev);
    }
  }

  /**
   * For every configuration and sequence of events, with starts, losses and disabling wherever they fall: between a
   * start, a connection or an adapter restart and the next, the machine fails at most Bound(cfg) times, and as often
   * again for each scan that ended without being accounted for. Index and retry counter stay in range throughout.
   */
  lemma {:induction false} EveryCycleEnds(cfg: Config, evs: seq<Event>)
    requires cfg.Valid()
    ensures
      var r := RunOf(cfg, evs);
      Inv(cfg, r.s) && Fuel(cfg, r.s) >= 0 && r.failures + Fuel(cfg, r.s) <= Bound(cfg) * (1 + r.strays)
  {
    if evs != [] {
      EveryCycleEnds(cfg, evs[..|evs| - 1]);
      FollowKeepsBudget(cfg, RunOf(cfg, evs[..|evs| - 1]), evs[|evs| - 1]);
    }
    FuelIsBounded(cfg, RunOf(cfg, evs).s);
  }
}
