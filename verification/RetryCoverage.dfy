/** What one cycle of nothing but failures tries: no configured network is forgotten. */
module RetryCoverage {
  import opened WifiTypes
  import opened RetrySpec
  import opened RetryBound
  import opened RetryPhases
  import RetrySync

  /** What is tried once the saved networks are done: the hidden prefix, then what the scan leads to. */
  ghost function Search(cfg: Config, table: map<Bssid, Int8>, outcome: Outcome): seq<Attempt> {
    ExplicitAttempts(cfg) + AfterExplicit(cfg, table, outcome)
  }

  /** `t` has begun the search. */
  predicate BeginsSearch(cfg: Config, s: State, t: State, env: Env) {
    if cfg.HiddenFirst() then TriesExplicit(cfg, s, t, 0) else LeavesExplicit(cfg, s, t, env)
  }

  lemma SearchEnds(cfg: Config, s: State, t: State, around: Surroundings, results: seq<ScanResult>, outcome: Outcome)
    requires Calm(cfg, t) && BeginsSearch(cfg, s, t, around(s)) && Suits(around, s, results, outcome)
    ensures ExplicitEnds(cfg, s, FailCycle(cfg, t, around, results), 0, t.priorities, outcome)
  {
    if cfg.HiddenFirst() {
      ExplicitPhase(cfg, t, around, results, outcome);
      ExplicitGoesOn(cfg, s, t, FailCycle(cfg, t, around, results), outcome);
    } else {
      LastExplicitTail(cfg, s, t, around, results, outcome);
    }
  }

  lemma WholeSearch(cfg: Config, s: State, u: State, table: map<Bssid, Int8>, outcome: Outcome)
    requires ExplicitEnds(cfg, s, u, 0, table, outcome)
    ensures
      var table' := AfterExplicitFailures(cfg, table, 0);
      Ends(cfg, s, u, Search(cfg, table', outcome), PrioritiesAfterCycle(cfg, table', outcome))
  {
    assert ExplicitAttempts(cfg)[0..] == ExplicitAttempts(cfg);
  }

  lemma SearchFails(cfg: Config, s: State, t: State, around: Surroundings, results: seq<ScanResult>, outcome: Outcome)
    requires Calm(cfg, t) && BeginsSearch(cfg, s, t, around(s)) && Suits(around, s, results, outcome)
    ensures
      var table := AfterExplicitFailures(cfg, t.priorities, 0);
      Ends(cfg, s, FailCycle(cfg, t, around, results), Search(cfg, table, outcome),
           PrioritiesAfterCycle(cfg, table, outcome))
  {
    SearchEnds(cfg, s, t, around, results, outcome);
    WholeSearch(cfg, s, FailCycle(cfg, t, around, results), t.priorities, outcome);
  }

  // ---- Fast connect ----

  /** The networks fast connect goes through from `i` on, with the parameters as configured. */
  function FastAttempts(cfg: Config, i: nat): seq<Attempt>
    decreases |cfg.sta| - i
  {
    if !cfg.fastConnect || i >= |cfg.sta| then []
    else [Attempt(FastConnectCyclingAps, i, cfg.sta[i])] + FastAttempts(cfg, i + 1)
  }

  function AfterFastFailures(cfg: Config, table: map<Bssid, Int8>, i: nat): map<Bssid, Int8>
    decreases |cfg.sta| - i
  {
    if !cfg.fastConnect || i >= |cfg.sta| then table
    else AfterFastFailures(cfg, AfterFailure(table, cfg.sta[i].bssid), i + 1)
  }

  /** No scan results are at hand, or will be, when the next thing to do is to scan. */
  predicate Unscanned(cfg: Config, s: State) {
    (s.phase == InitialConnect && !RetrySync.Leftovers(cfg, s)) || (s.phase == FastConnectCyclingAps && s.scan == [])
  }

  predicate FastIsLeft(cfg: Config, s: State) { cfg.fastConnect && s.selected + 1 < |cfg.sta| }

  /** What is left of `s` when its cycle comes to the scan: fast connect drops the results. */
  function AtScan(cfg: Config, s: State): State {
    if (s.phase == InitialConnect || s.phase == FastConnectCyclingAps) && FastIsLeft(cfg, s) then s.(scan := []) else s
  }

  /** `t` has tried network `i` of the fast connect cycle. */
  predicate TriesFast(cfg: Config, s: State, t: State, i: nat) {
    && t.phase == FastConnectCyclingAps && t.selected == i < |cfg.sta| && t.link != Scanning
    && Undisturbed(s.(scan := []), t)
    && t.attempts == s.attempts + [Attempt(FastConnectCyclingAps, i, cfg.sta[i])]
  }

  lemma FastMove(cfg: Config, s: State, env: Env)
    requires Calm(cfg, s) && Unscanned(cfg, s) && FastIsLeft(cfg, s)
    ensures TriesFast(cfg, s, MoveOn(cfg, s, env), s.selected + 1) && MoveOn(cfg, s, env).priorities == s.priorities
  {
    assert DetermineNextPhase(cfg, s, env) == FastConnectCyclingAps;
  }

  lemma LastFastMove(cfg: Config, s: State, env: Env)
    requires Calm(cfg, s) && Unscanned(cfg, s) && !FastIsLeft(cfg, s)
    ensures BeginsSearch(cfg, s, MoveOn(cfg, s, env), env) && MoveOn(cfg, s, env).priorities == s.priorities
  {
    assert DetermineNextPhase(cfg, s, env) == AfterFastConnect(cfg);
    if cfg.HiddenFirst() {
      assert HiddenPrefix(cfg.sta) > 0;
    }
  }

  lemma EarlyPenalty(cfg: Config, s: State)
    requires Inv(cfg, s) && (s.phase == InitialConnect || s.phase == FastConnectCyclingAps)
    ensures
      var p := Penalise(cfg, s);
      && p == s.(priorities := p.priorities)
      && p.priorities == if s.selected < 0 then s.priorities else AfterFailure(s.priorities, cfg.sta[s.selected].bssid)
  {
  }

  /** One more network is tried, or the search begins. */
  predicate MovesFast(cfg: Config, s: State, t: State, env: Env) {
    t.priorities == Penalise(cfg, s).priorities &&
    if FastIsLeft(cfg, s) then TriesFast(cfg, s, t, s.selected + 1) else BeginsSearch(cfg, s, t, env)
  }

  lemma NextFastStep(cfg: Config, s: State, env: Env)
    requires Calm(cfg, s) && Unscanned(cfg, s) && FastIsLeft(cfg, s)
    ensures
      var t := RetryConnect(cfg, s, env);
      TriesFast(cfg, s, t, s.selected + 1) && t.priorities == Penalise(cfg, s).priorities
  {
    EarlyPenalty(cfg, s);
    FastMove(cfg, Penalise(cfg, s), env);
  }

  lemma LastFastStep(cfg: Config, s: State, env: Env)
    requires Calm(cfg, s) && Unscanned(cfg, s) && !FastIsLeft(cfg, s)
    ensures
      var t := RetryConnect(cfg, s, env);
      BeginsSearch(cfg, s, t, env) && t.priorities == Penalise(cfg, s).priorities
  {
    EarlyPenalty(cfg, s);
    LastFastMove(cfg, Penalise(cfg, s), env);
  }

  lemma FastStep(cfg: Config, s: State, env: Env)
    requires Calm(cfg, s) && Unscanned(cfg, s)
    ensures MovesFast(cfg, s, RetryConnect(cfg, s, env), env)
  {
    if FastIsLeft(cfg, s) {
      NextFastStep(cfg, s, env);
    } else {
      LastFastStep(cfg, s, env);
    }
  }

  ghost predicate FastEnds(cfg: Config, s: State, t: State, i: nat, table: map<Bssid, Int8>, outcome: Outcome) {
    var table' := AfterExplicitFailures(cfg, AfterFastFailures(cfg, table, i), 0);
    Ends(cfg, s, t, FastAttempts(cfg, i) + Search(cfg, table', outcome), PrioritiesAfterCycle(cfg, table', outcome))
  }

  lemma FastUnfolds(cfg: Config, i: nat, rest: seq<Attempt>)
    requires cfg.fastConnect && i < |cfg.sta|
    ensures [Attempt(FastConnectCyclingAps, i, cfg.sta[i])] + (FastAttempts(cfg, i + 1) + rest) ==
            FastAttempts(cfg, i) + rest
  {
  }

  lemma FastTail(cfg: Config, s: State, t: State, u: State, i: nat, table: map<Bssid, Int8>, outcome: Outcome)
    requires cfg.fastConnect && i < |cfg.sta|
    requires Follows(cfg, s, t, [Attempt(FastConnectCyclingAps, i, cfg.sta[i])], t.priorities)
    requires FastEnds(cfg, t, u, i + 1, table, outcome)
    requires AfterFastFailures(cfg, t.priorities, i) == AfterFastFailures(cfg, table, i + 1)
    ensures FastEnds(cfg, s, u, i, t.priorities, outcome)
  {
    var table' := AfterExplicitFailures(cfg, AfterFastFailures(cfg, table, i + 1), 0);
    var rest := Search(cfg, table', outcome);
    Chain(cfg, s, t, u, [Attempt(FastConnectCyclingAps, i, cfg.sta[i])], FastAttempts(cfg, i + 1) + rest, t.priorities,
          PrioritiesAfterCycle(cfg, table', outcome));
    FastUnfolds(cfg, i, rest);
  }

  lemma UnrollFast(cfg: Config, s: State, around: Surroundings, results: seq<ScanResult>) returns (t: State)
    requires Calm(cfg, s) && Unscanned(cfg, s) && Unawaited(s)
    ensures Calm(cfg, t) && MovesFast(cfg, s, t, around(s))
    ensures FailCycle(cfg, s, around, results) == FailCycle(cfg, t, around, results)
  {
    t := UnrollRetry(cfg, s, around, results);
    FastStep(cfg, s, around(s));
  }

  /** What follows `t`, one network further on, follows `s`. */
  lemma FastNext(cfg: Config, s: State, t: State, u: State, env: Env, outcome: Outcome)
    requires Calm(cfg, t) && MovesFast(cfg, s, t, env) && FastIsLeft(cfg, s)
    requires FastEnds(cfg, t, u, t.selected + 1, Penalise(cfg, t).priorities, outcome)
    ensures FastEnds(cfg, s, u, s.selected + 1, Penalise(cfg, s).priorities, outcome)
  {
    EarlyPenalty(cfg, t);
    FastTail(cfg, s, t, u, t.selected, Penalise(cfg, t).priorities, outcome);
  }

  lemma FastLast(cfg: Config, s: State, t: State, around: Surroundings, results: seq<ScanResult>, outcome: Outcome)
    requires Calm(cfg, t) && MovesFast(cfg, s, t, around(s)) && !FastIsLeft(cfg, s)
    requires Suits(around, s, results, outcome)
    ensures FastEnds(cfg, s, FailCycle(cfg, t, around, results), s.selected + 1, Penalise(cfg, s).priorities, outcome)
  {
    SearchFails(cfg, s, t, around, results, outcome);
    var table := AfterExplicitFailures(cfg, t.priorities, 0);
    assert [] + Search(cfg, table, outcome) == Search(cfg, table, outcome);
  }

  /** The networks after the selected one are tried in order, once each, and then the search begins. */
  lemma {:induction false} FastPhase(cfg: Config, s: State, around: Surroundings, results: seq<ScanResult>,
                                     outcome: Outcome)
    requires Calm(cfg, s) && Unscanned(cfg, s) && Unawaited(s) && Suits(around, AtScan(cfg, s), results, outcome)
    ensures FastEnds(cfg, s, FailCycle(cfg, s, around, results), s.selected + 1, Penalise(cfg, s).priorities, outcome)
    decreases |cfg.sta| - s.selected
  {
    var t := UnrollFast(cfg, s, around, results);
    if FastIsLeft(cfg, s) {
      FastPhase(cfg, t, around, results, outcome);
      FastNext(cfg, s, t, FailCycle(cfg, t, around, results), around(s), outcome);
    } else {
      FastLast(cfg, s, t, around, results, outcome);
    }
  }

  // ---- Results left over from another scan ----

  /** The first leftover result is tried with the selected network, twice if it was marked as a match. */
  function LeftoverAttempts(cfg: Config, s: State): seq<Attempt>
    requires s.scan != []
  {
    Try(cfg, s) + ((if s.scan[0].matches then Try(cfg, s) else []) + HiddenAttempts(cfg, s.mode, s.scan, 0))
  }

  lemma LeftoverMove(cfg: Config, s: State, env: Env)
    requires Calm(cfg, s) && Unawaited(s) && RetrySync.Leftovers(cfg, s)
    ensures
      var t := MoveOn(cfg, s, env);
      && t.phase == ScanConnecting && t.numRetried == 0 && t.selected == s.selected && Unawaited(t)
      && Undisturbed(s, t) && t.priorities == s.priorities
      && t.attempts == s.attempts + Try(cfg, s)
  {
    assert DetermineNextPhase(cfg, s, env) == ScanConnecting;
  }

  lemma LeftoversFail(cfg: Config, s: State, around: Surroundings, results: seq<ScanResult>)
    requires Calm(cfg, s) && Unawaited(s) && RetrySync.Leftovers(cfg, s)
    ensures Ends(cfg, s, FailCycle(cfg, s, around, results), LeftoverAttempts(cfg, s), AfterLeftovers(s))
  {
    var t := UnrollRetry(cfg, s, around, results);
    EarlyPenalty(cfg, s);
    var p := Penalise(cfg, s);
    if NoBssidConfigured(cfg) {
      NothingToPenalise(cfg, s);
    }
    LeftoverMove(cfg, p, around(s));
    LeftoverTriedOnce(cfg, t, around, results);
    Chain(cfg, s, t, FailCycle(cfg, t, around, results), Try(cfg, s),
          (if s.scan[0].matches then Try(cfg, s) else []) + HiddenAttempts(cfg, s.mode, s.scan, 0),
          t.priorities, AfterLeftovers(t));
  }

  // ---- The whole cycle ----

  /**
   * A cycle begins when the adapter restarts, and when a connection, the first attempt after a start, or a first scan
   * that did not start is given up.
   */
  predicate BeginsCycle(s: State) {
    s.phase == RestartingAdapter || (s.phase == InitialConnect && Unawaited(s))
  }

  /** After a restart, provisioning under way makes a scan of its own unnecessary or unwelcome. */
  predicate SkipsScan(cfg: Config, s: State, env: Env) {
    s.phase == RestartingAdapter && !cfg.HiddenFirst() && if env.portal then s.portalScanned else env.improv
  }

  /** The cycle comes to ask for a scan, unless all networks are hidden. */
  predicate Scans(cfg: Config, s: State, env: Env) { !SkipsScan(cfg, s, env) && !RetrySync.Leftovers(cfg, s) }

  /** The priorities when the scan of the cycle is over. */
  function TableAtScan(cfg: Config, s: State): map<Bssid, Int8> {
    var table := Penalise(cfg, s).priorities;
    AfterExplicitFailures(
      cfg, if s.phase == RestartingAdapter then table else AfterFastFailures(cfg, table, s.selected + 1), 0)
  }

  ghost function CycleAttempts(cfg: Config, s: State, env: Env, outcome: Outcome): seq<Attempt> {
    if SkipsScan(cfg, s, env) then HiddenAttempts(cfg, BlindRetry, s.scan, 0)
    else if RetrySync.Leftovers(cfg, s) then LeftoverAttempts(cfg, s)
    else if s.phase == RestartingAdapter then Search(cfg, TableAtScan(cfg, s), outcome)
    else FastAttempts(cfg, s.selected + 1) + Search(cfg, TableAtScan(cfg, s), outcome)
  }

  function CyclePriorities(cfg: Config, s: State, env: Env, outcome: Outcome): map<Bssid, Int8> {
    if SkipsScan(cfg, s, env) then s.priorities
    else if RetrySync.Leftovers(cfg, s) then AfterLeftovers(s)
    else PrioritiesAfterCycle(cfg, TableAtScan(cfg, s), outcome)
  }

  /** What the failure that ends the cooldown of a restart leads to. */
  predicate LeavesRestart(cfg: Config, s: State, t: State, env: Env) {
    && t.priorities == Penalise(cfg, s).priorities
    && if SkipsScan(cfg, s, env) then EntersHidden(cfg, s, t) && t.mode == BlindRetry && t.scan == s.scan
       else BeginsSearch(cfg, s, t, env)
  }

  lemma RestartSkips(cfg: Config, s: State, env: Env)
    requires Calm(cfg, s) && s.phase == RestartingAdapter && SkipsScan(cfg, s, env)
    ensures
      var t := MoveOn(cfg, s, env);
      EntersHidden(cfg, s, t) && t.mode == BlindRetry && t.scan == s.scan && t.priorities == s.priorities
  {
    assert DetermineNextPhase(cfg, s, env) == RetryHidden;
    HiddenEntered(cfg, s, env);
  }

  lemma RestartSearches(cfg: Config, s: State, env: Env)
    requires Calm(cfg, s) && s.phase == RestartingAdapter && !SkipsScan(cfg, s, env)
    ensures BeginsSearch(cfg, s, MoveOn(cfg, s, env), env) && MoveOn(cfg, s, env).priorities == s.priorities
  {
    assert DetermineNextPhase(cfg, s, env) == if cfg.HiddenFirst() then ExplicitHidden else ScanConnecting;
  }

  lemma RestartMove(cfg: Config, s: State, env: Env)
    requires Calm(cfg, s) && s.phase == RestartingAdapter
    ensures LeavesRestart(cfg, s, RetryConnect(cfg, s, env), env)
  {
    var p := Penalise(cfg, s);
    assert p == s.(priorities := p.priorities);
    if SkipsScan(cfg, s, env) {
      RestartSkips(cfg, p, env);
    } else {
      RestartSearches(cfg, p, env);
    }
  }

  lemma RestartFails(cfg: Config, s: State, t: State, around: Surroundings, results: seq<ScanResult>, outcome: Outcome)
    requires s.phase == RestartingAdapter && Calm(cfg, t) && LeavesRestart(cfg, s, t, around(s))
    requires SkipsScan(cfg, s, around(s)) || Suits(around, s, results, outcome)
    ensures Ends(cfg, s, FailCycle(cfg, t, around, results), CycleAttempts(cfg, s, around(s), outcome),
                 CyclePriorities(cfg, s, around(s), outcome))
  {
    if SkipsScan(cfg, s, around(s)) {
      if NoBssidConfigured(cfg) {
        NothingToPenalise(cfg, s);
      }
      EnteredHidden(cfg, s, t, around, results);
    } else {
      SearchFails(cfg, s, t, around, results, outcome);
    }
  }

  lemma RestartCoverage(cfg: Config, s: State, around: Surroundings, results: seq<ScanResult>, outcome: Outcome)
    requires Calm(cfg, s) && s.phase == RestartingAdapter
    requires SkipsScan(cfg, s, around(s)) || Suits(around, s, results, outcome)
    ensures
      var t := FailStep(cfg, s, around, results);
      Calm(cfg, t) &&
      Ends(cfg, s, FailCycle(cfg, t, around, results), CycleAttempts(cfg, s, around(s), outcome),
           CyclePriorities(cfg, s, around(s), outcome))
  {
    RetryIsCalm(cfg, s, around(s));
    RestartMove(cfg, s, around(s));
    RestartFails(cfg, s, FailStep(cfg, s, around, results), around, results, outcome);
  }

  lemma LossFails(cfg: Config, s: State, around: Surroundings, results: seq<ScanResult>, outcome: Outcome)
    requires Calm(cfg, s) && s.phase == InitialConnect && Unawaited(s)
    requires RetrySync.Leftovers(cfg, s) || Suits(around, AtScan(cfg, s), results, outcome)
    ensures Ends(cfg, s, FailCycle(cfg, s, around, results), CycleAttempts(cfg, s, around(s), outcome),
                 CyclePriorities(cfg, s, around(s), outcome))
  {
    if RetrySync.Leftovers(cfg, s) {
      LeftoversFail(cfg, s, around, results);
    } else {
      FastPhase(cfg, s, around, results, outcome);
    }
  }

  /**
   * A cycle of failures, up to the next restart of the adapter, tries exactly: with fast connect after a loss, every
   * network after the selected one, in order; the hidden networks at the front, in order and once each; the best
   * scan result twice; and every later network whose SSID is configured hidden or was not in the scan, in order and
   * once each. A scan that does not start leaves the networks to be tried that the results at hand do not show, after
   * a restart all of them; so does provisioning that skips the scan. Leftover results take the place of the scan.
   */
  lemma CycleCoverage(cfg: Config, s: State, around: Surroundings, results: seq<ScanResult>, outcome: Outcome)
    requires Calm(cfg, s) && BeginsCycle(s)
    requires Scans(cfg, s, around(s)) ==> Suits(around, AtScan(cfg, s), results, outcome)
    ensures
      var t := FailStep(cfg, s, around, results);
      Calm(cfg, t) &&
      Ends(cfg, s, FailCycle(cfg, t, around, results), CycleAttempts(cfg, s, around(s), outcome),
           CyclePriorities(cfg, s, around(s), outcome))
  {
    if s.phase == RestartingAdapter {
      RestartCoverage(cfg, s, around, results, outcome);
    } else {
      Unroll(cfg, s, around, results);
      LossFails(cfg, s, around, results, outcome);
    }
  }

  // ---- The first cycle after a start ----

  /** Fast connect tries the saved network, or the first one. */
  predicate StartsFast(cfg: Config, saved: Saved) {
    cfg.fastConnect && ((saved.SavedAp? && saved.index < |cfg.sta|) || !cfg.HiddenFirst())
  }

  function FirstAttempt(cfg: Config, saved: Saved): Attempt
    requires cfg.Valid()
  {
    if saved.SavedAp? && saved.index < |cfg.sta| then Attempt(InitialConnect, saved.index, SavedParams(cfg, saved))
    else Attempt(InitialConnect, 0, cfg.sta[0])
  }

  /** The start waits for a scan, its own or one that was still running. */
  predicate AwaitsFirstScan(cfg: Config, t: State) { t.phase == InitialConnect && t.link == Scanning && t.scanPending }

  /** What a start tries in its first cycle; `t` is the state it leads to, `results` are those of a first scan. */
  ghost function StartAttempts(cfg: Config, s: State, saved: Saved, t: State, env: Env, results: seq<ScanResult>,
                               outcome: Outcome): seq<Attempt>
    requires cfg.Valid()
  {
    if StartsFast(cfg, saved) then [FirstAttempt(cfg, saved)] + CycleAttempts(cfg, t, env, outcome)
    else if cfg.HiddenFirst() then Search(cfg, AfterExplicitFailures(cfg, s.priorities, 0), outcome)
    else if AwaitsFirstScan(cfg, t) then AfterScan(cfg, s.priorities, results)
    else CycleAttempts(cfg, t, env, outcome)
  }

  function StartPriorities(cfg: Config, s: State, saved: Saved, t: State, env: Env, results: seq<ScanResult>,
                           outcome: Outcome): map<Bssid, Int8>
  {
    if StartsFast(cfg, saved) then CyclePriorities(cfg, t, env, outcome)
    else if cfg.HiddenFirst() then PrioritiesAfterCycle(cfg, AfterExplicitFailures(cfg, s.priorities, 0), outcome)
    else if AwaitsFirstScan(cfg, t) then PrioritiesAfter(cfg, s.priorities, results)
    else CyclePriorities(cfg, t, env, outcome)
  }

  /** The outcome is that of the scan in the first cycle, if it comes to one. */
  ghost predicate SuitsStart(cfg: Config, s: State, saved: Saved, t: State, around: Surroundings,
                             results: seq<ScanResult>, outcome: Outcome) {
    if !StartsFast(cfg, saved) && cfg.HiddenFirst() then Suits(around, s, results, outcome)
    else Scans(cfg, t, around(t)) && !AwaitsFirstScan(cfg, t) ==> Suits(around, AtScan(cfg, t), results, outcome)
  }

  lemma ResetShape(cfg: Config, s: State, loaded: bool, env: Env)
    ensures
      var b := TransitionToPhase(cfg, if loaded then s.(selected := 0) else s, InitialConnect, env).0;
      b.phase == InitialConnect && b.attempts == s.attempts && b.priorities == s.priorities && Undisturbed(s, b)
  {
  }

  /** A start without fast connect and hidden networks is waiting in `t`. */
  predicate StartsWithScan(cfg: Config, s: State, t: State) {
    !cfg.fastConnect && t.phase == InitialConnect && t.link == Scanning && t.attempts == s.attempts
  }

  /** Without fast connect a start begins the search, or scans first. */
  lemma StartInitialConnectionCases(cfg: Config, b: State, env: Env)
    requires cfg.Valid() && b.phase == InitialConnect
    ensures
      var t := StartInitialConnection(cfg, b, env);
      t.priorities == b.priorities &&
      if cfg.HiddenFirst() then TriesExplicit(cfg, b, t, 0)
      else t.phase == InitialConnect && t.link == Scanning && t.attempts == b.attempts
  {
    if cfg.HiddenFirst() {
      assert HiddenPrefix(cfg.sta) > 0;
      assert BuildParams(cfg, b.(selected := 0, phase := ExplicitHidden)) == Probe(cfg.sta[0]);
    }
  }

  lemma FirstAttemptCase(cfg: Config, b: State, saved: Saved, env: Env, i: nat, params: Ap)
    requires cfg.Valid() && b.phase == InitialConnect && FirstAttempt(cfg, saved) == Attempt(InitialConnect, i, params)
    ensures
      var t := StartConnecting(b.(selected := i), params, env);
      t.priorities == b.priorities && t.phase == InitialConnect && t.link != Scanning &&
      t.attempts == b.attempts + [FirstAttempt(cfg, saved)]
  {
  }

  /** What a start leads to, from `s` on. */
  predicate Started(cfg: Config, s: State, saved: Saved, t: State)
    requires cfg.Valid()
  {
    t.priorities == s.priorities &&
    if StartsFast(cfg, saved) then
      t.phase == InitialConnect && t.link != Scanning && t.attempts == s.attempts + [FirstAttempt(cfg, saved)]
    else if cfg.HiddenFirst() then TriesExplicit(cfg, s, t, 0)
    else StartsWithScan(cfg, s, t)
  }

  lemma BeginCases(cfg: Config, b: State, saved: Saved, env: Env)
    requires cfg.Valid() && b.phase == InitialConnect
    ensures Started(cfg, b, saved, Begin(cfg, b, saved, env))
  {
    if StartsFast(cfg, saved) {
      var first := FirstAttempt(cfg, saved);
      FirstAttemptCase(cfg, b, saved, env, first.index, first.params);
    } else {
      StartInitialConnectionCases(cfg, b, env);
    }
  }

  lemma StartUpCases(cfg: Config, s: State, loaded: bool, saved: Saved, env: Env)
    requires cfg.Valid()
    ensures Started(cfg, s, saved, StartUp(cfg, s, loaded, saved, env))
  {
    var b := TransitionToPhase(cfg, if loaded then s.(selected := 0) else s, InitialConnect, env).0;
    ResetShape(cfg, s, loaded, env);
    BeginCases(cfg, b, saved, env);
  }

  /** The scan of a start has found nothing at all; the next one finds as little, or does not start. */
  lemma EmptyFirstScan(cfg: Config, s: State, around: Surroundings)
    requires Delivered(cfg, s, []) && s.phase == InitialConnect && !cfg.fastConnect && !cfg.HiddenFirst()
    ensures Ends(cfg, s, FailCycle(cfg, s, around, []), AfterScan(cfg, s.priorities, []),
                 PrioritiesAfter(cfg, s.priorities, []))
  {
    Unroll(cfg, s, around, []);
    var a := Failing(s, around(s));
    FastStep(cfg, a, around(s));
    if NoBssidConfigured(cfg) {
      NothingToPenalise(cfg, a);
    }
    NothingRanked(cfg, s.priorities);
    SecondScanFails(cfg, a, FailStep(cfg, s, around, []), around);
  }

  lemma NothingRanked(cfg: Config, table: map<Bssid, Int8>)
    ensures AfterScan(cfg, table, []) == HiddenAttempts(cfg, ScanBased, [], 0) && PrioritiesAfter(cfg, table, []) == table
  {
    assert Ranked(cfg, table, []) == [];
    assert [] + HiddenAttempts(cfg, ScanBased, [], 0) == HiddenAttempts(cfg, ScanBased, [], 0);
  }

  lemma SecondScanFails(cfg: Config, a: State, t: State, around: Surroundings)
    requires Calm(cfg, t) && a.mode == ScanBased && a.scan == [] && !a.scanPending && !a.scanDone
    requires Asks(a, t, true) || Asks(a, t, false)
    ensures Ends(cfg, t, FailCycle(cfg, t, around, []), HiddenAttempts(cfg, ScanBased, [], 0), t.priorities)
  {
    NothingRanked(cfg, t.priorities);
    if t.scanPending {
      ScanStarted(cfg, t, around, []);
    } else {
      UnstartedScanFails(cfg, t, around, []);
    }
  }

  lemma FirstScan(cfg: Config, s: State, around: Surroundings, results: seq<ScanResult>)
    requires Calm(cfg, s) && s.phase == InitialConnect && s.link == Scanning && s.scanPending
    requires !cfg.fastConnect && !cfg.HiddenFirst()
    ensures Ends(cfg, s, FailCycle(cfg, s, around, results), AfterScan(cfg, s.priorities, results),
                 PrioritiesAfter(cfg, s.priorities, results))
  {
    Unroll(cfg, s, around, results);
    var t := FailStep(cfg, s, around, results);
    if results == [] {
      EmptyFirstScan(cfg, t, around);
    } else {
      ScanDelivered(cfg, t, around, results);
    }
  }

  /**
   * The same for the cycle that any start begins, after boot or after the component was disabled in any state, unless
   * a scan that ended before the start has not been read yet and the start asks in vain for its own.
   */
  lemma StartCoverage(cfg: Config, s: State, loaded: bool, saved: Saved, env: Env, around: Surroundings,
                      results: seq<ScanResult>, outcome: Outcome)
    requires cfg.Valid() && Inv(cfg, s) && (s.scanDone ==> env.scanStarts || cfg.fastConnect || cfg.HiddenFirst())
    requires SuitsStart(cfg, s, saved, StartUp(cfg, s, loaded, saved, env), around, results, outcome)
    ensures
      var t := StartUp(cfg, s, loaded, saved, env);
      Calm(cfg, t) &&
      Ends(cfg, s, FailCycle(cfg, t, around, results), StartAttempts(cfg, s, saved, t, around(t), results, outcome),
           StartPriorities(cfg, s, saved, t, around(t), results, outcome))
  {
    var t := StartUp(cfg, s, loaded, saved, env);
    StartUpIsSound(cfg, s, loaded, saved, env);
    StartUpCases(cfg, s, loaded, saved, env);
    if StartsFast(cfg, saved) {
      LaterCycle(cfg, s, t, around, results, outcome, [FirstAttempt(cfg, saved)]);
    } else if cfg.HiddenFirst() {
      SearchFails(cfg, s, t, around, results, outcome);
    } else if AwaitsFirstScan(cfg, t) {
      FirstScan(cfg, t, around, results);
    } else {
      StartKeepsFlag(cfg, s, loaded, saved, env);
      LaterCycle(cfg, s, t, around, results, outcome, []);
      assert [] + CycleAttempts(cfg, t, around(t), outcome) == CycleAttempts(cfg, t, around(t), outcome);
    }
  }

  lemma LaterCycle(cfg: Config, s: State, t: State, around: Surroundings, results: seq<ScanResult>, outcome: Outcome,
                   more: seq<Attempt>)
    requires Calm(cfg, t) && t.phase == InitialConnect && Unawaited(t)
    requires Scans(cfg, t, around(t)) ==> Suits(around, AtScan(cfg, t), results, outcome)
    requires t.attempts == s.attempts + more
    ensures Ends(cfg, s, FailCycle(cfg, t, around, results), more + CycleAttempts(cfg, t, around(t), outcome),
                 CyclePriorities(cfg, t, around(t), outcome))
  {
    LossFails(cfg, t, around, results, outcome);
    Chain(cfg, s, t, FailCycle(cfg, t, around, results), more, CycleAttempts(cfg, t, around(t), outcome), t.priorities,
          CyclePriorities(cfg, t, around(t), outcome));
  }

  lemma StartKeepsFlag(cfg: Config, s: State, loaded: bool, saved: Saved, env: Env)
    requires cfg.Valid() && !cfg.fastConnect && !cfg.HiddenFirst() && (s.scanDone ==> env.scanStarts)
    ensures !StartUp(cfg, s, loaded, saved, env).scanDone
  {
    ResetShape(cfg, s, loaded, env);
  }

  // ---- Reading the list of attempts ----

  lemma {:induction false} HiddenAttemptsCover(cfg: Config, mode: HiddenMode, scan: seq<ScanResult>, i: nat, k: nat)
    requires i <= k < |cfg.sta|
    ensures Attempt(RetryHidden, k, Probe(cfg.sta[k])) in HiddenAttempts(cfg, mode, scan, i) <==>
            Unseen(cfg, mode, scan, k)
    decreases |cfg.sta| - i
  {
    HiddenAttemptsComeLater(cfg, mode, scan, i + 1);
    if i < k {
      HiddenAttemptsCover(cfg, mode, scan, i + 1, k);
    }
  }

  /** The attempts are in the order of the configuration, none twice. */
  lemma {:induction false} HiddenAttemptsComeLater(cfg: Config, mode: HiddenMode, scan: seq<ScanResult>, i: nat)
    ensures forall j :: 0 <= j < |HiddenAttempts(cfg, mode, scan, i)| ==> HiddenAttempts(cfg, mode, scan, i)[j].index >= i
    ensures forall j, k :: 0 <= j < k < |HiddenAttempts(cfg, mode, scan, i)| ==>
              HiddenAttempts(cfg, mode, scan, i)[j].index < HiddenAttempts(cfg, mode, scan, i)[k].index
    decreases |cfg.sta| - i
  {
    if i < |cfg.sta| {
      HiddenAttemptsComeLater(cfg, mode, scan, i + 1);
    }
  }

  predicate Tries(attempts: seq<Attempt>, k: nat) {
    exists j :: 0 <= j < |attempts| && attempts[j].index == k
  }

  lemma TriesIn(before: seq<Attempt>, middle: seq<Attempt>, after: seq<Attempt>, k: nat)
    requires Tries(middle, k)
    ensures Tries(before + (middle + after), k)
  {
    var j :| 0 <= j < |middle| && middle[j].index == k;
    assert (before + (middle + after))[|before| + j] == middle[j];
  }

  lemma TriesLater(before: seq<Attempt>, more: seq<Attempt>, k: nat)
    ensures Tries(more, k) ==> Tries(before + more, k)
  {
    if Tries(more, k) {
      TriesIn(before, more, [], k);
      assert more + [] == more;
    }
  }

  /** The scan shows the network's SSID and ranks a result of another network first, or none that is configured. */
  predicate Outranked(cfg: Config, table: map<Bssid, Int8>, results: seq<ScanResult>, k: nat)
    requires k < |cfg.sta|
  {
    && InScan(results, cfg.sta[k].ssid) && !ConfiguredHidden(cfg.sta, cfg.sta[k].ssid)
    && (HasMatch(cfg, Ranked(cfg, table, results)) ==> FirstOwner(Ranked(cfg, table, results)[0], cfg.sta) != k)
  }

  /** The scan shows the network's SSID, which is not configured hidden, and prefers another; or it did not start. */
  predicate Hides(cfg: Config, table: map<Bssid, Int8>, outcome: Outcome, k: nat)
    requires k < |cfg.sta|
  {
    match outcome
    case Brings(results) => Outranked(cfg, table, results, k)
    case NotStarted(mode, kept) =>
      mode == ScanBased && InScan(kept, cfg.sta[k].ssid) && !ConfiguredHidden(cfg.sta, cfg.sta[k].ssid)
  }

  /** The only ways in which a cycle passes over a network. */
  predicate PassedOver(cfg: Config, s: State, env: Env, outcome: Outcome, k: nat)
    requires k < |cfg.sta|
  {
    !SkipsScan(cfg, s, env) &&
    if RetrySync.Leftovers(cfg, s) then
      && s.mode == ScanBased && InScan(s.scan, cfg.sta[k].ssid) && !ConfiguredHidden(cfg.sta, cfg.sta[k].ssid)
      && s.selected != k
    else Hides(cfg, TableAtScan(cfg, s), outcome, k)
  }

  lemma HiddenTries(cfg: Config, mode: HiddenMode, scan: seq<ScanResult>, k: nat)
    requires k < |cfg.sta| && Unseen(cfg, mode, scan, k)
    ensures Tries(HiddenAttempts(cfg, mode, scan, 0), k)
  {
    HiddenAttemptsCover(cfg, mode, scan, 0, k);
    var hidden := HiddenAttempts(cfg, mode, scan, 0);
    var j :| 0 <= j < |hidden| && hidden[j] == Attempt(RetryHidden, k, Probe(cfg.sta[k]));
  }

  lemma ScanTries(cfg: Config, table: map<Bssid, Int8>, results: seq<ScanResult>, k: nat)
    requires HiddenPrefix(cfg.sta) <= k < |cfg.sta|
    ensures Tries(AfterScan(cfg, table, results), k) || Outranked(cfg, table, results, k)
  {
    var scanned := ScanAttempts(cfg, Ranked(cfg, table, results));
    var hidden := HiddenAttempts(cfg, ScanBased, results, 0);
    if Unseen(cfg, ScanBased, results, k) {
      HiddenTries(cfg, ScanBased, results, k);
      TriesLater(scanned, hidden, k);
    } else if !Outranked(cfg, table, results, k) {
      assert scanned[0].index == k;
      TriesIn([], scanned, hidden, k);
      assert [] + (scanned + hidden) == scanned + hidden;
    }
  }

  lemma OutcomeTries(cfg: Config, table: map<Bssid, Int8>, outcome: Outcome, k: nat)
    requires HiddenPrefix(cfg.sta) <= k < |cfg.sta|
    ensures Tries(AfterOutcome(cfg, table, outcome), k) || Hides(cfg, table, outcome, k)
  {
    match outcome
    case Brings(results) => ScanTries(cfg, table, results, k);
    case NotStarted(mode, kept) =>
      if Unseen(cfg, mode, kept, k) { HiddenTries(cfg, mode, kept, k); }
  }

  lemma SearchTries(cfg: Config, table: map<Bssid, Int8>, outcome: Outcome, k: nat)
    requires k < |cfg.sta|
    ensures Tries(Search(cfg, table, outcome), k) || Hides(cfg, table, outcome, k)
  {
    if k < HiddenPrefix(cfg.sta) {
      assert Search(cfg, table, outcome)[k].index == k;
    } else {
      OutcomeTries(cfg, table, outcome, k);
      TriesLater(ExplicitAttempts(cfg), AfterExplicit(cfg, table, outcome), k);
    }
  }

  lemma LeftoversTry(cfg: Config, s: State, k: nat)
    requires RetrySync.Leftovers(cfg, s) && k < |cfg.sta|
    ensures Tries(LeftoverAttempts(cfg, s), k) ||
            (s.mode == ScanBased && InScan(s.scan, cfg.sta[k].ssid) && !ConfiguredHidden(cfg.sta, cfg.sta[k].ssid) &&
             s.selected != k)
  {
    var again := if s.scan[0].matches then Try(cfg, s) else [];
    var hidden := HiddenAttempts(cfg, s.mode, s.scan, 0);
    if Unseen(cfg, s.mode, s.scan, k) {
      HiddenTries(cfg, s.mode, s.scan, k);
      TriesLater(again, hidden, k);
      TriesLater(Try(cfg, s), again + hidden, k);
    } else if s.selected == k {
      assert LeftoverAttempts(cfg, s)[0].index == k;
    }
  }

  lemma CycleTries(cfg: Config, s: State, env: Env, outcome: Outcome, k: nat)
    requires BeginsCycle(s) && k < |cfg.sta|
    ensures Tries(CycleAttempts(cfg, s, env, outcome), k) || PassedOver(cfg, s, env, outcome, k)
  {
    if SkipsScan(cfg, s, env) {
      HiddenTries(cfg, BlindRetry, s.scan, k);
    } else if RetrySync.Leftovers(cfg, s) {
      LeftoversTry(cfg, s, k);
    } else {
      var table := TableAtScan(cfg, s);
      SearchTries(cfg, table, outcome, k);
      if s.phase != RestartingAdapter {
        TriesLater(FastAttempts(cfg, s.selected + 1), Search(cfg, table, outcome), k);
      }
    }
  }

  /**
   * A network goes untried in a failing cycle only if scan results showed its SSID, the network is not configured
   * hidden, and the best result was given to another network or to none, or not asked for.
   */
  lemma OnlyOutrankedGoUntried(cfg: Config, s: State, around: Surroundings, results: seq<ScanResult>, outcome: Outcome,
                               k: nat)
    requires Calm(cfg, s) && BeginsCycle(s) && k < |cfg.sta|
    requires Scans(cfg, s, around(s)) ==> Suits(around, AtScan(cfg, s), results, outcome)
    ensures
      var t := FailStep(cfg, s, around, results);
      Calm(cfg, t) &&
      var tried := FailCycle(cfg, t, around, results).attempts;
      |s.attempts| <= |tried| && (Tries(tried[|s.attempts|..], k) || PassedOver(cfg, s, around(s), outcome, k))
  {
    CycleCoverage(cfg, s, around, results, outcome);
    CycleTries(cfg, s, around(s), outcome, k);
    var tried := FailCycle(cfg, FailStep(cfg, s, around, results), around, results).attempts;
    Suffix(s.attempts, CycleAttempts(cfg, s, around(s), outcome), tried);
  }

  lemma Suffix(before: seq<Attempt>, more: seq<Attempt>, all: seq<Attempt>)
    requires all == before + more
    ensures |before| <= |all| && all[|before|..] == more
  {
  }

  /** The first cycle of a start passes over a network in no other ways. */
  predicate StartPassesOver(cfg: Config, s: State, saved: Saved, t: State, env: Env, results: seq<ScanResult>,
                            outcome: Outcome, k: nat)
    requires k < |cfg.sta|
  {
    if StartsFast(cfg, saved) then PassedOver(cfg, t, env, outcome, k)
    else if cfg.HiddenFirst() then Hides(cfg, AfterExplicitFailures(cfg, s.priorities, 0), outcome, k)
    else if AwaitsFirstScan(cfg, t) then Outranked(cfg, s.priorities, results, k)
    else PassedOver(cfg, t, env, outcome, k)
  }

  lemma StartTries(cfg: Config, s: State, saved: Saved, t: State, env: Env, results: seq<ScanResult>, outcome: Outcome,
                   k: nat)
    requires cfg.Valid() && k < |cfg.sta| && (AwaitsFirstScan(cfg, t) || t.phase == ExplicitHidden || BeginsCycle(t))
    requires t.phase == ExplicitHidden ==> !StartsFast(cfg, saved) && cfg.HiddenFirst()
    requires StartsFast(cfg, saved) ==> BeginsCycle(t)
    ensures Tries(StartAttempts(cfg, s, saved, t, env, results, outcome), k) ||
            StartPassesOver(cfg, s, saved, t, env, results, outcome, k)
  {
    if StartsFast(cfg, saved) {
      CycleTries(cfg, t, env, outcome, k);
      TriesLater([FirstAttempt(cfg, saved)], CycleAttempts(cfg, t, env, outcome), k);
    } else if cfg.HiddenFirst() {
      SearchTries(cfg, AfterExplicitFailures(cfg, s.priorities, 0), outcome, k);
    } else if AwaitsFirstScan(cfg, t) {
      ScanTries(cfg, s.priorities, results, k);
    } else {
      CycleTries(cfg, t, env, outcome, k);
    }
  }

  /** No start forgets a network either. */
  lemma OnlyOutrankedGoUntriedAtStart(cfg: Config, s: State, loaded: bool, saved: Saved, env: Env, around: Surroundings,
                                      results: seq<ScanResult>, outcome: Outcome, k: nat)
    requires cfg.Valid() && Inv(cfg, s) && (s.scanDone ==> env.scanStarts || cfg.fastConnect || cfg.HiddenFirst())
    requires SuitsStart(cfg, s, saved, StartUp(cfg, s, loaded, saved, env), around, results, outcome) && k < |cfg.sta|
    ensures
      var t := StartUp(cfg, s, loaded, saved, env);
      Calm(cfg, t) &&
      var tried := FailCycle(cfg, t, around, results).attempts;
      |s.attempts| <= |tried| &&
      (Tries(tried[|s.attempts|..], k) || StartPassesOver(cfg, s, saved, t, around(t), results, outcome, k))
  {
    var t := StartUp(cfg, s, loaded, saved, env);
    StartCoverage(cfg, s, loaded, saved, env, around, results, outcome);
    StartUpCases(cfg, s, loaded, saved, env);
    if !cfg.fastConnect && !cfg.HiddenFirst() {
      StartKeepsFlag(cfg, s, loaded, saved, env);
    }
    StartTries(cfg, s, saved, t, around(t), results, outcome, k);
    Suffix(s.attempts, StartAttempts(cfg, s, saved, t, around(t), results, outcome),
           FailCycle(cfg, t, around, results).attempts);
  }
}
