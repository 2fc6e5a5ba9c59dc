/** Cycles of failures in which the driver starts no scan: every network is tried, and one may pay for nothing. */
module RetryUnstarted {
  import opened WifiTypes
  import opened RetrySpec
  import opened RetryBound
  import opened RetryPhases
  import opened RetryCoverage

  /** The cycle comes to a scan that does not start, and no results decide which networks count as seen. */
  ghost predicate Blind(cfg: Config, s: State, around: Surroundings) {
    && Calm(cfg, s) && BeginsCycle(s) && NoScanStarts(around) && Scans(cfg, s, around(s))
    && !s.scanPending && !s.scanDone && (s.mode == BlindRetry || AtScan(cfg, s).scan == [])
  }

  function Unstarted(cfg: Config, s: State): Outcome { NotStarted(s.mode, AtScan(cfg, s).scan) }

  /** All networks after the hidden prefix, in order. */
  function RestAttempts(cfg: Config): seq<Attempt> { HiddenAttempts(cfg, BlindRetry, [], 0) }

  lemma {:induction false} BlindSeesNothing(cfg: Config, mode: HiddenMode, scan: seq<ScanResult>, i: nat)
    requires mode == BlindRetry || scan == []
    ensures HiddenAttempts(cfg, mode, scan, i) == HiddenAttempts(cfg, BlindRetry, [], i)
    decreases |cfg.sta| - i
  {
    if i < |cfg.sta| {
      BlindSeesNothing(cfg, mode, scan, i + 1);
    }
  }

  lemma {:induction false} AllInPrefix(cfg: Config, i: nat)
    requires HiddenPrefix(cfg.sta) == |cfg.sta|
    ensures HiddenAttempts(cfg, BlindRetry, [], i) == []
    decreases |cfg.sta| - i
  {
    if i < |cfg.sta| {
      AllInPrefix(cfg, i + 1);
    }
  }

  /** What such a cycle tries: each network as a hidden one, after those fast connect goes through. */
  ghost function UnstartedAttempts(cfg: Config, s: State): seq<Attempt> {
    (if s.phase == RestartingAdapter then [] else FastAttempts(cfg, s.selected + 1)) +
    (ExplicitAttempts(cfg) + RestAttempts(cfg))
  }

  function UnstartedPriorities(cfg: Config, s: State): map<Bssid, Int8> {
    if HiddenPrefix(cfg.sta) == |cfg.sta| then TableAtScan(cfg, s)
    else AfterTimeouts(TableAtScan(cfg, s), AtScan(cfg, s).scan)
  }

  lemma SearchesBlindly(cfg: Config, s: State, around: Surroundings)
    requires Blind(cfg, s, around)
    ensures CycleAttempts(cfg, s, around(s), Unstarted(cfg, s)) == UnstartedAttempts(cfg, s)
  {
    var table, outcome := TableAtScan(cfg, s), Unstarted(cfg, s);
    BlindSeesNothing(cfg, s.mode, AtScan(cfg, s).scan, 0);
    if HiddenPrefix(cfg.sta) == |cfg.sta| {
      AllInPrefix(cfg, 0);
    }
    assert Search(cfg, table, outcome) == ExplicitAttempts(cfg) + RestAttempts(cfg);
    assert [] + Search(cfg, table, outcome) == Search(cfg, table, outcome);
  }

  /**
   * While the driver starts no scan, a cycle of failures tries, after the saved networks of fast connect, every
   * network exactly once: the hidden prefix as such, and all others blindly.
   */
  lemma UnstartedCoverage(cfg: Config, s: State, around: Surroundings, results: seq<ScanResult>)
    requires Blind(cfg, s, around)
    ensures
      var t := FailStep(cfg, s, around, results);
      Calm(cfg, t) &&
      Ends(cfg, s, FailCycle(cfg, t, around, results), UnstartedAttempts(cfg, s), UnstartedPriorities(cfg, s))
  {
    CycleCoverage(cfg, s, around, results, Unstarted(cfg, s));
    SearchesBlindly(cfg, s, around);
  }

  /** No network goes untried in such a cycle. */
  lemma UnstartedForgetsNone(cfg: Config, s: State, around: Surroundings, results: seq<ScanResult>, k: nat)
    requires Blind(cfg, s, around) && k < |cfg.sta|
    ensures
      var t := FailStep(cfg, s, around, results);
      Calm(cfg, t) &&
      var tried := FailCycle(cfg, t, around, results).attempts;
      |s.attempts| <= |tried| && Tries(tried[|s.attempts|..], k)
  {
    OnlyOutrankedGoUntried(cfg, s, around, results, Unstarted(cfg, s), k);
  }

  lemma {:induction false} RestIsHidden(cfg: Config, mode: HiddenMode, scan: seq<ScanResult>, i: nat)
    ensures forall a :: a in HiddenAttempts(cfg, mode, scan, i) ==> a.phase == RetryHidden
    decreases |cfg.sta| - i
  {
    if i < |cfg.sta| {
      RestIsHidden(cfg, mode, scan, i + 1);
    }
  }

  /** If a matching result of an earlier scan is at hand, its BSSID loses a point although no scan result is tried. */
  lemma MatchAtHandPaysUntried(cfg: Config, s: State, around: Surroundings, results: seq<ScanResult>)
    requires Blind(cfg, s, around) && NoBssidConfigured(cfg) && HiddenPrefix(cfg.sta) < |cfg.sta|
    requires s.phase == RestartingAdapter && s.scan != [] && s.scan[0].matches
    ensures
      var t := FailStep(cfg, s, around, results);
      Calm(cfg, t) &&
      var u := FailCycle(cfg, t, around, results);
      && u.priorities == AfterTwoFailures(s.priorities, s.scan[0].bssid)
      && |s.attempts| <= |u.attempts|
      && (forall a :: a in u.attempts[|s.attempts|..] ==> a.phase != ScanConnecting)
  {
    UnstartedCoverage(cfg, s, around, results);
    NothingToPenalise(cfg, s);
    NoExplicitPenalties(cfg, s.priorities, 0);
    RestIsHidden(cfg, BlindRetry, [], 0);
    Suffix(s.attempts, UnstartedAttempts(cfg, s),
           FailCycle(cfg, FailStep(cfg, s, around, results), around, results).attempts);
  }
}
