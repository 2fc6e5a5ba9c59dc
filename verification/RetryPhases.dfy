/** What a cycle of nothing but failures tries, phase by phase. */
module RetryPhases {
  import opened Bags
  import opened WifiTypes
  import opened ScanSort
  import opened RetrySpec
  import opened RetryBound

  /** The surroundings during a cycle, as each state is reached. */
  type Surroundings = State -> Env

  ghost predicate ScansStart(around: Surroundings) { forall s :: around(s).scanStarts }

  ghost predicate NoScanStarts(around: Surroundings) { forall s :: !around(s).scanStarts }

  /** What becomes of the scan of a cycle: it brings results; or it does not start, and what is at hand stays. */
  datatype Outcome = Brings(results: seq<ScanResult>) | NotStarted(mode: HiddenMode, kept: seq<ScanResult>)

  /** That is the outcome of a scan asked for in `s` or, with nothing changed about scans, later. */
  ghost predicate Suits(around: Surroundings, s: State, results: seq<ScanResult>, outcome: Outcome) {
    match outcome
    case Brings(brought) => brought == results && (ScansStart(around) || s.scanPending)
    case NotStarted(mode, kept) =>
      NoScanStarts(around) && !s.scanPending && !s.scanDone && s.mode == mode && s.scan == kept
  }

  /** No scan that the driver still runs is left behind in the RetryHidden phase. */
  predicate Calm(cfg: Config, s: State) {
    && cfg.Valid() && Inv(cfg, s)
    && s.link != Off && s.link != Connected
    && (s.phase == RetryHidden && s.link == Scanning ==> !s.scanPending && !s.scanDone)
  }

  /** The next failure, or the next step of a scan that completes with `results`. */
  ghost function FailStep(cfg: Config, s: State, around: Surroundings, results: seq<ScanResult>): State {
    if s.link == Scanning && s.scanDone then ScanFinished(cfg, s, around(s))
    else if s.link == Scanning && s.scanPending then Step(cfg, s, ScanArrived(results))
    else RetryConnect(cfg, s, around(s))
  }

  /** The driver runs no scan and has none to hand over, so the next step of a failing cycle is a failure. */
  predicate Unawaited(s: State) { s.link == Scanning ==> !s.scanPending && !s.scanDone }

  function Stage(s: State): nat {
    if s.link != Scanning then 0 else if s.scanPending then 2 else if s.scanDone then 1 else 0
  }

  predicate Advances(cfg: Config, s: State, t: State) {
    Calm(cfg, t) && (Fuel(cfg, t) < Fuel(cfg, s) || (Fuel(cfg, t) == Fuel(cfg, s) && Stage(t) < Stage(s)))
  }

  /** A failure noticed outside a running scan leaves no running scan behind in RetryHidden. */
  lemma RetryIsCalm(cfg: Config, s: State, env: Env)
    requires Calm(cfg, s) && Unawaited(s)
    ensures Calm(cfg, RetryConnect(cfg, s, env))
    ensures s.phase != RestartingAdapter ==> Advances(cfg, s, RetryConnect(cfg, s, env))
  {
    RetryBurnsFuel(cfg, s, env);
    BurningIsCalm(cfg, s, RetryConnect(cfg, s, env));
  }

  lemma BurningIsCalm(cfg: Config, s: State, t: State)
    requires Calm(cfg, s) && Unawaited(s)
    requires Burns(cfg, s, t)
    ensures Calm(cfg, t) && (s.phase != RestartingAdapter ==> Advances(cfg, s, t))
  {
  }

  lemma TransitionScans(cfg: Config, s: State, next: Phase, env: Env)
    ensures
      var t := TransitionToPhase(cfg, s, next, env).0;
      t.phase == next && (t.link == Off ==> s.link == Off) &&
      (next != ScanConnecting ==> t.scanPending == s.scanPending && t.scanDone == s.scanDone)
  {
  }

  lemma ScanFinishedIsCalm(cfg: Config, s: State, env: Env)
    requires Calm(cfg, s) && s.link == Scanning && s.scanDone && s.scan != []
    ensures Advances(cfg, s, ScanFinished(cfg, s, env))
  {
    ScanFinishedKeepsFuel(cfg, s, env);
    ScanFinishedCases(cfg, s, env);
    var b := Marked(cfg, s, env);
    TransitionScans(cfg, b, RetryHidden, env);
    TransitionScans(cfg, b.(selected := FirstOwner(b.scan[0], cfg.sta)), ScanConnecting, env);
  }

  lemma FailStepAdvances(cfg: Config, s: State, around: Surroundings, results: seq<ScanResult>)
    requires Calm(cfg, s) && s.phase != RestartingAdapter
    ensures Advances(cfg, s, FailStep(cfg, s, around, results))
  {
    if s.link == Scanning && s.scanDone {
      if s.scan == [] {
        RetryIsCalm(cfg, Failing(s, around(s)), around(s));
      } else {
        ScanFinishedIsCalm(cfg, s, around(s));
      }
    } else if s.link == Scanning && s.scanPending {
      StepElse(cfg, s, ScanArrived(results));
    } else {
      RetryIsCalm(cfg, s, around(s));
    }
  }

  /** The whole rest of the cycle, up to the restart of the adapter. */
  ghost function FailCycle(cfg: Config, s: State, around: Surroundings, results: seq<ScanResult>): (t: State)
    requires Calm(cfg, s)
    ensures t.phase == RestartingAdapter && Calm(cfg, t)
    decreases Fuel(cfg, s), Stage(s)
  {
    if s.phase == RestartingAdapter then s
    else
      FailStepAdvances(cfg, s, around, results);
      FuelIsBounded(cfg, s);
      FailCycle(cfg, FailStep(cfg, s, around, results), around, results)
  }

  lemma Unroll(cfg: Config, s: State, around: Surroundings, results: seq<ScanResult>)
    requires Calm(cfg, s) && s.phase != RestartingAdapter
    ensures Calm(cfg, FailStep(cfg, s, around, results))
    ensures FailCycle(cfg, s, around, results) ==
            FailCycle(cfg, FailStep(cfg, s, around, results), around, results)
  {
    FailStepAdvances(cfg, s, around, results);
    FuelIsBounded(cfg, s);
  }

  /** Before the scan, the next step of a failing cycle is a failed attempt. */
  lemma UnrollRetry(cfg: Config, s: State, around: Surroundings, results: seq<ScanResult>) returns (t: State)
    requires Calm(cfg, s) && s.phase != RestartingAdapter && Unawaited(s)
    ensures t == RetryConnect(cfg, s, around(s)) && Calm(cfg, t)
    ensures FailCycle(cfg, s, around, results) == FailCycle(cfg, t, around, results)
  {
    Unroll(cfg, s, around, results);
    t := FailStep(cfg, s, around, results);
  }

  // ---- What a cycle is expected to try ----

  function Probe(ap: Ap): Ap { ap.(bssid := 0, channel := 0) }

  /** The hidden networks the configuration starts with, in order. */
  ghost function ExplicitAttempts(cfg: Config): seq<Attempt> {
    seq(HiddenPrefix(cfg.sta), i requires 0 <= i < HiddenPrefix(cfg.sta) =>
      Attempt(ExplicitHidden, i, Probe(cfg.sta[i])))
  }

  /** A later network whose SSID is configured hidden somewhere or did not show up in the scan; blindly, any. */
  predicate Unseen(cfg: Config, mode: HiddenMode, scan: seq<ScanResult>, i: nat)
    requires i < |cfg.sta|
  {
    HiddenPrefix(cfg.sta) <= i && (mode == BlindRetry || !SsidSeen(cfg.sta, scan, cfg.sta[i].ssid))
  }

  function HiddenAttempts(cfg: Config, mode: HiddenMode, scan: seq<ScanResult>, i: nat): seq<Attempt>
    decreases |cfg.sta| - i
  {
    if i >= |cfg.sta| then []
    else if Unseen(cfg, mode, scan, i) then
      [Attempt(RetryHidden, i, Probe(cfg.sta[i]))] + HiddenAttempts(cfg, mode, scan, i + 1)
    else HiddenAttempts(cfg, mode, scan, i + 1)
  }

  /** The results of a scan as they are marked and sorted against the priorities known so far. */
  function Ranked(cfg: Config, table: map<Bssid, Int8>, results: seq<ScanResult>): seq<ScanResult> {
    InsertionSort(Track(cfg.sta, Unmarked(results), table).0)
  }

  function Known(cfg: Config, table: map<Bssid, Int8>, results: seq<ScanResult>): map<Bssid, Int8> {
    Track(cfg.sta, Unmarked(results), table).1
  }

  predicate HasMatch(cfg: Config, ranked: seq<ScanResult>) {
    ranked != [] && ranked[0].matches && FirstOwner(ranked[0], cfg.sta) < |cfg.sta|
  }

  /** The best result is tried twice, if any result belongs to a configured network. */
  function ScanAttempts(cfg: Config, ranked: seq<ScanResult>): seq<Attempt> {
    if !HasMatch(cfg, ranked) then []
    else
      var i := FirstOwner(ranked[0], cfg.sta);
      var a := Attempt(ScanConnecting, i, WithScan(cfg.sta[i], ranked[0]));
      [a, a]
  }

  /** Two failures of the best result cost it one point. */
  function AfterTwoFailures(table: map<Bssid, Int8>, b: Bssid): map<Bssid, Int8> {
    var t := ClearIfAllMin(table);
    ClearIfAllMin(t[b := Lowered(GetPriority(t, b))])
  }

  function PrioritiesAfter(cfg: Config, table: map<Bssid, Int8>, results: seq<ScanResult>): map<Bssid, Int8> {
    var ranked := Ranked(cfg, table, results);
    var known := Known(cfg, table, results);
    if HasMatch(cfg, ranked) then AfterTwoFailures(known, ranked[0].bssid) else known
  }

  predicate NoBssidConfigured(cfg: Config) {
    forall k :: 0 <= k < |cfg.sta| ==> !cfg.sta[k].HasBssid()
  }

  /** `t` ends the cycle that `s` is in, having tried `more` and left the priorities at `table`. */
  ghost predicate Ends(cfg: Config, s: State, t: State, more: seq<Attempt>, table: map<Bssid, Int8>) {
    && t.phase == RestartingAdapter && Inv(cfg, t)
    && t.attempts == s.attempts + more
    && (NoBssidConfigured(cfg) ==> t.priorities == table)
  }

  // ---- The RetryHidden phase ----

  lemma {:induction false} HiddenAttemptsFromNext(cfg: Config, s: State, i: nat)
    ensures
      var next := NextCandidate(cfg, s, i);
      HiddenAttempts(cfg, s.mode, s.scan, i) ==
        if next == -1 then []
        else [Attempt(RetryHidden, next, Probe(cfg.sta[next]))] + HiddenAttempts(cfg, s.mode, s.scan, next + 1)
    decreases |cfg.sta| - i
  {
    if i < |cfg.sta| && !Candidate(cfg, s, i) {
      HiddenAttemptsFromNext(cfg, s, i + 1);
    }
  }

  /** `t` comes after `s` within one cycle: it has tried `more`, and left the priorities at `table`. */
  ghost predicate Follows(cfg: Config, s: State, t: State, more: seq<Attempt>, table: map<Bssid, Int8>) {
    t.attempts == s.attempts + more && (NoBssidConfigured(cfg) ==> t.priorities == table)
  }

  lemma Chain(cfg: Config, s: State, t: State, u: State, more: seq<Attempt>, rest: seq<Attempt>,
              table: map<Bssid, Int8>, table': map<Bssid, Int8>)
    requires Follows(cfg, s, t, more, table) && Ends(cfg, t, u, rest, table')
    ensures Ends(cfg, s, u, more + rest, table')
  {
    assert s.attempts + (more + rest) == (s.attempts + more) + rest;
  }

  lemma NothingToPenalise(cfg: Config, s: State)
    requires NoBssidConfigured(cfg) && s.phase != ScanConnecting
    ensures Penalise(cfg, s) == s
  {
  }

  /** The candidate the RetryHidden phase turns to next. */
  function Successor(cfg: Config, s: State): Index {
    if s.selected == -1 then -1 else NextCandidate(cfg, s, s.selected + 1)
  }

  lemma LastHiddenFails(cfg: Config, s: State, env: Env)
    requires Calm(cfg, s) && s.phase == RetryHidden && Successor(cfg, s) == -1
    ensures MoveOn(cfg, s, env).phase == RestartingAdapter
    ensures MoveOn(cfg, s, env).attempts == s.attempts && MoveOn(cfg, s, env).priorities == s.priorities
  {
    assert DetermineNextPhase(cfg, s, env) == RestartingAdapter;
  }

  lemma HiddenFails(cfg: Config, s: State, env: Env)
    requires Calm(cfg, s) && s.phase == RetryHidden && Successor(cfg, s) != -1
    ensures
      var next := Successor(cfg, s);
      MoveOn(cfg, s, env) == StartConnecting(s.(selected := next, numRetried := 0), Probe(cfg.sta[next]), env)
  {
    assert DetermineNextPhase(cfg, s, env) == RetryHidden;
  }

  function HiddenRest(cfg: Config, s: State): seq<Attempt> {
    if s.selected == -1 then [] else HiddenAttempts(cfg, s.mode, s.scan, s.selected + 1)
  }

  lemma HiddenMove(cfg: Config, s: State, env: Env) returns (more: seq<Attempt>)
    requires Calm(cfg, s) && s.phase == RetryHidden
    ensures
      var t := MoveOn(cfg, s, env);
      && t.attempts == s.attempts + more && t.priorities == s.priorities
      && (if t.phase == RetryHidden then HiddenRest(cfg, s) == more + HiddenRest(cfg, t)
          else t.phase == RestartingAdapter && HiddenRest(cfg, s) == more)
  {
    if s.selected != -1 {
      HiddenAttemptsFromNext(cfg, s, s.selected + 1);
    }
    var next := Successor(cfg, s);
    if next == -1 {
      LastHiddenFails(cfg, s, env);
      more := [];
    } else {
      HiddenFails(cfg, s, env);
      more := [Attempt(RetryHidden, next, Probe(cfg.sta[next]))];
    }
  }

  /** One failure in the RetryHidden phase takes one attempt off those still to come. */
  lemma HiddenStep(cfg: Config, s: State, env: Env) returns (more: seq<Attempt>)
    requires Calm(cfg, s) && s.phase == RetryHidden
    ensures
      var t := RetryConnect(cfg, s, env);
      && Follows(cfg, s, t, more, s.priorities)
      && (if t.phase == RetryHidden then HiddenRest(cfg, s) == more + HiddenRest(cfg, t)
          else t.phase == RestartingAdapter && HiddenRest(cfg, s) == more)
  {
    var p := Penalise(cfg, s);
    assert p == s.(priorities := p.priorities);
    if NoBssidConfigured(cfg) {
      NothingToPenalise(cfg, s);
    }
    more := HiddenMove(cfg, p, env);
  }

  lemma {:induction false} HiddenPhase(cfg: Config, s: State, around: Surroundings, results: seq<ScanResult>)
    requires Calm(cfg, s) && s.phase == RetryHidden
    ensures Ends(cfg, s, FailCycle(cfg, s, around, results), HiddenRest(cfg, s), s.priorities)
    decreases Fuel(cfg, s), Stage(s)
  {
    FailStepAdvances(cfg, s, around, results);
    FuelIsBounded(cfg, s);
    var t := FailStep(cfg, s, around, results);
    var more := HiddenStep(cfg, s, around(s));
    if t.phase == RetryHidden {
      HiddenPhase(cfg, t, around, results);
      Chain(cfg, s, t, FailCycle(cfg, t, around, results), more, HiddenRest(cfg, t), s.priorities, t.priorities);
    }
  }

  // ---- The ScanConnecting phase ----

  /** One attempt at the best scan result, if a network is selected for it. */
  function Try(cfg: Config, s: State): seq<Attempt>
    requires s.scan != []
  {
    if !HasSelected(cfg, s) then []
    else [Attempt(ScanConnecting, s.selected, WithScan(cfg.sta[s.selected], s.scan[0]))]
  }

  lemma ScanFails(cfg: Config, s: State, env: Env)
    requires Calm(cfg, s) && s.phase == ScanConnecting && Matched(s) && s.numRetried == 0
    ensures
      var t := MoveOn(cfg, s, env);
      && t.phase == ScanConnecting && t.numRetried == 1 && t.selected == s.selected
      && (t.link == Scanning ==> s.link == Scanning) && t.scanPending == s.scanPending && t.scanDone == s.scanDone
      && t.scan == s.scan && t.mode == s.mode && t.priorities == s.priorities
      && t.attempts == s.attempts + Try(cfg, s)
  {
    assert DetermineNextPhase(cfg, s, env) == ScanConnecting;
  }

  /** The RetryHidden phase has been entered in `t`, and its first candidate tried. */
  predicate EntersHidden(cfg: Config, s: State, t: State) {
    && t.phase == RetryHidden && t.selected == NextCandidate(cfg, t, 0)
    && t.attempts == s.attempts +
       (if t.selected == -1 then [] else [Attempt(RetryHidden, t.selected, Probe(cfg.sta[t.selected]))])
  }

  lemma HiddenEntered(cfg: Config, s: State, env: Env)
    requires Calm(cfg, s) && s.phase != RetryHidden && DetermineNextPhase(cfg, s, env) == RetryHidden
    ensures
      var t := MoveOn(cfg, s, env);
      EntersHidden(cfg, s, t) && t.scan == s.scan && t.mode == s.mode && t.priorities == s.priorities
  {
    NextCandidateFrame(cfg, s.(phase := RetryHidden, numRetried := 0), MoveOn(cfg, s, env), 0);
  }

  /** A cycle that reaches RetryHidden goes through all its candidates. */
  lemma EnteredHidden(cfg: Config, s: State, t: State, around: Surroundings, results: seq<ScanResult>)
    requires Calm(cfg, t) && EntersHidden(cfg, s, t)
    ensures Ends(cfg, s, FailCycle(cfg, t, around, results), HiddenAttempts(cfg, t.mode, t.scan, 0), t.priorities)
  {
    var first := if t.selected == -1 then [] else [Attempt(RetryHidden, t.selected, Probe(cfg.sta[t.selected]))];
    assert HiddenAttempts(cfg, t.mode, t.scan, 0) == first + HiddenRest(cfg, t) by {
      HiddenAttemptsFromNext(cfg, t, 0);
    }
    HiddenPhase(cfg, t, around, results);
    Chain(cfg, s, t, FailCycle(cfg, t, around, results), first, HiddenRest(cfg, t), t.priorities, t.priorities);
  }

  lemma ScanGivenUp(cfg: Config, s: State, env: Env)
    requires Calm(cfg, s) && s.phase == ScanConnecting && Matched(s) && s.numRetried == 1
    ensures
      var t := MoveOn(cfg, s, env);
      && t.priorities == s.priorities
      && (if NextCandidate(cfg, s, 0) == -1 then t.phase == RestartingAdapter && t.attempts == s.attempts
          else EntersHidden(cfg, s, t) && t.mode == s.mode && t.scan == s.scan)
  {
    if NextCandidate(cfg, s, 0) == -1 {
      assert DetermineNextPhase(cfg, s, env) == RestartingAdapter;
    } else {
      assert DetermineNextPhase(cfg, s, env) == RetryHidden;
      HiddenEntered(cfg, s, env);
    }
  }

  lemma ScanPenalty(cfg: Config, s: State)
    requires s.phase == ScanConnecting && s.scan != []
    ensures Penalise(cfg, s) == s.(priorities := ClearIfAllMin(
      if s.numRetried >= 1 then s.priorities[s.scan[0].bssid := Lowered(GetPriority(s.priorities, s.scan[0].bssid))]
      else s.priorities))
  {
  }

  /** The second attempt at the best result has been made and fails. */
  lemma LastScanAttempt(cfg: Config, s: State, around: Surroundings, results: seq<ScanResult>)
    requires Calm(cfg, s) && s.phase == ScanConnecting && Matched(s)
    requires s.numRetried == 1 && Unawaited(s)
    ensures
      var b := s.scan[0].bssid;
      Ends(cfg, s, FailCycle(cfg, s, around, results), HiddenAttempts(cfg, s.mode, s.scan, 0),
           ClearIfAllMin(s.priorities[b := Lowered(GetPriority(s.priorities, b))]))
  {
    FailStepAdvances(cfg, s, around, results);
    FuelIsBounded(cfg, s);
    ScanPenalty(cfg, s);
    var p := Penalise(cfg, s);
    var t := FailStep(cfg, s, around, results);
    ScanGivenUp(cfg, p, around(s));
    HiddenAttemptsFromNext(cfg, p, 0);
    if NextCandidate(cfg, p, 0) != -1 {
      EnteredHidden(cfg, s, t, around, results);
    }
  }

  /** The first attempt at the best result has been made. */
  lemma ScanAttemptsFail(cfg: Config, s: State, around: Surroundings, results: seq<ScanResult>)
    requires Calm(cfg, s) && s.phase == ScanConnecting && Matched(s)
    requires s.numRetried == 0 && Unawaited(s)
    ensures Ends(cfg, s, FailCycle(cfg, s, around, results), Try(cfg, s) + HiddenAttempts(cfg, s.mode, s.scan, 0),
                 AfterTwoFailures(s.priorities, s.scan[0].bssid))
  {
    FailStepAdvances(cfg, s, around, results);
    FuelIsBounded(cfg, s);
    ScanPenalty(cfg, s);
    var p := Penalise(cfg, s);
    var t := FailStep(cfg, s, around, results);
    ScanFails(cfg, p, around(s));
    LastScanAttempt(cfg, t, around, results);
    Chain(cfg, s, t, FailCycle(cfg, t, around, results), Try(cfg, s), HiddenAttempts(cfg, s.mode, s.scan, 0), p.priorities,
          AfterTwoFailures(s.priorities, s.scan[0].bssid));
  }

  // ---- Results at hand ----

  function AfterLeftovers(s: State): map<Bssid, Int8>
    requires s.scan != []
  {
    if s.scan[0].matches then AfterTwoFailures(s.priorities, s.scan[0].bssid) else ClearIfAllMin(s.priorities)
  }

  lemma UnmatchedLeftoverFails(cfg: Config, s: State, env: Env)
    requires Calm(cfg, s) && s.phase == ScanConnecting && s.numRetried == 0 && s.scan != [] && !s.scan[0].matches
    ensures
      var t := RetryConnect(cfg, s, env);
      && EntersHidden(cfg, s, t) && t.mode == s.mode && t.scan == s.scan
      && t.priorities == ClearIfAllMin(s.priorities)
  {
    ScanPenalty(cfg, s);
    var p := Penalise(cfg, s);
    assert DetermineNextPhase(cfg, p, env) == RetryHidden;
    HiddenEntered(cfg, p, env);
  }

  /** The leftover results have been tried once in `s`. */
  lemma LeftoverTriedOnce(cfg: Config, s: State, around: Surroundings, results: seq<ScanResult>)
    requires Calm(cfg, s) && s.phase == ScanConnecting && s.numRetried == 0 && Unawaited(s) && s.scan != []
    ensures Ends(cfg, s, FailCycle(cfg, s, around, results),
                 (if s.scan[0].matches then Try(cfg, s) else []) + HiddenAttempts(cfg, s.mode, s.scan, 0),
                 AfterLeftovers(s))
  {
    if s.scan[0].matches {
      ScanAttemptsFail(cfg, s, around, results);
    } else {
      var t := UnrollRetry(cfg, s, around, results);
      UnmatchedLeftoverFails(cfg, s, around(s));
      EnteredHidden(cfg, s, t, around, results);
      assert [] + HiddenAttempts(cfg, s.mode, s.scan, 0) == HiddenAttempts(cfg, s.mode, s.scan, 0);
    }
  }

  // ---- The scan ----

  lemma {:induction false} TrackKeepsSsids(sta: seq<Ap>, scan: seq<ScanResult>, table: map<Bssid, Int8>)
    ensures forall k :: 0 <= k < |scan| ==> Track(sta, scan, table).0[k].ssid == scan[k].ssid
  {
    if scan != [] {
      TrackKeepsSsids(sta, scan[..|scan| - 1], table);
    }
  }

  lemma InScanByMembers(scan: seq<ScanResult>, scan': seq<ScanResult>, ssid: string)
    requires multiset(scan) == multiset(scan') && InScan(scan, ssid)
    ensures InScan(scan', ssid)
  {
    var k :| 0 <= k < |scan| && scan[k].ssid == ssid;
    var j := Locate(scan, k, scan');
  }

  lemma SortKeepsSsids(scan: seq<ScanResult>, ssid: string)
    ensures InScan(InsertionSort(scan), ssid) <==> InScan(scan, ssid)
  {
    SortIsStablePermutation(scan);
    if InScan(scan, ssid) { InScanByMembers(scan, InsertionSort(scan), ssid); }
    if InScan(InsertionSort(scan), ssid) { InScanByMembers(InsertionSort(scan), scan, ssid); }
  }

  lemma SameSsids(scan: seq<ScanResult>, scan': seq<ScanResult>, ssid: string)
    requires |scan| == |scan'| && forall k :: 0 <= k < |scan| ==> scan[k].ssid == scan'[k].ssid
    ensures InScan(scan, ssid) <==> InScan(scan', ssid)
  {
    if k :| 0 <= k < |scan| && scan[k].ssid == ssid { assert scan'[k].ssid == ssid; }
    if k :| 0 <= k < |scan'| && scan'[k].ssid == ssid { assert scan[k].ssid == ssid; }
  }

  lemma RankedKeepsSsids(cfg: Config, table: map<Bssid, Int8>, results: seq<ScanResult>, ssid: string)
    ensures InScan(Ranked(cfg, table, results), ssid) <==> InScan(results, ssid)
  {
    var unmarked := Unmarked(results);
    var tracked := Track(cfg.sta, unmarked, table).0;
    TrackKeepsSsids(cfg.sta, unmarked, table);
    SortKeepsSsids(tracked, ssid);
    SameSsids(tracked, unmarked, ssid);
    SameSsids(unmarked, results, ssid);
  }

  lemma {:induction false} HiddenAttemptsBySsid(cfg: Config, mode: HiddenMode, scan: seq<ScanResult>,
                                                scan': seq<ScanResult>, i: nat)
    requires forall ssid :: InScan(scan, ssid) <==> InScan(scan', ssid)
    ensures HiddenAttempts(cfg, mode, scan, i) == HiddenAttempts(cfg, mode, scan', i)
    decreases |cfg.sta| - i
  {
    if i < |cfg.sta| {
      assert InScan(scan, cfg.sta[i].ssid) <==> InScan(scan', cfg.sta[i].ssid);
      HiddenAttemptsBySsid(cfg, mode, scan, scan', i + 1);
    }
  }

  lemma EmptyScanFails(cfg: Config, s: State, env: Env)
    requires Calm(cfg, s) && s.phase == ScanConnecting && s.scan == [] && s.selected == -1
    ensures
      var t := RetryConnect(cfg, s, env);
      EntersHidden(cfg, s, t) && t.mode == s.mode && t.scan == [] && t.priorities == s.priorities
  {
    assert Penalise(cfg, s) == s;
    assert DetermineNextPhase(cfg, s, env) == RetryHidden;
    HiddenEntered(cfg, s, env);
  }

  /** The phases in which a cycle's scan runs. */
  predicate ScansIn(phase: Phase) { phase == ScanConnecting || phase == InitialConnect }

  lemma UnmatchedScanFails(cfg: Config, s: State, env: Env)
    requires Calm(cfg, s) && ScansIn(s.phase) && s.scan != [] && !FoundMatch(cfg, Marked(cfg, s, env))
    ensures
      var t := ScanFinished(cfg, s, env);
      var b := Marked(cfg, s, env);
      EntersHidden(cfg, s, t) && t.mode == ScanBased && t.scan == b.scan && t.priorities == b.priorities
  {
    var b := Marked(cfg, s, env);
    ScanFinishedCases(cfg, s, env);
    NextCandidateFrame(cfg, b.(phase := RetryHidden, numRetried := 0), ScanFinished(cfg, s, env), 0);
  }

  lemma MatchedScanConnects(cfg: Config, s: State, env: Env)
    requires Calm(cfg, s) && ScansIn(s.phase) && s.numRetried == 0
    requires s.scan != [] && FoundMatch(cfg, Marked(cfg, s, env))
    ensures
      var b := Marked(cfg, s, env);
      var i := FirstOwner(b.scan[0], cfg.sta);
      ScanFinished(cfg, s, env) ==
        StartConnecting(b.(phase := ScanConnecting, selected := i), WithScan(cfg.sta[i], b.scan[0]), env)
  {
    ScanFinishedCases(cfg, s, env);
  }

  /** What is tried from the start of a scan to the end of the cycle. */
  function AfterScan(cfg: Config, table: map<Bssid, Int8>, results: seq<ScanResult>): seq<Attempt> {
    ScanAttempts(cfg, Ranked(cfg, table, results)) + HiddenAttempts(cfg, ScanBased, results, 0)
  }

  lemma HiddenAttemptsOfRanked(cfg: Config, table: map<Bssid, Int8>, results: seq<ScanResult>)
    ensures HiddenAttempts(cfg, ScanBased, Ranked(cfg, table, results), 0) == HiddenAttempts(cfg, ScanBased, results, 0)
  {
    forall ssid ensures InScan(Ranked(cfg, table, results), ssid) <==> InScan(results, ssid) {
      RankedKeepsSsids(cfg, table, results, ssid);
    }
    HiddenAttemptsBySsid(cfg, ScanBased, Ranked(cfg, table, results), results, 0);
  }

  predicate Delivered(cfg: Config, s: State, results: seq<ScanResult>) {
    && Calm(cfg, s) && ScansIn(s.phase) && s.link == Scanning
    && s.scanDone && s.scan == Unmarked(results) && s.numRetried == 0
  }

  lemma AfterMatchedScan(cfg: Config, table: map<Bssid, Int8>, results: seq<ScanResult>)
    requires HasMatch(cfg, Ranked(cfg, table, results))
    ensures
      var best := Ranked(cfg, table, results)[0];
      var i := FirstOwner(best, cfg.sta);
      var a := Attempt(ScanConnecting, i, WithScan(cfg.sta[i], best));
      AfterScan(cfg, table, results) == [a] + ([a] + HiddenAttempts(cfg, ScanBased, results, 0))
  {
    var best := Ranked(cfg, table, results)[0];
    var i := FirstOwner(best, cfg.sta);
    Twice(Attempt(ScanConnecting, i, WithScan(cfg.sta[i], best)), HiddenAttempts(cfg, ScanBased, results, 0));
  }

  lemma Twice(a: Attempt, rest: seq<Attempt>)
    ensures [a] + ([a] + rest) == [a, a] + rest
  {
  }

  /** The best result has been connected to in `t`. */
  lemma MatchedScanTail(cfg: Config, s: State, t: State, around: Surroundings, results: seq<ScanResult>, i: nat)
    requires Calm(cfg, t) && t.phase == ScanConnecting && t.mode == ScanBased && t.link != Scanning
    requires t.scan == Ranked(cfg, s.priorities, results) && HasMatch(cfg, t.scan)
    requires i == FirstOwner(t.scan[0], cfg.sta) && t.selected == i && t.numRetried == 0
    requires t.priorities == Known(cfg, s.priorities, results)
    requires t.attempts == s.attempts + [Attempt(ScanConnecting, i, WithScan(cfg.sta[i], t.scan[0]))]
    ensures Ends(cfg, s, FailCycle(cfg, t, around, results), AfterScan(cfg, s.priorities, results),
                 PrioritiesAfter(cfg, s.priorities, results))
  {
    HiddenAttemptsOfRanked(cfg, s.priorities, results);
    ScanAttemptsFail(cfg, t, around, results);
    AfterMatchedScan(cfg, s.priorities, results);
    var a := Attempt(ScanConnecting, i, WithScan(cfg.sta[i], t.scan[0]));
    Chain(cfg, s, t, FailCycle(cfg, t, around, results), [a], [a] + HiddenAttempts(cfg, ScanBased, results, 0), t.priorities,
          AfterTwoFailures(t.priorities, t.scan[0].bssid));
  }

  lemma MatchedScanDelivered(cfg: Config, s: State, around: Surroundings, results: seq<ScanResult>)
    requires Delivered(cfg, s, results) && HasMatch(cfg, Ranked(cfg, s.priorities, results))
    ensures Ends(cfg, s, FailCycle(cfg, s, around, results), AfterScan(cfg, s.priorities, results),
                 PrioritiesAfter(cfg, s.priorities, results))
  {
    Unroll(cfg, s, around, results);
    MatchedScanConnects(cfg, s, around(s));
    MatchedScanTail(cfg, s, ScanFinished(cfg, s, around(s)), around, results,
                    FirstOwner(Ranked(cfg, s.priorities, results)[0], cfg.sta));
  }

  /** The RetryHidden phase has been entered in `t` because the scan found no configured network. */
  lemma UnmatchedScanTail(cfg: Config, s: State, t: State, around: Surroundings, results: seq<ScanResult>)
    requires Calm(cfg, t) && EntersHidden(cfg, s, t) && t.mode == ScanBased
    requires t.scan == Ranked(cfg, s.priorities, results) && !HasMatch(cfg, t.scan)
    requires t.priorities == Known(cfg, s.priorities, results)
    ensures Ends(cfg, s, FailCycle(cfg, t, around, results), AfterScan(cfg, s.priorities, results),
                 PrioritiesAfter(cfg, s.priorities, results))
  {
    HiddenAttemptsOfRanked(cfg, s.priorities, results);
    EnteredHidden(cfg, s, t, around, results);
    assert [] + HiddenAttempts(cfg, ScanBased, results, 0) == HiddenAttempts(cfg, ScanBased, results, 0);
  }

  lemma EmptyScanDelivered(cfg: Config, s: State, around: Surroundings, results: seq<ScanResult>)
    requires Delivered(cfg, s, results) && results == []
    requires s.phase == ScanConnecting && s.selected == -1
    ensures Ends(cfg, s, FailCycle(cfg, s, around, results), AfterScan(cfg, s.priorities, results),
                 PrioritiesAfter(cfg, s.priorities, results))
  {
    Unroll(cfg, s, around, results);
    EmptyScanFails(cfg, Failing(s, around(s)), around(s));
    UnmatchedScanTail(cfg, s, RetryConnect(cfg, Failing(s, around(s)), around(s)), around, results);
  }

  lemma UnmatchedScanDelivered(cfg: Config, s: State, around: Surroundings, results: seq<ScanResult>)
    requires Delivered(cfg, s, results)
    requires results != [] && !HasMatch(cfg, Ranked(cfg, s.priorities, results))
    ensures Ends(cfg, s, FailCycle(cfg, s, around, results), AfterScan(cfg, s.priorities, results),
                 PrioritiesAfter(cfg, s.priorities, results))
  {
    Unroll(cfg, s, around, results);
    UnmatchedScanFails(cfg, s, around(s));
    UnmatchedScanTail(cfg, s, ScanFinished(cfg, s, around(s)), around, results);
  }

  lemma ScanDelivered(cfg: Config, s: State, around: Surroundings, results: seq<ScanResult>)
    requires Delivered(cfg, s, results)
    requires results == [] ==> s.phase == ScanConnecting && s.selected == -1
    ensures Ends(cfg, s, FailCycle(cfg, s, around, results), AfterScan(cfg, s.priorities, results),
                 PrioritiesAfter(cfg, s.priorities, results))
  {
    if results == [] {
      EmptyScanDelivered(cfg, s, around, results);
    } else if HasMatch(cfg, Ranked(cfg, s.priorities, results)) {
      MatchedScanDelivered(cfg, s, around, results);
    } else {
      UnmatchedScanDelivered(cfg, s, around, results);
    }
  }

  lemma ScanStarted(cfg: Config, s: State, around: Surroundings, results: seq<ScanResult>)
    requires Calm(cfg, s) && s.phase == ScanConnecting && s.link == Scanning
    requires s.scanPending && s.selected == -1 && s.numRetried == 0
    ensures Ends(cfg, s, FailCycle(cfg, s, around, results), AfterScan(cfg, s.priorities, results),
                 PrioritiesAfter(cfg, s.priorities, results))
  {
    FailStepAdvances(cfg, s, around, results);
    FuelIsBounded(cfg, s);
    ScanDelivered(cfg, FailStep(cfg, s, around, results), around, results);
  }

  // ---- A scan that does not start ----

  /** The priorities once the timeouts of such a scan are over: a matching result at hand is charged untried. */
  function AfterTimeouts(table: map<Bssid, Int8>, kept: seq<ScanResult>): map<Bssid, Int8> {
    if kept == [] then table
    else if kept[0].matches then AfterTwoFailures(table, kept[0].bssid)
    else ClearIfAllMin(table)
  }

  lemma UnstartedScanFails(cfg: Config, s: State, around: Surroundings, results: seq<ScanResult>)
    requires Calm(cfg, s) && s.phase == ScanConnecting && s.link == Scanning && Unawaited(s)
    requires s.selected == -1 && s.numRetried == 0
    ensures Ends(cfg, s, FailCycle(cfg, s, around, results), HiddenAttempts(cfg, s.mode, s.scan, 0),
                 AfterTimeouts(s.priorities, s.scan))
  {
    if s.scan == [] {
      var t := UnrollRetry(cfg, s, around, results);
      EmptyScanFails(cfg, s, around(s));
      EnteredHidden(cfg, s, t, around, results);
    } else {
      LeftoverTriedOnce(cfg, s, around, results);
      assert [] + HiddenAttempts(cfg, s.mode, s.scan, 0) == HiddenAttempts(cfg, s.mode, s.scan, 0);
    }
  }

  function AfterOutcome(cfg: Config, table: map<Bssid, Int8>, outcome: Outcome): seq<Attempt> {
    match outcome
    case Brings(results) => AfterScan(cfg, table, results)
    case NotStarted(mode, kept) => HiddenAttempts(cfg, mode, kept, 0)
  }

  function PrioritiesAfterOutcome(cfg: Config, table: map<Bssid, Int8>, outcome: Outcome): map<Bssid, Int8> {
    match outcome
    case Brings(results) => PrioritiesAfter(cfg, table, results)
    case NotStarted(_, kept) => AfterTimeouts(table, kept)
  }

  /** Nothing about scans has changed. */
  predicate Undisturbed(s: State, t: State) {
    t.mode == s.mode && t.scan == s.scan && t.scanPending == s.scanPending && t.scanDone == s.scanDone
  }

  /** In `t` a scan has been asked for. */
  predicate Asks(s: State, t: State, starts: bool) {
    && t.phase == ScanConnecting && t.link == Scanning && t.selected == -1 && t.numRetried == 0
    && (if starts then t.scanPending else Undisturbed(s, t))
  }

  lemma AskedScanFails(cfg: Config, s: State, t: State, around: Surroundings, results: seq<ScanResult>, outcome: Outcome)
    requires Calm(cfg, t) && Asks(s, t, around(s).scanStarts) && Suits(around, s, results, outcome)
    ensures Ends(cfg, t, FailCycle(cfg, t, around, results), AfterOutcome(cfg, t.priorities, outcome),
                 PrioritiesAfterOutcome(cfg, t.priorities, outcome))
  {
    match outcome
    case Brings(_) => ScanStarted(cfg, t, around, results);
    case NotStarted(_, _) => UnstartedScanFails(cfg, t, around, results);
  }

  // ---- The ExplicitHidden phase ----

  /** The hidden prefix is done: a scan has been asked for, or there is nothing to scan for. */
  predicate LeavesExplicit(cfg: Config, s: State, t: State, env: Env) {
    t.attempts == s.attempts &&
    if HiddenPrefix(cfg.sta) == |cfg.sta| then t.phase == RestartingAdapter else Asks(s, t, env.scanStarts)
  }

  /** `t` has tried hidden network `i` of the prefix. */
  predicate TriesExplicit(cfg: Config, s: State, t: State, i: nat) {
    && t.phase == ExplicitHidden && t.selected == i < HiddenPrefix(cfg.sta) && Undisturbed(s, t)
    && t.attempts == s.attempts + [Attempt(ExplicitHidden, i, Probe(cfg.sta[i]))]
  }

  lemma ExplicitFails(cfg: Config, s: State, env: Env)
    requires Calm(cfg, s) && s.phase == ExplicitHidden && s.selected + 1 < HiddenPrefix(cfg.sta)
    ensures MoveOn(cfg, s, env) ==
            StartConnecting(s.(selected := s.selected + 1, numRetried := 0), Probe(cfg.sta[s.selected + 1]), env)
  {
    HiddenPrefixIsMaximal(cfg.sta);
    assert DetermineNextPhase(cfg, s, env) == ExplicitHidden;
  }

  lemma LastExplicitFails(cfg: Config, s: State, env: Env)
    requires Calm(cfg, s) && s.phase == ExplicitHidden && s.selected + 1 == HiddenPrefix(cfg.sta)
    ensures
      var t := MoveOn(cfg, s, env);
      LeavesExplicit(cfg, s, t, env) && t.priorities == s.priorities
  {
    HiddenPrefixIsMaximal(cfg.sta);
    assert DetermineNextPhase(cfg, s, env) ==
      if HiddenPrefix(cfg.sta) == |cfg.sta| then RestartingAdapter else ScanConnecting;
  }

  /** What is tried after the hidden networks at the front: nothing more when there are no others. */
  function AfterExplicit(cfg: Config, table: map<Bssid, Int8>, outcome: Outcome): seq<Attempt> {
    if HiddenPrefix(cfg.sta) == |cfg.sta| then [] else AfterOutcome(cfg, table, outcome)
  }

  function PrioritiesAfterCycle(cfg: Config, table: map<Bssid, Int8>, outcome: Outcome): map<Bssid, Int8> {
    if HiddenPrefix(cfg.sta) == |cfg.sta| then table else PrioritiesAfterOutcome(cfg, table, outcome)
  }

  /** The priorities once a network's one attempt outside ScanConnecting has failed; 0 is no configured BSSID. */
  function AfterFailure(table: map<Bssid, Int8>, b: Bssid): map<Bssid, Int8> {
    if b == 0 then table else ClearIfAllMin(table[b := Lowered(GetPriority(table, b))])
  }

  /** The priorities once the hidden networks from `i` on have failed. */
  function AfterExplicitFailures(cfg: Config, table: map<Bssid, Int8>, i: nat): map<Bssid, Int8>
    decreases HiddenPrefix(cfg.sta) - i
  {
    if i >= HiddenPrefix(cfg.sta) then table
    else AfterExplicitFailures(cfg, AfterFailure(table, cfg.sta[i].bssid), i + 1)
  }

  lemma ExplicitPenalty(cfg: Config, s: State)
    requires s.phase == ExplicitHidden && 0 <= s.selected < HiddenPrefix(cfg.sta)
    ensures
      var p := Penalise(cfg, s);
      && p == s.(priorities := p.priorities)
      && AfterExplicitFailures(cfg, s.priorities, s.selected) ==
         AfterExplicitFailures(cfg, p.priorities, s.selected + 1)
      && (NoBssidConfigured(cfg) ==> p == s)
  {
  }

  lemma {:induction false} NoExplicitPenalties(cfg: Config, table: map<Bssid, Int8>, i: nat)
    requires NoBssidConfigured(cfg)
    ensures AfterExplicitFailures(cfg, table, i) == table
    decreases HiddenPrefix(cfg.sta) - i
  {
    if i < HiddenPrefix(cfg.sta) {
      NoExplicitPenalties(cfg, table, i + 1);
    }
  }

  ghost predicate ExplicitEnds(cfg: Config, s: State, t: State, i: nat, table: map<Bssid, Int8>, outcome: Outcome) {
    var table' := AfterExplicitFailures(cfg, table, i);
    i <= HiddenPrefix(cfg.sta) &&
    Ends(cfg, s, t, ExplicitAttempts(cfg)[i..] + AfterExplicit(cfg, table', outcome),
         PrioritiesAfterCycle(cfg, table', outcome))
  }

  lemma LastExplicitTail(cfg: Config, s: State, t: State, around: Surroundings, results: seq<ScanResult>,
                         outcome: Outcome)
    requires Calm(cfg, t) && LeavesExplicit(cfg, s, t, around(s)) && Suits(around, s, results, outcome)
    ensures ExplicitEnds(cfg, s, FailCycle(cfg, t, around, results), HiddenPrefix(cfg.sta), t.priorities, outcome)
  {
    var h := HiddenPrefix(cfg.sta);
    assert ExplicitAttempts(cfg)[h..] == [];
    assert [] + AfterExplicit(cfg, t.priorities, outcome) == AfterExplicit(cfg, t.priorities, outcome);
    if h != |cfg.sta| {
      AskedScanFails(cfg, s, t, around, results, outcome);
    }
  }

  lemma ExplicitTail(cfg: Config, s: State, t: State, u: State, i: nat, table: map<Bssid, Int8>, outcome: Outcome)
    requires i < HiddenPrefix(cfg.sta)
    requires Follows(cfg, s, t, [Attempt(ExplicitHidden, i, Probe(cfg.sta[i]))], t.priorities)
    requires ExplicitEnds(cfg, t, u, i + 1, table, outcome)
    requires AfterExplicitFailures(cfg, t.priorities, i) == AfterExplicitFailures(cfg, table, i + 1)
    ensures ExplicitEnds(cfg, s, u, i, t.priorities, outcome)
  {
    var table' := AfterExplicitFailures(cfg, table, i + 1);
    var rest := AfterExplicit(cfg, table', outcome);
    var a := [Attempt(ExplicitHidden, i, Probe(cfg.sta[i]))];
    Chain(cfg, s, t, u, a, ExplicitAttempts(cfg)[i + 1..] + rest, t.priorities,
          PrioritiesAfterCycle(cfg, table', outcome));
    Prepend(ExplicitAttempts(cfg), i, rest);
  }

  lemma Prepend(all: seq<Attempt>, i: nat, rest: seq<Attempt>)
    requires i < |all|
    ensures [all[i]] + (all[i + 1..] + rest) == all[i..] + rest
  {
    assert all[i..] == [all[i]] + all[i + 1..];
  }

  /** One more hidden network of the prefix is tried, or it is done. */
  predicate MovesExplicit(cfg: Config, s: State, t: State, env: Env) {
    && t.priorities == Penalise(cfg, s).priorities
    && (if s.selected + 1 < HiddenPrefix(cfg.sta) then TriesExplicit(cfg, s, t, s.selected + 1)
        else LeavesExplicit(cfg, s, t, env))
  }

  lemma ExplicitStep(cfg: Config, s: State, env: Env)
    requires Calm(cfg, s) && s.phase == ExplicitHidden
    ensures MovesExplicit(cfg, s, RetryConnect(cfg, s, env), env)
  {
    ExplicitPenalty(cfg, s);
    var p := Penalise(cfg, s);
    if s.selected + 1 < HiddenPrefix(cfg.sta) {
      ExplicitFails(cfg, p, env);
    } else {
      LastExplicitFails(cfg, p, env);
    }
  }

  lemma UnrollExplicit(cfg: Config, s: State, around: Surroundings, results: seq<ScanResult>) returns (t: State)
    requires Calm(cfg, s) && s.phase == ExplicitHidden
    ensures Calm(cfg, t) && MovesExplicit(cfg, s, t, around(s))
    ensures FailCycle(cfg, s, around, results) == FailCycle(cfg, t, around, results)
  {
    t := UnrollRetry(cfg, s, around, results);
    ExplicitStep(cfg, s, around(s));
  }

  /** `t` has tried the next hidden network; what follows it follows `s`. */
  lemma ExplicitGoesOn(cfg: Config, s: State, t: State, u: State, outcome: Outcome)
    requires t.selected >= 0 && TriesExplicit(cfg, s, t, t.selected)
    requires ExplicitEnds(cfg, t, u, t.selected + 1, Penalise(cfg, t).priorities, outcome)
    ensures ExplicitEnds(cfg, s, u, t.selected, t.priorities, outcome)
  {
    ExplicitPenalty(cfg, t);
    ExplicitTail(cfg, s, t, u, t.selected, Penalise(cfg, t).priorities, outcome);
  }

  lemma ExplicitNext(cfg: Config, s: State, t: State, u: State, env: Env, outcome: Outcome)
    requires Calm(cfg, t) && MovesExplicit(cfg, s, t, env) && 0 <= s.selected + 1 < HiddenPrefix(cfg.sta)
    requires ExplicitEnds(cfg, t, u, t.selected + 1, Penalise(cfg, t).priorities, outcome)
    ensures ExplicitEnds(cfg, s, u, s.selected + 1, Penalise(cfg, s).priorities, outcome)
  {
    ExplicitGoesOn(cfg, s, t, u, outcome);
  }

  lemma ExplicitLast(cfg: Config, s: State, t: State, around: Surroundings, results: seq<ScanResult>, outcome: Outcome)
    requires Calm(cfg, t) && MovesExplicit(cfg, s, t, around(s)) && s.selected + 1 == HiddenPrefix(cfg.sta)
    requires Suits(around, s, results, outcome)
    ensures ExplicitEnds(cfg, s, FailCycle(cfg, t, around, results), s.selected + 1, Penalise(cfg, s).priorities, outcome)
  {
    LastExplicitTail(cfg, s, t, around, results, outcome);
  }

  lemma {:induction false} ExplicitPhase(cfg: Config, s: State, around: Surroundings, results: seq<ScanResult>,
                                         outcome: Outcome)
    requires Calm(cfg, s) && s.phase == ExplicitHidden && Suits(around, s, results, outcome)
    ensures ExplicitEnds(cfg, s, FailCycle(cfg, s, around, results), s.selected + 1, Penalise(cfg, s).priorities, outcome)
    decreases HiddenPrefix(cfg.sta) - s.selected
  {
    var t := UnrollExplicit(cfg, s, around, results);
    if s.selected + 1 < HiddenPrefix(cfg.sta) {
      ExplicitPhase(cfg, t, around, results, outcome);
      ExplicitNext(cfg, s, t, FailCycle(cfg, t, around, results), around(s), outcome);
    } else {
      ExplicitLast(cfg, s, t, around, results, outcome);
    }
  }
}
