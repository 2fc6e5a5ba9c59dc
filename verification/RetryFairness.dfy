/** No access point starves: failures are shared out evenly until every priority has reached its minimum. */
module RetryFairness {
  import opened WifiTypes
  import opened ScanSort
  import opened RetrySpec
  import opened RetryBound
  import opened RetryPhases
  import opened RetryCoverage
  import RetrySync
  import opened Roaming

  type Priorities = map<Bssid, Int8>

  predicate Owned(cfg: Config, r: ScanResult) { FirstOwner(r, cfg.sta) < |cfg.sta| }

  function OwnPriority(cfg: Config, r: ScanResult): Int8
    requires Owned(cfg, r)
  {
    cfg.sta[FirstOwner(r, cfg.sta)].priority
  }

  predicate Offers(cfg: Config, p: Priorities, r: ScanResult) {
    Owned(cfg, r) ==> r.bssid in p && OwnPriority(cfg, r) == p[r.bssid]
  }

  ghost predicate HeardAs(cfg: Config, scan: seq<ScanResult>, b: Bssid) {
    exists k :: 0 <= k < |scan| && scan[k].bssid == b && Owned(cfg, scan[k])
  }

  /**
   * The scan finds exactly the BSSIDs of `p` among the configured networks, each for a network that
   * configures that priority. Signal strengths, order and further networks may differ from scan to scan.
   */
  ghost predicate Hears(cfg: Config, p: Priorities, scan: seq<ScanResult>) {
    (forall k :: 0 <= k < |scan| ==> Offers(cfg, p, scan[k])) && (forall b :: b in p ==> HeardAs(cfg, scan, b))
  }

  /** The table with every BSSID of `p` entered. */
  function Full(table: Priorities, p: Priorities): Priorities {
    map b | b in p :: if b in table then table[b] else p[b]
  }

  // ---- What one scan makes of the table ----

  lemma {:induction false} OwnerIgnoresMarks(r: ScanResult, sta: seq<Ap>)
    ensures FirstOwner(r.(matches := false, priority := 0), sta) == FirstOwner(r, sta)
  {
    if sta != [] {
      OwnerIgnoresMarks(r, sta[1..]);
    }
  }

  lemma UnmarkedHears(cfg: Config, p: Priorities, results: seq<ScanResult>)
    requires Hears(cfg, p, results)
    ensures Hears(cfg, p, Unmarked(results))
  {
    var scan := Unmarked(results);
    forall k | 0 <= k < |scan| ensures Offers(cfg, p, scan[k]) {
      OwnerIgnoresMarks(results[k], cfg.sta);
    }
    forall b | b in p ensures HeardAs(cfg, scan, b) {
      assert HeardAs(cfg, results, b);
      var k :| 0 <= k < |results| && results[k].bssid == b && Owned(cfg, results[k]);
      OwnerIgnoresMarks(results[k], cfg.sta);
      assert scan[k].bssid == b;
    }
  }

  /** Entries of the table stay, and new ones come from `p`. */
  ghost predicate Within(known: Priorities, table: Priorities, p: Priorities) {
    && (forall b :: b in table ==> b in known && known[b] == table[b])
    && (forall b :: b in known && b !in table ==> b in p && known[b] == p[b])
  }

  lemma {:induction false} TrackStaysWithin(cfg: Config, p: Priorities, scan: seq<ScanResult>, table: Priorities)
    requires forall k :: 0 <= k < |scan| ==> Offers(cfg, p, scan[k])
    ensures Within(Track(cfg.sta, scan, table).1, table, p)
  {
    if scan != [] {
      var n := |scan| - 1;
      TrackStaysWithin(cfg, p, scan[..n], table);
      assert Offers(cfg, p, scan[n]);
    }
  }

  /** A result of a configured network is marked, entered in the table, and carries its priority there. */
  predicate MarkedAs(cfg: Config, r: ScanResult, m: ScanResult, known: Priorities) {
    && m.bssid == r.bssid
    && (m.matches <==> Owned(cfg, r))
    && (m.matches ==> m.bssid in known && m.priority == known[m.bssid])
  }

  lemma {:induction false} TrackMarks(cfg: Config, scan: seq<ScanResult>, table: Priorities, k: nat)
    requires k < |scan| && !scan[k].matches
    ensures MarkedAs(cfg, scan[k], Track(cfg.sta, scan, table).0[k], Track(cfg.sta, scan, table).1)
  {
    var n := |scan| - 1;
    if k < n {
      assert scan[..n][k] == scan[k];
      TrackMarks(cfg, scan[..n], table, k);
    }
  }

  lemma FullFromParts(known: Priorities, table: Priorities, p: Priorities)
    requires Within(known, table, p) && table.Keys <= p.Keys <= known.Keys
    ensures known == Full(table, p)
  {
    assert forall b :: b in known ==> b in p;
  }

  lemma TrackFills(cfg: Config, p: Priorities, scan: seq<ScanResult>, table: Priorities)
    requires Hears(cfg, p, scan) && table.Keys <= p.Keys
    requires forall k :: 0 <= k < |scan| ==> !scan[k].matches
    ensures Track(cfg.sta, scan, table).1 == Full(table, p)
  {
    var known := Track(cfg.sta, scan, table).1;
    TrackStaysWithin(cfg, p, scan, table);
    forall b | b in p ensures b in known {
      assert HeardAs(cfg, scan, b);
      var k :| 0 <= k < |scan| && scan[k].bssid == b && Owned(cfg, scan[k]);
      TrackMarks(cfg, scan, table, k);
    }
    FullFromParts(known, table, p);
  }

  lemma {:induction false} OwnerOfMarked(cfg: Config, scan: seq<ScanResult>, table: Priorities, j: nat)
    requires j < |scan|
    ensures FirstOwner(Track(cfg.sta, scan, table).0[j], cfg.sta) == FirstOwner(scan[j], cfg.sta)
  {
    var n := |scan| - 1;
    if j < n {
      OwnerOfMarked(cfg, scan[..n], table, j);
    } else {
      var marked := Track(cfg.sta, scan, table).0[j];
      OwnerIgnoresMarks(scan[j], cfg.sta);
      OwnerIgnoresMarks(marked, cfg.sta);
      assert scan[j].(matches := false, priority := 0) == marked.(matches := false, priority := 0);
    }
  }

  /** A marked result is no better than the winner, whose priority is then at least as high. */
  lemma WinnerIsAtLeast(cfg: Config, scan: seq<ScanResult>, table: Priorities, known: Priorities, j: nat, k: nat)
    requires j < |scan| && k < |scan| && !scan[j].matches && !scan[k].matches && Owned(cfg, scan[k])
    requires known == Track(cfg.sta, scan, table).1
    requires !Better(Track(cfg.sta, scan, table).0[k], Track(cfg.sta, scan, table).0[j])
    ensures Owned(cfg, scan[j]) && scan[j].bssid in known && scan[k].bssid in known
    ensures known[scan[k].bssid] <= known[scan[j].bssid]
  {
    TrackMarks(cfg, scan, table, j);
    TrackMarks(cfg, scan, table, k);
  }

  /** Where the winner was in the scan. */
  lemma Winner(cfg: Config, p: Priorities, scan: seq<ScanResult>, table: Priorities) returns (j: nat)
    requires Hears(cfg, p, scan) && p != map[]
    ensures j < |scan|
    ensures
      var marked := Track(cfg.sta, scan, table).0;
      marked[j] == InsertionSort(marked)[0] &&
      forall k :: 0 <= k < |scan| ==> !Better(marked[k], marked[j])
    ensures Offers(cfg, p, scan[j])
  {
    var b0 :| b0 in p;
    assert HeardAs(cfg, scan, b0);
    var marked := Track(cfg.sta, scan, table).0;
    assert |marked| > 0;
    BestComesFirst(marked);
    j :| 0 <= j < |marked| && marked[j] == InsertionSort(marked)[0];
    forall k | 0 <= k < |scan| ensures !Better(marked[k], marked[j]) {
      assert marked[k] in marked;
    }
  }

  lemma WinnerTops(cfg: Config, p: Priorities, scan: seq<ScanResult>, table: Priorities) returns (j: nat)
    requires Hears(cfg, p, scan) && table.Keys <= p.Keys && p != map[]
    requires forall k :: 0 <= k < |scan| ==> !scan[k].matches
    ensures j < |scan| && Track(cfg.sta, scan, table).0[j] == InsertionSort(Track(cfg.sta, scan, table).0)[0]
    ensures Owned(cfg, scan[j]) && scan[j].bssid in p
    ensures forall b :: b in p ==> Full(table, p)[b] <= Full(table, p)[scan[j].bssid]
  {
    TrackFills(cfg, p, scan, table);
    j := Winner(cfg, p, scan, table);
    var known := Full(table, p);
    var b0 :| b0 in p;
    forall b | b in p ensures Owned(cfg, scan[j]) && scan[j].bssid in p && known[b] <= known[scan[j].bssid] {
      assert HeardAs(cfg, scan, b);
      var k :| 0 <= k < |scan| && scan[k].bssid == b && Owned(cfg, scan[k]);
      WinnerIsAtLeast(cfg, scan, table, known, j, k);
    }
    assert b0 in p;
  }

  /** The winner of a scan has the highest priority in the table. */
  lemma BestHasTopPriority(cfg: Config, p: Priorities, results: seq<ScanResult>, table: Priorities)
    requires Hears(cfg, p, results) && table.Keys <= p.Keys && p != map[]
    ensures
      var ranked := Ranked(cfg, table, results);
      Known(cfg, table, results) == Full(table, p) && HasMatch(cfg, ranked) && ranked[0].bssid in p &&
      forall b :: b in p ==> Full(table, p)[b] <= Full(table, p)[ranked[0].bssid]
  {
    UnmarkedHears(cfg, p, results);
    var scan := Unmarked(results);
    TrackFills(cfg, p, scan, table);
    var j := WinnerTops(cfg, p, scan, table);
    TrackMarks(cfg, scan, table, j);
    OwnerOfMarked(cfg, scan, table, j);
  }

  // ---- Sharing out the failures ----

  function Count(winners: seq<Bssid>, b: Bssid): nat {
    if winners == [] then 0
    else Count(winners[..|winners| - 1], b) + (if winners[|winners| - 1] == b then 1 else 0)
  }

  /** What is left of a priority after the penalties in `winners`. */
  function Level(p: Priorities, winners: seq<Bssid>, b: Bssid): int
    requires b in p
  {
    p[b] - Count(winners, b)
  }

  /** No level is below the minimum, and a BSSID that was penalised is at most one point below any other. */
  ghost predicate Fair(p: Priorities, winners: seq<Bssid>) {
    && (forall b :: b in p ==> Level(p, winners, b) >= MIN_PRIORITY)
    && (forall a, b :: a in p && b in p && Count(winners, a) > 0 ==> Level(p, winners, b) <= Level(p, winners, a) + 1)
  }

  lemma PenaltyStaysFair(p: Priorities, winners: seq<Bssid>, w: Bssid)
    requires Fair(p, winners) && w in p && Level(p, winners, w) > MIN_PRIORITY
    requires forall b :: b in p ==> Level(p, winners, b) <= Level(p, winners, w)
    ensures Fair(p, winners + [w])
  {
    var next := winners + [w];
    assert next[..|next| - 1] == winners;
    forall b ensures Count(next, b) == Count(winners, b) + (if b == w then 1 else 0) {
    }
  }

  /** BSSIDs with the same configured priority never differ by more than one penalty. */
  lemma EqualsStayClose(p: Priorities, winners: seq<Bssid>, a: Bssid, b: Bssid)
    requires Fair(p, winners) && a in p && b in p && p[a] == p[b]
    ensures -1 <= Count(winners, a) - Count(winners, b) <= 1
  {
    assert Count(winners, a) > 0 ==> Level(p, winners, b) <= Level(p, winners, a) + 1;
    assert Count(winners, b) > 0 ==> Level(p, winners, a) <= Level(p, winners, b) + 1;
  }

  /** All failures that fit before every level is at the minimum. */
  function Budget(p: Priorities, bs: seq<Bssid>, winners: seq<Bssid>): int
    requires forall b :: b in bs ==> b in p
  {
    if bs == [] then 0
    else Level(p, winners, bs[0]) - MIN_PRIORITY + Budget(p, bs[1..], winners)
  }

  ghost predicate Lists(bs: seq<Bssid>, p: Priorities) {
    && (forall b :: b in bs <==> b in p)
    && (forall i, j :: 0 <= i < j < |bs| ==> bs[i] != bs[j])
  }

  lemma {:induction false} BudgetShrinks(p: Priorities, bs: seq<Bssid>, winners: seq<Bssid>, w: Bssid)
    requires forall b :: b in bs ==> b in p
    requires forall i, j :: 0 <= i < j < |bs| ==> bs[i] != bs[j]
    ensures Budget(p, bs, winners + [w]) == Budget(p, bs, winners) - (if w in bs then 1 else 0)
  {
    if bs != [] {
      BudgetShrinks(p, bs[1..], winners, w);
      assert (winners + [w])[..|winners|] == winners;
      assert Count(winners + [w], bs[0]) == Count(winners, bs[0]) + (if bs[0] == w then 1 else 0);
    }
  }

  lemma {:induction false} BudgetSpent(p: Priorities, bs: seq<Bssid>, winners: seq<Bssid>)
    requires forall b :: b in bs ==> b in p && Level(p, winners, b) >= MIN_PRIORITY
    ensures Budget(p, bs, winners) >= 0
    ensures Budget(p, bs, winners) == 0 <==> forall b :: b in bs ==> Level(p, winners, b) == MIN_PRIORITY
  {
    if bs != [] {
      BudgetSpent(p, bs[1..], winners);
      assert bs == [bs[0]] + bs[1..];
    }
  }

  // ---- Rounds of failing cycles ----

  /** Every cycle comes to a scan, and it starts. */
  ghost predicate ScansRun(cfg: Config, around: Surroundings) {
    forall s :: around(s).scanStarts && !SkipsScan(cfg, s, around(s))
  }

  /**
   * The scan of the cycle that `s` is in is still to come: the adapter restarts; a connection or an attempt before
   * the scan is lost; or a start waits for its first scan.
   */
  predicate ScanAhead(cfg: Config, s: State) {
    Calm(cfg, s) &&
    (|| s.phase == RestartingAdapter || s.phase == ExplicitHidden || (Unscanned(cfg, s) && Unawaited(s))
     || (AwaitsFirstScan(cfg, s) && !cfg.fastConnect && !cfg.HiddenFirst()))
  }

  /** The rest of the cycle, in which all attempts fail and the scan completes with `results`. */
  ghost function Cycle(cfg: Config, s: State, around: Surroundings, results: seq<ScanResult>): (t: State)
    requires ScanAhead(cfg, s)
    ensures t.phase == RestartingAdapter && ScanAhead(cfg, t)
  {
    StepIsCalm(cfg, s, around, results);
    FailCycle(cfg, FailStep(cfg, s, around, results), around, results)
  }

  lemma StepIsCalm(cfg: Config, s: State, around: Surroundings, results: seq<ScanResult>)
    requires ScanAhead(cfg, s)
    ensures Calm(cfg, FailStep(cfg, s, around, results))
  {
    if s.phase == RestartingAdapter {
      RetryIsCalm(cfg, s, around(s));
    } else {
      FailStepAdvances(cfg, s, around, results);
    }
  }

  ghost function Rounds(cfg: Config, s: State, around: Surroundings, scans: seq<seq<ScanResult>>): (t: State)
    requires ScanAhead(cfg, s)
    ensures ScanAhead(cfg, t)
  {
    if scans == [] then s
    else Cycle(cfg, Rounds(cfg, s, around, scans[..|scans| - 1]), around, scans[|scans| - 1])
  }

  /** The BSSID a cycle ranks first; what makes it the one that is tried and penalised is TwoAttemptsOnePenalty. */
  function RankedFirst(cfg: Config, table: Priorities, results: seq<ScanResult>): Bssid {
    var ranked := Ranked(cfg, table, results);
    if ranked == [] then 0 else ranked[0].bssid
  }

  ghost function Winners(cfg: Config, s: State, around: Surroundings, scans: seq<seq<ScanResult>>): (w: seq<Bssid>)
    requires ScanAhead(cfg, s)
    ensures |w| == |scans|
  {
    if scans == [] then []
    else
      var before := scans[..|scans| - 1];
      Winners(cfg, s, around, before) +
      [RankedFirst(cfg, Rounds(cfg, s, around, before).priorities, scans[|scans| - 1])]
  }

  /** The premises on configuration: no BSSID is configured, and not all networks are hidden ones at the front. */
  predicate ScanDecides(cfg: Config) { NoBssidConfigured(cfg) && HiddenPrefix(cfg.sta) < |cfg.sta| }

  lemma {:induction false} NoFastPenalties(cfg: Config, table: Priorities, i: nat)
    requires NoBssidConfigured(cfg)
    ensures AfterFastFailures(cfg, table, i) == table
    decreases |cfg.sta| - i
  {
    if cfg.fastConnect && i < |cfg.sta| {
      NoFastPenalties(cfg, table, i + 1);
    }
  }

  /** What is tried before the scan: the networks of fast connect, and the hidden networks at the front. */
  ghost function UpToScan(cfg: Config, s: State): seq<Attempt>
    requires ScanAhead(cfg, s)
  {
    match s.phase
    case RestartingAdapter => ExplicitAttempts(cfg)
    case ExplicitHidden => ExplicitAttempts(cfg)[s.selected + 1..]
    case _ =>
      if AwaitsFirstScan(cfg, s) then [] else FastAttempts(cfg, s.selected + 1) + ExplicitAttempts(cfg)
  }

  /** The cycle goes on with `more` to the scan, and then as the scan decides. */
  ghost predicate EndsScanned(cfg: Config, s: State, t: State, more: seq<Attempt>, results: seq<ScanResult>) {
    Ends(cfg, s, t, more + AfterScan(cfg, s.priorities, results), PrioritiesAfter(cfg, s.priorities, results))
  }

  lemma RestartReachesScan(cfg: Config, s: State, around: Surroundings, results: seq<ScanResult>)
    requires ScanAhead(cfg, s) && ScansRun(cfg, around) && ScanDecides(cfg) && s.phase == RestartingAdapter
    ensures EndsScanned(cfg, s, Cycle(cfg, s, around, results), ExplicitAttempts(cfg), results)
  {
    RestartCoverage(cfg, s, around, results, Brings(results));
    NothingToPenalise(cfg, s);
    NoExplicitPenalties(cfg, s.priorities, 0);
  }

  lemma ExplicitReachesScan(cfg: Config, s: State, around: Surroundings, results: seq<ScanResult>)
    requires ScanAhead(cfg, s) && ScansRun(cfg, around) && ScanDecides(cfg) && s.phase == ExplicitHidden
    ensures EndsScanned(cfg, s, FailCycle(cfg, s, around, results), ExplicitAttempts(cfg)[s.selected + 1..], results)
  {
    ExplicitPhase(cfg, s, around, results, Brings(results));
    NothingToPenalise(cfg, s);
    NoExplicitPenalties(cfg, s.priorities, s.selected + 1);
  }

  lemma LossReachesScan(cfg: Config, s: State, around: Surroundings, results: seq<ScanResult>)
    requires ScanAhead(cfg, s) && ScansRun(cfg, around) && ScanDecides(cfg) && Unscanned(cfg, s) && Unawaited(s)
    ensures EndsScanned(cfg, s, FailCycle(cfg, s, around, results),
                        FastAttempts(cfg, s.selected + 1) + ExplicitAttempts(cfg), results)
  {
    FastPhase(cfg, s, around, results, Brings(results));
    NothingToPenalise(cfg, s);
    NoFastPenalties(cfg, s.priorities, s.selected + 1);
    NoExplicitPenalties(cfg, s.priorities, 0);
    Regroup(FastAttempts(cfg, s.selected + 1), ExplicitAttempts(cfg), AfterScan(cfg, s.priorities, results));
  }

  lemma Regroup(a: seq<Attempt>, b: seq<Attempt>, c: seq<Attempt>)
    ensures a + (b + c) == (a + b) + c
  {
  }

  lemma FirstScanReached(cfg: Config, s: State, around: Surroundings, results: seq<ScanResult>)
    requires ScanAhead(cfg, s) && ScansRun(cfg, around) && ScanDecides(cfg)
    requires AwaitsFirstScan(cfg, s) && !cfg.fastConnect && !cfg.HiddenFirst()
    ensures EndsScanned(cfg, s, FailCycle(cfg, s, around, results), [], results)
  {
    FirstScan(cfg, s, around, results);
    assert [] + AfterScan(cfg, s.priorities, results) == AfterScan(cfg, s.priorities, results);
  }

  lemma LaterScanReached(cfg: Config, s: State, around: Surroundings, results: seq<ScanResult>)
    requires ScanAhead(cfg, s) && ScansRun(cfg, around) && ScanDecides(cfg) && s.phase != RestartingAdapter
    ensures EndsScanned(cfg, s, FailCycle(cfg, s, around, results), UpToScan(cfg, s), results)
  {
    if s.phase == ExplicitHidden {
      assert UpToScan(cfg, s) == ExplicitAttempts(cfg)[s.selected + 1..];
      ExplicitReachesScan(cfg, s, around, results);
    } else if AwaitsFirstScan(cfg, s) {
      assert UpToScan(cfg, s) == [];
      FirstScanReached(cfg, s, around, results);
    } else {
      assert UpToScan(cfg, s) == FastAttempts(cfg, s.selected + 1) + ExplicitAttempts(cfg);
      LossReachesScan(cfg, s, around, results);
    }
  }

  lemma ScanIsReached(cfg: Config, s: State, around: Surroundings, results: seq<ScanResult>)
    requires ScanAhead(cfg, s) && ScansRun(cfg, around) && ScanDecides(cfg)
    ensures EndsScanned(cfg, s, Cycle(cfg, s, around, results), UpToScan(cfg, s), results)
  {
    if s.phase == RestartingAdapter {
      RestartReachesScan(cfg, s, around, results);
    } else {
      Unroll(cfg, s, around, results);
      LaterScanReached(cfg, s, around, results);
    }
  }

  /**
   * A cycle tries the best result exactly twice, after the networks tried before the scan and before those the scan
   * did not show, and takes exactly one point off its BSSID.
   */
  lemma TwoAttemptsOnePenalty(cfg: Config, p: Priorities, s: State, around: Surroundings, results: seq<ScanResult>)
    requires ScanAhead(cfg, s) && ScansRun(cfg, around) && ScanDecides(cfg)
    requires Hears(cfg, p, results) && s.priorities.Keys <= p.Keys && p != map[]
    ensures
      var best := Ranked(cfg, s.priorities, results)[0];
      var i := FirstOwner(best, cfg.sta);
      var t := Cycle(cfg, s, around, results);
      HasMatch(cfg, Ranked(cfg, s.priorities, results)) &&
      t.attempts == s.attempts + (UpToScan(cfg, s) +
        ([Attempt(ScanConnecting, i, WithScan(cfg.sta[i], best)), Attempt(ScanConnecting, i, WithScan(cfg.sta[i], best))]
         + HiddenAttempts(cfg, ScanBased, results, 0))) &&
      t.priorities == AfterTwoFailures(Full(s.priorities, p), best.bssid)
  {
    BestHasTopPriority(cfg, p, results, s.priorities);
    ScanIsReached(cfg, s, around, results);
  }

  // ---- Where the shares begin ----

  /** Without penalties recorded, all points are still there. */
  predicate BeginsAnew(cfg: Config, s: State) { ScanAhead(cfg, s) && s.priorities == map[] }

  lemma StartKeepsNoResults(cfg: Config, s: State, loaded: bool, saved: Saved, env: Env)
    requires cfg.Valid() && s.scan == [] && !s.scanDone
    ensures
      var t := StartUp(cfg, s, loaded, saved, env);
      t.scan == [] && !t.scanDone
  {
  }

  /** A start that finds no scan results has its scan ahead, and keeps the penalties. */
  lemma StartHasScanAhead(cfg: Config, s: State, loaded: bool, saved: Saved, env: Env)
    requires cfg.Valid() && Inv(cfg, s) && s.scan == [] && !s.scanDone
    ensures
      var t := StartUp(cfg, s, loaded, saved, env);
      ScanAhead(cfg, t) && t.priorities == s.priorities
  {
    StartUpIsSound(cfg, s, loaded, saved, env);
    StartUpCases(cfg, s, loaded, saved, env);
    StartKeepsNoResults(cfg, s, loaded, saved, env);
  }

  /** Every way to boot begins anew. */
  lemma BootBeginsAnew(cfg: Config, loaded: bool, saved: Saved, env: Env)
    requires cfg.Valid()
    ensures BeginsAnew(cfg, StartUp(cfg, FRESH, loaded, saved, env))
  {
    StartHasScanAhead(cfg, FRESH, loaded, saved, env);
  }

  lemma StepToConnected(cfg: Config, s: State, ev: Event)
    requires Step(cfg, s, ev).link == Connected
    requires s.link == Connected ==> s.priorities == map[]
    ensures Step(cfg, s, ev).priorities == map[]
  {
    if ev.Tick? {
      if !StaysConnected(s, ev) {
        LinkAfterPass(cfg, s, ev);
      }
    } else if ev.Enabled? && s.link == Off {
      StartLeavesConnection(cfg, s, ev.loaded, ev.saved, ev.env);
    }
  }

  /** While connected no penalties are recorded, in any run. */
  lemma {:induction false} ConnectedOwesNothing(cfg: Config, evs: seq<Event>)
    ensures RunOf(cfg, evs).s.link == Connected ==> RunOf(cfg, evs).s.priorities == map[]
  {
    if evs != [] {
      ConnectedOwesNothing(cfg, evs[..|evs| - 1]);
      if RunOf(cfg, evs).s.link == Connected {
        StepToConnected(cfg, RunOf(cfg, evs[..|evs| - 1]).s, evs[|evs| - 1]);
      }
    }
  }

  /** In every run the loss of a connection begins anew, unless it finds leftover scan results. */
  lemma LossBeginsAnew(cfg: Config, evs: seq<Event>)
    requires cfg.Valid()
    ensures
      var s := RunOf(cfg, evs).s;
      s.link == Connected && !RetrySync.Leftovers(cfg, s) ==> BeginsAnew(cfg, s.(link := Connecting))
  {
    EveryCycleEnds(cfg, evs);
    ConnectedOwesNothing(cfg, evs);
  }

  /** The table says what the penalties in `winners` leave of `p`. */
  ghost predicate Recorded(table: Priorities, p: Priorities, winners: seq<Bssid>) {
    table.Keys <= p.Keys && forall b :: b in p ==> Full(table, p)[b] == Level(p, winners, b)
  }

  ghost predicate Exhausted(p: Priorities, winners: seq<Bssid>) {
    forall b :: b in p ==> Level(p, winners, b) == MIN_PRIORITY
  }

  /** Taking one point off the highest level, and the table is dropped if that was the last point. */
  lemma OnePointOff(table: Priorities, p: Priorities, winners: seq<Bssid>, w: Bssid)
    requires Recorded(table, p, winners) && w in p && Level(p, winners, w) > MIN_PRIORITY
    ensures
      var t := AfterTwoFailures(Full(table, p), w);
      if Exhausted(p, winners + [w]) then t == map[]
      else t.Keys == p.Keys && Recorded(t, p, winners + [w])
  {
    var known := Full(table, p);
    assert known[w] > MIN_PRIORITY;
    var lowered := known[w := Lowered(known[w])];
    assert lowered.Keys == p.Keys;
    assert (winners + [w])[..|winners|] == winners;
    forall b | b in p ensures lowered[b] == Level(p, winners + [w], b) {
      assert Count(winners + [w], b) == Count(winners, b) + (if b == w then 1 else 0);
    }
    assert AllMin(lowered) <==> Exhausted(p, winners + [w]);
    if !Exhausted(p, winners + [w]) {
      assert Full(lowered, p) == lowered;
    }
  }

  /** Where the highest level sits, while a point is left. */
  lemma TopIsAboveMinimum(p: Priorities, bs: seq<Bssid>, winners: seq<Bssid>, w: Bssid)
    requires Lists(bs, p) && Fair(p, winners) && w in p && Budget(p, bs, winners) > 0
    requires forall b :: b in p ==> Level(p, winners, b) <= Level(p, winners, w)
    ensures Level(p, winners, w) > MIN_PRIORITY
  {
    BudgetSpent(p, bs, winners);
  }

  /** After `winners`, the table holds what is left; or everything is spent and the table is empty again. */
  ghost predicate Shared(p: Priorities, bs: seq<Bssid>, winners: seq<Bssid>, table: Priorities)
    requires Lists(bs, p)
  {
    && Fair(p, winners)
    && Budget(p, bs, winners) == Budget(p, bs, []) - |winners|
    && (if Budget(p, bs, winners) == 0 then table == map[] && Exhausted(p, winners)
        else Recorded(table, p, winners) && (winners != [] ==> table.Keys == p.Keys))
  }

  lemma ShareNext(p: Priorities, bs: seq<Bssid>, winners: seq<Bssid>, table: Priorities, w: Bssid)
    requires Lists(bs, p) && Shared(p, bs, winners, table) && Budget(p, bs, winners) > 0 && w in p
    requires forall b :: b in p ==> Full(table, p)[b] <= Full(table, p)[w]
    ensures Shared(p, bs, winners + [w], AfterTwoFailures(Full(table, p), w))
  {
    TopIsAboveMinimum(p, bs, winners, w);
    PenaltyStaysFair(p, winners, w);
    OnePointOff(table, p, winners, w);
    BudgetShrinks(p, bs, winners, w);
    BudgetSpent(p, bs, winners + [w]);
  }

  /** The induction behind FairShare. */
  lemma {:induction false} FailuresAreShared(cfg: Config, p: Priorities, bs: seq<Bssid>, s: State, around: Surroundings,
                                             scans: seq<seq<ScanResult>>)
    requires BeginsAnew(cfg, s) && ScansRun(cfg, around) && ScanDecides(cfg)
    requires Lists(bs, p) && Budget(p, bs, []) > 0
    requires forall i :: 0 <= i < |scans| ==> Hears(cfg, p, scans[i])
    requires |scans| <= Budget(p, bs, [])
    ensures Shared(p, bs, Winners(cfg, s, around, scans), Rounds(cfg, s, around, scans).priorities)
  {
    if scans != [] {
      var n := |scans| - 1;
      FailuresAreShared(cfg, p, bs, s, around, scans[..n]);
      var t := Rounds(cfg, s, around, scans[..n]);
      BestHasTopPriority(cfg, p, scans[n], t.priorities);
      TwoAttemptsOnePenalty(cfg, p, t, around, scans[n]);
      ShareNext(p, bs, Winners(cfg, s, around, scans[..n]), t.priorities,
                RankedFirst(cfg, t.priorities, scans[n]));
    }
  }

  predicate AllConfiguredMin(p: Priorities) { forall b :: b in p ==> p[b] == MIN_PRIORITY }

  lemma {:induction false} NoBudgetIffAllMin(p: Priorities, bs: seq<Bssid>)
    requires Lists(bs, p)
    ensures Budget(p, bs, []) == 0 <==> AllConfiguredMin(p)
  {
    BudgetSpent(p, bs, []);
    assert forall b :: b in p ==> Level(p, [], b) == p[b];
  }

  /**
   * No BSSID starves. While every attempt fails, the table is dropped after exactly as many cycles as there are
   * points above the minimum, not earlier; by then every BSSID has been penalised once for each of its points.
   * Until then the table says how often, and BSSIDs with equal priorities stay within one penalty of each other.
   * All this needs one configured priority above the minimum; OneBssidTakesAll shows what happens without.
   */
  lemma FairShare(cfg: Config, p: Priorities, bs: seq<Bssid>, s: State, around: Surroundings, scans: seq<seq<ScanResult>>)
    requires BeginsAnew(cfg, s) && ScansRun(cfg, around) && ScanDecides(cfg)
    requires Lists(bs, p) && !AllConfiguredMin(p)
    requires forall i :: 0 <= i < |scans| ==> Hears(cfg, p, scans[i])
    requires |scans| <= Budget(p, bs, [])
    ensures
      var winners := Winners(cfg, s, around, scans);
      var table := Rounds(cfg, s, around, scans).priorities;
      && (forall a, b :: a in p && b in p && p[a] == p[b] ==> -1 <= Count(winners, a) - Count(winners, b) <= 1)
      && (|scans| < Budget(p, bs, []) && scans != [] ==>
            table.Keys == p.Keys && forall b :: b in p ==> table[b] == p[b] - Count(winners, b))
      && (|scans| == Budget(p, bs, []) ==>
            table == map[] && forall b :: b in p ==> Count(winners, b) == p[b] - MIN_PRIORITY)
  {
    NoBudgetIffAllMin(p, bs);
    BudgetSpent(p, bs, []);
    FailuresAreShared(cfg, p, bs, s, around, scans);
    var winners := Winners(cfg, s, around, scans);
    forall a, b | a in p && b in p && p[a] == p[b] ensures -1 <= Count(winners, a) - Count(winners, b) <= 1 {
      EqualsStayClose(p, winners, a, b);
    }
    if |scans| == Budget(p, bs, []) {
      forall b | b in p ensures Count(winners, b) == p[b] - MIN_PRIORITY {
        assert Level(p, winners, b) == MIN_PRIORITY;
      }
    } else if scans != [] {
      var table := Rounds(cfg, s, around, scans).priorities;
      forall b | b in p ensures table[b] == p[b] - Count(winners, b) {
        assert Full(table, p)[b] == Level(p, winners, b);
      }
    }
  }

  // ---- All priorities configured at the minimum ----

  /** `w` alone has lost `k` points, and counts as ranked `k` below zero. */
  ghost predicate TakesAll(p: Priorities, winners: seq<Bssid>, table: Priorities, w: Bssid) {
    && w in p && w in table && table.Keys <= p.Keys
    && table[w] == -|winners|
    && (forall b :: b in table && b != w ==> table[b] == MIN_PRIORITY)
    && (forall i :: 0 <= i < |winners| ==> winners[i] == w)
  }

  lemma FirstTakesAll(p: Priorities, w: Bssid)
    requires AllConfiguredMin(p) && w in p
    ensures TakesAll(p, [w], AfterTwoFailures(Full(map[], p), w), w)
  {
    assert AllMin(Full(map[], p));
    var lowered: Priorities := map[w := -1];
    assert lowered[w] > MIN_PRIORITY;
  }

  lemma KeepsTakingAll(p: Priorities, winners: seq<Bssid>, table: Priorities, w: Bssid, best: Bssid)
    requires AllConfiguredMin(p) && TakesAll(p, winners, table, w) && 0 < |winners| < 127 && best in p
    requires forall b :: b in p ==> Full(table, p)[b] <= Full(table, p)[best]
    ensures TakesAll(p, winners + [best], AfterTwoFailures(Full(table, p), best), w)
  {
    assert best == w;
    var known := Full(table, p);
    var lowered := known[w := Lowered(known[w])];
    assert lowered[w] > MIN_PRIORITY;
  }

  /**
   * With every configured priority at the minimum the table is dropped before the penalty is taken, which then
   * starts from zero: the first BSSID to fail outranks all others and is the only one tried for 127 cycles.
   */
  lemma {:induction false} OneBssidTakesAll(cfg: Config, p: Priorities, s: State, around: Surroundings,
                                            scans: seq<seq<ScanResult>>)
    requires BeginsAnew(cfg, s) && ScansRun(cfg, around) && ScanDecides(cfg)
    requires p != map[] && AllConfiguredMin(p) && 0 < |scans| <= 127
    requires forall i :: 0 <= i < |scans| ==> Hears(cfg, p, scans[i])
    ensures TakesAll(p, Winners(cfg, s, around, scans), Rounds(cfg, s, around, scans).priorities,
                     RankedFirst(cfg, map[], scans[0]))
  {
    var n := |scans| - 1;
    var t := Rounds(cfg, s, around, scans[..n]);
    if n > 0 {
      OneBssidTakesAll(cfg, p, s, around, scans[..n]);
    }
    BestHasTopPriority(cfg, p, scans[n], t.priorities);
    TwoAttemptsOnePenalty(cfg, p, t, around, scans[n]);
    var best := RankedFirst(cfg, t.priorities, scans[n]);
    if n == 0 {
      FirstTakesAll(p, best);
      assert Winners(cfg, s, around, scans) == [best];
    } else {
      KeepsTakingAll(p, Winners(cfg, s, around, scans[..n]), t.priorities, RankedFirst(cfg, map[], scans[0]), best);
    }
  }
}
