/** The component as the program runs it: fields updated in place, proved against RetrySpec and Roaming. */
module WifiComponents {
  import opened Millis
  import opened WifiTypes
  import ScanSort
  import ScanStore
  import opened RetrySpec
  import opened RetryBound
  import opened Roaming
  import opened ActionClock

  // ---- The list of priorities ----

  datatype StaPriority = StaPriority(bssid: Bssid, priority: Int8)

  predicate Distinct(ps: seq<StaPriority>) {
    forall i, j :: 0 <= i < j < |ps| ==> ps[i].bssid != ps[j].bssid
  }

  /** What the list says about each BSSID. */
  function Table(ps: seq<StaPriority>): map<Bssid, Int8> {
    if ps == [] then map[]
    else Table(ps[..|ps| - 1])[ps[|ps| - 1].bssid := ps[|ps| - 1].priority]
  }

  lemma {:induction false} TableKeys(ps: seq<StaPriority>, b: Bssid)
    ensures b in Table(ps) <==> exists i :: 0 <= i < |ps| && ps[i].bssid == b
  {
    if ps != [] {
      var n := |ps| - 1;
      TableKeys(ps[..n], b);
      if i :| 0 <= i < |ps| && ps[i].bssid == b && i < n { assert ps[..n][i].bssid == b; }
    }
  }

  lemma {:induction false} TableAt(ps: seq<StaPriority>, i: nat)
    requires Distinct(ps) && i < |ps|
    ensures ps[i].bssid in Table(ps) && Table(ps)[ps[i].bssid] == ps[i].priority
  {
    if i < |ps| - 1 {
      TableAt(ps[..|ps| - 1], i);
    }
  }

  lemma {:induction false} TableUpdate(ps: seq<StaPriority>, i: nat, p: Int8)
    requires Distinct(ps) && i < |ps|
    ensures Distinct(ps[i := StaPriority(ps[i].bssid, p)])
    ensures Table(ps[i := StaPriority(ps[i].bssid, p)]) == Table(ps)[ps[i].bssid := p]
  {
    var n := |ps| - 1;
    var changed := ps[i := StaPriority(ps[i].bssid, p)];
    if i < n {
      TableUpdate(ps[..n], i, p);
      assert changed[..n] == ps[..n][i := StaPriority(ps[i].bssid, p)];
    } else {
      assert changed[..n] == ps[..n];
    }
  }

  lemma TableAppend(ps: seq<StaPriority>, b: Bssid, p: Int8)
    requires Distinct(ps) && forall i :: 0 <= i < |ps| ==> ps[i].bssid != b
    ensures Distinct(ps + [StaPriority(b, p)]) && Table(ps + [StaPriority(b, p)]) == Table(ps)[b := p]
  {
    assert (ps + [StaPriority(b, p)])[..|ps|] == ps;
  }

  lemma TableAllMin(ps: seq<StaPriority>)
    requires Distinct(ps)
    ensures AllMin(Table(ps)) <==> forall i :: 0 <= i < |ps| ==> ps[i].priority == MIN_PRIORITY
  {
    forall i | 0 <= i < |ps| ensures ps[i].bssid in Table(ps) && Table(ps)[ps[i].bssid] == ps[i].priority {
      TableAt(ps, i);
    }
    forall b | b in Table(ps) ensures exists i :: 0 <= i < |ps| && ps[i].bssid == b {
      TableKeys(ps, b);
    }
  }

  lemma OwnerFound(r: ScanResult, sta: seq<Ap>, j: nat)
    requires j <= |sta| && forall k :: 0 <= k < j ==> !Belongs(r, sta[k])
    requires j < |sta| ==> Belongs(r, sta[j])
    ensures FirstOwner(r, sta) == j
  {
    FirstOwnerIsFirst(r, sta);
  }

  /** One result marked, and its BSSID entered in the table, if it belongs to a network. */
  function Entered(sta: seq<Ap>, r: ScanResult, table: map<Bssid, Int8>): (ScanResult, map<Bssid, Int8>) {
    var owner := FirstOwner(r, sta);
    if owner == |sta| then (r, table)
    else
      var known := if r.bssid in table then table else table[r.bssid := sta[owner].priority];
      (r.(matches := true, priority := known[r.bssid]), known)
  }

  /** The scan with its first `i` results marked. */
  function MarkedUpTo(sta: seq<Ap>, scan: seq<ScanResult>, i: nat, table: map<Bssid, Int8>): seq<ScanResult>
    requires i <= |scan|
  {
    Track(sta, scan[..i], table).0 + scan[i..]
  }

  lemma TrackNext(sta: seq<Ap>, scan: seq<ScanResult>, i: nat, table: map<Bssid, Int8>)
    requires i < |scan|
    ensures
      var (r, known) := Entered(sta, scan[i], Track(sta, scan[..i], table).1);
      && MarkedUpTo(sta, scan, i, table)[i] == scan[i]
      && MarkedUpTo(sta, scan, i + 1, table) == MarkedUpTo(sta, scan, i, table)[i := r]
      && Track(sta, scan[..i + 1], table).1 == known
  {
    assert scan[..i + 1][..i] == scan[..i];
    assert scan[i..] == [scan[i]] + scan[i + 1..];
  }

  lemma TrackWhole(sta: seq<Ap>, scan: seq<ScanResult>, table: map<Bssid, Int8>)
    ensures MarkedUpTo(sta, scan, 0, table) == scan && Track(sta, scan[..0], table).1 == table
    ensures MarkedUpTo(sta, scan, |scan|, table) == Track(sta, scan, table).0
    ensures Track(sta, scan[..|scan|], table).1 == Track(sta, scan, table).1
  {
    assert scan[..|scan|] == scan && scan[..0] == [];
  }

  /** What becomes of a state whose scan results are marked and sorted. */
  function ActOn(cfg: Config, b: State, env: Env): State {
    if FoundMatch(cfg, b) then
      var (t, waits) := RetrySpec.TransitionToPhase(cfg, b.(selected := FirstOwner(b.scan[0], cfg.sta)), ScanConnecting, env);
      if waits then t else Connect(cfg, t, env)
    else
      var t := RetrySpec.TransitionToPhase(cfg, b, RetryHidden, env).0;
      if t.selected == -1 then t else Connect(cfg, t, env)
  }

  lemma ActOnBegins(cfg: Config, b: State, env: Env)
    requires b.scan != []
    ensures
      if FoundMatch(cfg, b) then ActionBegins(b, ActOn(cfg, b, env))
      else
        var t := RetrySpec.TransitionToPhase(cfg, b, RetryHidden, env).0;
        ActionBegins(b, ActOn(cfg, b, env)) == (t.selected != -1)
  {
    MatchBegins(cfg, b, b.(selected := FirstOwner(b.scan[0], cfg.sta)), env);
    NoMatchBegins(cfg, b, b, env);
  }

  lemma ScanFinishedActs(cfg: Config, s: State, env: Env)
    requires s.scan != []
    ensures ScanFinished(cfg, s, env) == ActOn(cfg, Marked(cfg, s, env), env)
  {
    ScanFinishedCases(cfg, s, env);
  }

  lemma {:induction false} UnmarkedIsSame(s: seq<ScanResult>)
    requires forall k :: 0 <= k < |s| ==> !s[k].matches && s[k].priority == 0
    ensures Unmarked(s) == s
  {
  }

  /** The access points that an attempt at `config` in the phase may end up at, going by what a scan shows of them. */
  predicate Reaches(config: Ap, phase: Phase, scan: seq<ScanResult>, r: ScanResult) {
    var named := if config.hidden then r.isHidden else config.ssid == "" || r.ssid == config.ssid;
    (r.withAuth <==> config.password != "") &&
    match phase
    case ExplicitHidden => named
    case RetryHidden => named
    case ScanConnecting =>
      if scan == [] then Belongs(r, config)
      else
        && (scan[0].ssid == "" || r.ssid == scan[0].ssid) && (scan[0].bssid == 0 || r.bssid == scan[0].bssid)
        && (scan[0].channel == 0 || r.channel == scan[0].channel)
    case _ => Belongs(r, config)
  }

  class WifiComponent {
    const cfg: Config
    const postConnectRoaming: bool

    var retryPhase: Phase
    var numRetried: nat
    var selectedStaIndex: Index
    var retryHiddenMode: HiddenMode
    var scanResult: seq<ScanResult>
    var scanDone: bool
    var hasCompletedScanAfterCaptivePortalStart: bool
    var errorFromCallback: bool
    var staPriorities: seq<StaPriority>
    var state: Link
    var actionStarted: Reading
    var roamingState: RoamPhase
    var roamingAttempts: nat
    var roamingLastCheck: Reading
    var roamingScanEnd: Reading
    var roamingTargetBssid: Bssid

    /** The driver runs a scan; and the connections it was asked for. */
    ghost var scanPending: bool
    ghost var attempts: seq<Attempt>
    /** The true time, and the one at which the last cooldown, scan or attempt began. */
    ghost var trueNow: nat
    ghost var begunAt: nat

    ghost function View(): State
      reads this
    {
      State(retryPhase, numRetried, selectedStaIndex, retryHiddenMode, scanResult, scanDone, scanPending,
            hasCompletedScanAfterCaptivePortalStart, errorFromCallback, Table(staPriorities), state, attempts)
    }

    ghost function RoamView(): Roam
      reads this
    {
      Roam(roamingState, roamingAttempts, roamingLastCheck, roamingScanEnd, roamingTargetBssid)
    }

    /** Both machines. */
    ghost function Both(): Whole
      reads this
    {
      Whole(View(), RoamView())
    }

    /** The stored time is the one at which the last action began. */
    ghost predicate Clocked()
      reads this
    {
      actionStarted == Shown(begunAt) && begunAt <= trueNow
    }

    /** What holds in every run: the index stays in the list, the retry counter at most 1, the attempts at most 3. */
    ghost predicate Valid()
      reads this
    {
      cfg.Valid() && Distinct(staPriorities) && Inv(cfg, View()) && Together(Both()) && Clocked()
    }

    constructor (cfg: Config, postConnectRoaming: bool)
      requires 1 <= |cfg.sta| <= 127
      ensures this.cfg == cfg && this.postConnectRoaming == postConnectRoaming
      ensures Valid() && Both() == IDLE && trueNow == 0
    {
      this.cfg, this.postConnectRoaming := cfg, postConnectRoaming;
      retryPhase, numRetried, selectedStaIndex, retryHiddenMode := InitialConnect, 0, -1, BlindRetry;
      scanResult, scanDone, hasCompletedScanAfterCaptivePortalStart := [], false, false;
      errorFromCallback, staPriorities, state, actionStarted := false, [], Off, 0;
      roamingState, roamingAttempts, roamingLastCheck, roamingScanEnd := NotRoaming, 0, 0, 0;
      roamingTargetBssid := 0;
      scanPending, attempts := false, [];
      trueNow, begunAt := 0, 0;
    }

    // ---- Priorities ----

    method HasStaPriority(bssid: Bssid) returns (found: bool)
      ensures found <==> bssid in Table(staPriorities)
    {
      TableKeys(staPriorities, bssid);
      for i := 0 to |staPriorities|
        invariant forall k :: 0 <= k < i ==> staPriorities[k].bssid != bssid
      {
        if staPriorities[i].bssid == bssid { return true; }
      }
      return false;
    }

    method GetStaPriority(bssid: Bssid) returns (priority: Int8)
      requires Distinct(staPriorities)
      ensures priority == GetPriority(Table(staPriorities), bssid)
    {
      TableKeys(staPriorities, bssid);
      for i := 0 to |staPriorities|
        invariant forall k :: 0 <= k < i ==> staPriorities[k].bssid != bssid
      {
        if staPriorities[i].bssid == bssid {
          TableAt(staPriorities, i);
          return staPriorities[i].priority;
        }
      }
      return 0;
    }

    method SetStaPriority(bssid: Bssid, priority: Int8)
      requires Distinct(staPriorities)
      modifies `staPriorities
      ensures Distinct(staPriorities) && Table(staPriorities) == old(Table(staPriorities))[bssid := priority]
    {
      for i := 0 to |staPriorities|
        invariant staPriorities == old(staPriorities)
        invariant forall k :: 0 <= k < i ==> staPriorities[k].bssid != bssid
      {
        if staPriorities[i].bssid == bssid {
          TableUpdate(staPriorities, i, priority);
          staPriorities := staPriorities[i := StaPriority(bssid, priority)];
          return;
        }
      }
      TableAppend(staPriorities, bssid, priority);
      staPriorities := staPriorities + [StaPriority(bssid, priority)];
    }

    method ClearPrioritiesIfAllMin()
      requires Distinct(staPriorities)
      modifies `staPriorities
      ensures Distinct(staPriorities) && Table(staPriorities) == ClearIfAllMin(old(Table(staPriorities)))
    {
      TableAllMin(staPriorities);
      if staPriorities == [] { return; }
      var first := staPriorities[0].priority;
      if first != MIN_PRIORITY { return; }
      for i := 0 to |staPriorities|
        invariant staPriorities == old(staPriorities)
        invariant forall k :: 0 <= k < i ==> staPriorities[k].priority == first
      {
        if staPriorities[i].priority != first { return; }
      }
      staPriorities := [];
    }

    /** Takes a point off the BSSID that was tried, if this was the last attempt at it. */
    method AdjustPriorityForFailedConnect()
      requires Distinct(staPriorities)
      modifies `staPriorities
      ensures Distinct(staPriorities) && View() == Penalise(cfg, old(View()))
    {
      var failed: Bssid;
      if retryPhase == ScanConnecting && scanResult != [] {
        failed := scanResult[0].bssid;
      } else if 0 <= selectedStaIndex < |cfg.sta| && cfg.sta[selectedStaIndex].HasBssid() {
        failed := cfg.sta[selectedStaIndex].bssid;
      } else {
        return;
      }
      assert FailedBssid(cfg, View()) == TheBssid(failed);
      if numRetried + 1 >= MaxRetries(retryPhase) {
        var before := GetStaPriority(failed);
        SetStaPriority(failed, if before > MIN_PRIORITY then before - 1 else MIN_PRIORITY);
      }
      ClearPrioritiesIfAllMin();
    }

    // ---- Choosing a network ----

    method FindFirstNonHiddenIndex() returns (i: Index)
      ensures i == if HiddenPrefix(cfg.sta) == |cfg.sta| then -1 else HiddenPrefix(cfg.sta)
    {
      HiddenPrefixIsMaximal(cfg.sta);
      i := 0;
      while i < |cfg.sta|
        invariant 0 <= i <= |cfg.sta| && i <= HiddenPrefix(cfg.sta)
      {
        if !cfg.sta[i].hidden { return; }
        i := i + 1;
      }
      return -1;
    }

    method SsidWasSeenInScan(ssid: string) returns (seen: bool)
      ensures seen == SsidSeen(cfg.sta, scanResult, ssid)
    {
      for i := 0 to |cfg.sta|
        invariant forall k :: 0 <= k < i ==> !(cfg.sta[k].ssid == ssid && cfg.sta[k].hidden)
      {
        if cfg.sta[i].ssid == ssid && cfg.sta[i].hidden { return false; }
      }
      for i := 0 to |scanResult|
        invariant forall k :: 0 <= k < i ==> scanResult[k].ssid != ssid
      {
        if scanResult[i].ssid == ssid { return true; }
      }
      return false;
    }

    method FindNextHiddenSta(start: Index) returns (next: Index)
      ensures next == FindNextHidden(cfg, View(), start)
    {
      var includeExplicitHidden := !cfg.HiddenFirst();
      HiddenPrefixIsMaximal(cfg.sta);
      var i := start + 1;
      while i < |cfg.sta|
        invariant 0 <= i
        invariant FindNextHidden(cfg, View(), start) == NextCandidate(cfg, View(), i)
      {
        var skip := false;
        if !includeExplicitHidden && cfg.sta[i].hidden {
          var first := FindFirstNonHiddenIndex();
          skip := first < 0 || i < first;
        }
        assert skip == (cfg.HiddenFirst() && i < HiddenPrefix(cfg.sta));
        if !skip {
          var seen := SsidWasSeenInScan(cfg.sta[i].ssid);
          if retryHiddenMode == BlindRetry || !seen { return i; }
        }
        i := i + 1;
      }
      return -1;
    }

    /**
     * The parameters carry the password of the selected network. Which access points they reach depends on the
     * phase: those of the network; with its BSSID and channel left open; or the best scan result alone.
     */
    method BuildParamsForCurrentPhase() returns (params: Ap)
      ensures params == BuildParams(cfg, View())
      ensures HasSelected(cfg, View()) ==> params.password == cfg.sta[selectedStaIndex].password
      ensures HasSelected(cfg, View()) ==> forall r :: Reaches(cfg.sta[selectedStaIndex], retryPhase, scanResult, r) ==
                                                       Belongs(r, params)
    {
      if !(0 <= selectedStaIndex < |cfg.sta|) { return EMPTY_AP; }
      params := cfg.sta[selectedStaIndex];
      match retryPhase {
        case ExplicitHidden => params := params.(bssid := 0, channel := 0);
        case RetryHidden => params := params.(bssid := 0, channel := 0);
        case ScanConnecting =>
          if scanResult != [] {
            params := params.(hidden := false, ssid := scanResult[0].ssid, bssid := scanResult[0].bssid,
                              channel := scanResult[0].channel);
          }
        case _ =>
      }
    }

    // ---- Driver calls ----

    method StartScanning(env: Env, now: Reading)
      modifies `actionStarted, `state, `scanDone, `scanPending
      ensures View() == RetrySpec.StartScanning(old(View()), env) && actionStarted == now
    {
      actionStarted := now;
      if env.scanStarts {
        scanDone := false;
        scanPending := true;
      }
      state := Scanning;
    }

    method StartConnecting(params: Ap, env: Env, now: Reading)
      modifies `actionStarted, `state, `errorFromCallback, `attempts
      ensures View() == RetrySpec.StartConnecting(old(View()), params, env) && actionStarted == now
    {
      errorFromCallback := false;
      attempts := attempts + [Attempt(retryPhase, selectedStaIndex, params)];
      state := if env.connects then Connecting else Cooldown;
      actionStarted := now;
    }

    // ---- Phases ----

    method DetermineNextPhase(env: Env) returns (next: Phase)
      ensures next == RetrySpec.DetermineNextPhase(cfg, View(), env)
    {
      match retryPhase {
        case ExplicitHidden =>
          if numRetried + 1 < RETRY_COUNT_PER_SSID { return ExplicitHidden; }
          var nextIndex := selectedStaIndex + 1;
          if nextIndex < |cfg.sta| && cfg.sta[nextIndex].hidden { return ExplicitHidden; }
          var first := FindFirstNonHiddenIndex();
          return if first < 0 then RestartingAdapter else ScanConnecting;
        case ScanConnecting =>
          if scanResult == [] || !scanResult[0].matches { return RetryHidden; }
          if numRetried + 1 < RETRY_COUNT_PER_BSSID { return ScanConnecting; }
          var candidate := FindNextHiddenSta(-1);
          return if candidate >= 0 then RetryHidden else RestartingAdapter;
        case RetryHidden =>
          if selectedStaIndex >= 0 {
            if numRetried + 1 < RETRY_COUNT_PER_SSID { return RetryHidden; }
            if selectedStaIndex < |cfg.sta| - 1 {
              var candidate := FindNextHiddenSta(selectedStaIndex);
              if candidate != -1 { return RetryHidden; }
            }
          }
          return RestartingAdapter;
        case RestartingAdapter =>
          if cfg.HiddenFirst() { return ExplicitHidden; }
          if env.portal {
            if hasCompletedScanAfterCaptivePortalStart { return RetryHidden; }
          } else if env.improv {
            return RetryHidden;
          }
          return ScanConnecting;
        case _ =>
          if cfg.fastConnect && selectedStaIndex < |cfg.sta| - 1 { return FastConnectCyclingAps; }
          return if cfg.HiddenFirst() then ExplicitHidden else ScanConnecting;
      }
    }

    /** The adapter is restarted (or left alone for the portal), and a cooldown begins. */
    method EnterRestartingAdapter(env: Env, now: Reading)
      modifies `retryHiddenMode, `errorFromCallback, `state, `actionStarted
      ensures View() == old(View()).(error := old(errorFromCallback) && (env.portal || env.improv), mode := BlindRetry,
                                     link := Cooldown)
      ensures actionStarted == now
    {
      if !env.portal && !env.improv {
        errorFromCallback := false;
      }
      retryHiddenMode := BlindRetry;
      state := Cooldown;
      actionStarted := now;
    }

    /** Scans, unless results are at hand and the phase before did not ask for fresh ones. */
    method EnterScanConnecting(before: Phase, env: Env, now: Reading) returns (waits: bool)
      modifies `selectedStaIndex, `scanDone, `scanPending, `state, `actionStarted
      ensures waits == (old(scanResult) == [] || before.ExplicitHidden? || before.RetryHidden? || before.RestartingAdapter?)
      ensures View() == if waits then RetrySpec.StartScanning(old(View()).(selected := -1), env) else old(View())
      ensures actionStarted == if waits then now else old(actionStarted)
    {
      if scanResult == [] || before == ExplicitHidden || before == RetryHidden || before == RestartingAdapter {
        selectedStaIndex := -1;
        StartScanning(env, now);
        return true;
      }
      return false;
    }

    method TransitionToPhase(next: Phase, env: Env, now: Reading) returns (waits: bool)
      modifies `retryPhase, `numRetried, `selectedStaIndex, `scanResult, `scanDone, `scanPending, `retryHiddenMode,
               `errorFromCallback, `state, `actionStarted
      ensures (View(), waits) == RetrySpec.TransitionToPhase(cfg, old(View()), next, env)
      ensures actionStarted == if waits then now else old(actionStarted)
    {
      var before := retryPhase;
      if before == next { return false; }
      retryPhase := next;
      numRetried := 0;
      waits := false;
      match next {
        case FastConnectCyclingAps =>
          selectedStaIndex := selectedStaIndex + 1;
          scanResult := [];
        case ExplicitHidden => selectedStaIndex := 0;
        case ScanConnecting => waits := EnterScanConnecting(before, env, now);
        case RetryHidden => selectedStaIndex := FindNextHiddenSta(-1);
        case RestartingAdapter =>
          EnterRestartingAdapter(env, now);
          waits := true;
        case InitialConnect =>
      }
    }

    method AdvanceToNextTargetOrIncrementRetry()
      modifies `selectedStaIndex, `numRetried
      ensures View() == Advance(cfg, old(View()))
    {
      if retryPhase == FastConnectCyclingAps {
        selectedStaIndex := selectedStaIndex + 1;
        numRetried := 0;
        return;
      }
      if retryPhase == ExplicitHidden && numRetried + 1 >= RETRY_COUNT_PER_SSID {
        var next := selectedStaIndex + 1;
        if next < |cfg.sta| && cfg.sta[next].hidden {
          selectedStaIndex := next;
          numRetried := 0;
          return;
        }
      }
      if retryPhase == RetryHidden && numRetried + 1 >= RETRY_COUNT_PER_SSID {
        var next := FindNextHiddenSta(selectedStaIndex);
        if next != -1 {
          selectedStaIndex := next;
          numRetried := 0;
          return;
        }
        selectedStaIndex := -1;
        return;
      }
      if retryPhase == ScanConnecting && (scanResult == [] || !scanResult[0].matches) { return; }
      numRetried := numRetried + 1;
    }

    method UpdateRoamingOnRetry(now: Reading)
      modifies `roamingState, `roamingAttempts, `roamingLastCheck, `roamingScanEnd, `roamingTargetBssid
      ensures RoamView() == OnRetry(old(RoamView()), now)
    {
      if roamingState == RoamConnect || roamingState == RoamScan {
        roamingState := RoamReconnect;
      } else if roamingState == NotRoaming {
        if roamingScanEnd != 0 && Elapsed(now, roamingScanEnd) < SCAN_GRACE_PERIOD {
          roamingState := RoamReconnect;
        } else {
          roamingAttempts, roamingLastCheck, roamingScanEnd, roamingTargetBssid := 0, 0, 0, 0;
        }
      }
    }

    /** The part of a retry after the penalty: next phase, next target, next attempt. */
    method MoveOn(env: Env, now: Reading)
      modifies `retryPhase, `numRetried, `selectedStaIndex, `scanResult, `scanDone, `scanPending, `retryHiddenMode,
               `errorFromCallback, `state, `actionStarted, `attempts
      ensures View() == RetrySpec.MoveOn(cfg, old(View()), env)
      ensures actionStarted == if ActionBegins(old(View()), View()) then now else old(actionStarted)
    {
      MoveOnBegins(cfg, View(), env);
      var current := retryPhase;
      var next := DetermineNextPhase(env);
      var waits := TransitionToPhase(next, env, now);
      if waits { return; }
      if next == current {
        AdvanceToNextTargetOrIncrementRetry();
      }
      if selectedStaIndex >= 0 {
        var params := BuildParamsForCurrentPhase();
        StartConnecting(params, env, now);
      }
    }

    method RetryConnect(env: Env, now: Reading)
      requires Distinct(staPriorities)
      modifies this
      ensures Distinct(staPriorities)
      ensures View() == RetrySpec.RetryConnect(cfg, old(View()), env)
      ensures RoamView() == OnRetry(old(RoamView()), now)
      ensures actionStarted == if ActionBegins(old(View()), View()) then now else old(actionStarted)
      ensures unchanged(`trueNow, `begunAt)
    {
      ghost var before := View();
      UpdateRoamingOnRetry(now);
      assert View() == before;
      AdjustPriorityForFailedConnect();
      PenaltyBeginsNothing(cfg, before);
      assert View() == Penalise(cfg, before);
      MoveOn(env, now);
      SameBegins(before, Penalise(cfg, before), View());
    }

    // ---- Finished scans ----

    method FindOwner(r: ScanResult) returns (i: nat)
      ensures i == FirstOwner(r, cfg.sta)
    {
      i := 0;
      while i < |cfg.sta|
        invariant i <= |cfg.sta| && forall k :: 0 <= k < i ==> !Belongs(r, cfg.sta[k])
      {
        if Belongs(r, cfg.sta[i]) { break; }
        i := i + 1;
      }
      OwnerFound(r, cfg.sta, i);
    }

    method MarkScanResult(i: nat)
      requires Distinct(staPriorities) && i < |scanResult|
      modifies `scanResult, `staPriorities
      ensures Distinct(staPriorities)
      ensures
        var (r, known) := Entered(cfg.sta, old(scanResult[i]), old(Table(staPriorities)));
        scanResult == old(scanResult)[i := r] && Table(staPriorities) == known
    {
      var res := scanResult[i];
      var owner := FindOwner(res);
      if owner < |cfg.sta| {
        var known := HasStaPriority(res.bssid);
        if !known {
          SetStaPriority(res.bssid, cfg.sta[owner].priority);
        }
        var priority := GetStaPriority(res.bssid);
        scanResult := scanResult[i := res.(matches := true, priority := priority)];
      }
    }

    /** Marks the results of configured networks and looks up or enters their priorities. */
    method MarkScanResults()
      requires Distinct(staPriorities)
      modifies `scanResult, `staPriorities
      ensures Distinct(staPriorities)
      ensures (scanResult, Table(staPriorities)) == Track(cfg.sta, old(scanResult), old(Table(staPriorities)))
    {
      ghost var scan, table := scanResult, Table(staPriorities);
      TrackWhole(cfg.sta, scan, table);
      for i := 0 to |scanResult|
        invariant Distinct(staPriorities) && |scanResult| == |scan|
        invariant scanResult == MarkedUpTo(cfg.sta, scan, i, table)
        invariant Table(staPriorities) == Track(cfg.sta, scan[..i], table).1
      {
        TrackNext(cfg.sta, scan, i, table);
        MarkScanResult(i);
      }
    }

    method SortResults()
      modifies `scanResult
      ensures scanResult == ScanSort.InsertionSort(old(scanResult))
    {
      var results := new ScanResult[|scanResult|](i requires 0 <= i < |scanResult| reads this => scanResult[i]);
      assert results[..] == scanResult;
      ScanSort.SortScanResults(results);
      scanResult := results[..];
    }

    /** Connects to the best result, or goes on with hidden networks when it belongs to none. */
    method ActOnScanResults(env: Env, now: Reading)
      requires scanResult != []
      modifies `retryPhase, `numRetried, `selectedStaIndex, `scanResult, `scanDone, `scanPending, `retryHiddenMode,
               `errorFromCallback, `state, `actionStarted, `attempts
      ensures View() == ActOn(cfg, old(View()), env)
      ensures actionStarted == if ActionBegins(old(View()), View()) then now else old(actionStarted)
    {
      ActOnBegins(cfg, View(), env);
      var owner := |cfg.sta|;
      if scanResult[0].matches {
        owner := FindOwner(scanResult[0]);
      }
      if owner < |cfg.sta| {
        selectedStaIndex := owner;
        var waits := TransitionToPhase(ScanConnecting, env, now);
        if waits { return; }
      } else {
        var _ := TransitionToPhase(RetryHidden, env, now);
        if selectedStaIndex == -1 { return; }
      }
      var params := BuildParamsForCurrentPhase();
      StartConnecting(params, env, now);
    }

    method PrepareScanResults(env: Env)
      requires Distinct(staPriorities)
      modifies `scanDone, `hasCompletedScanAfterCaptivePortalStart, `retryHiddenMode, `scanResult, `staPriorities
      ensures Distinct(staPriorities) && View() == Marked(cfg, old(View()), env)
    {
      scanDone := false;
      hasCompletedScanAfterCaptivePortalStart := !env.filtered;
      retryHiddenMode := ScanBased;
      MarkScanResults();
      SortResults();
    }

    method ActOnMarked(env: Env, now: Reading)
      requires Distinct(staPriorities) && scanResult != []
      modifies `retryPhase, `numRetried, `selectedStaIndex, `scanResult, `scanDone, `scanPending, `retryHiddenMode,
               `hasCompletedScanAfterCaptivePortalStart, `errorFromCallback, `staPriorities, `state, `actionStarted,
               `attempts
      ensures Distinct(staPriorities) && View() == ActOn(cfg, Marked(cfg, old(View()), env), env)
      ensures actionStarted == if ActionBegins(old(View()), View()) then now else old(actionStarted)
    {
      ghost var before := View();
      ghost var marked := Marked(cfg, before, env);
      MarkedIsNotEmpty(cfg, before, env);
      PrepareScanResults(env);
      assert View() == marked;
      ActOnScanResults(env, now);
      assert View() == ActOn(cfg, marked, env);
      SameBegins(before, marked, View());
    }

    method UseScanResults(env: Env, now: Reading)
      requires Distinct(staPriorities) && scanResult != []
      modifies `retryPhase, `numRetried, `selectedStaIndex, `scanResult, `scanDone, `scanPending, `retryHiddenMode,
               `hasCompletedScanAfterCaptivePortalStart, `errorFromCallback, `staPriorities, `state, `actionStarted,
               `attempts
      ensures Distinct(staPriorities) && RoamView() == old(RoamView())
      ensures View() == ScanFinished(cfg, old(View()), env)
      ensures actionStarted == if ActionBegins(old(View()), View()) then now else old(actionStarted)
    {
      ScanFinishedActs(cfg, View(), env);
      ActOnMarked(env, now);
    }

    /** A scan that found nothing is a failure. */
    method UseEmptyScan(env: Env, now: Reading)
      requires Distinct(staPriorities) && scanResult == []
      modifies this
      ensures Distinct(staPriorities) && RoamView() == OnRetry(old(RoamView()), now)
      ensures View() == ScanFinished(cfg, old(View()), env)
      ensures actionStarted == if ActionBegins(old(View()), View()) then now else old(actionStarted)
      ensures unchanged(`trueNow, `begunAt)
    {
      ghost var before := View();
      scanDone := false;
      hasCompletedScanAfterCaptivePortalStart := !env.filtered;
      retryHiddenMode := ScanBased;
      ghost var read := View();
      RetryConnect(env, now);
      SameBegins(before, read, View());
    }

    method CheckScanningFinished(env: Env, now: Reading)
      requires Distinct(staPriorities)
      modifies this
      ensures Distinct(staPriorities)
      ensures View() == RetrySpec.CheckScanningFinished(cfg, old(View()), Elapsed(now, old(actionStarted)) > SCAN_TIMEOUT, env)
      ensures RoamView() ==
              if (if old(scanDone) then old(scanResult) == [] else Elapsed(now, old(actionStarted)) > SCAN_TIMEOUT)
              then OnRetry(old(RoamView()), now) else old(RoamView())
      ensures actionStarted == if ActionBegins(old(View()), View()) then now else old(actionStarted)
      ensures unchanged(`trueNow, `begunAt)
    {
      if !scanDone {
        if Elapsed(now, actionStarted) > SCAN_TIMEOUT {
          RetryConnect(env, now);
        }
        return;
      }
      if scanResult == [] {
        UseEmptyScan(env, now);
        return;
      }
      UseScanResults(env, now);
    }

    // ---- Attempts that end ----

    method UpdateRoamingOnConnected(now: Reading, current: Bssid)
      modifies `roamingState, `roamingAttempts, `roamingLastCheck, `roamingScanEnd, `roamingTargetBssid
      ensures RoamView() == OnConnected(old(RoamView()), now, current)
    {
      roamingLastCheck := now;
      if roamingState == RoamConnect {
        roamingAttempts := 0;
      } else if roamingState == RoamReconnect {
        if roamingTargetBssid != 0 && current == roamingTargetBssid {
          roamingAttempts := 0;
        }
      } else {
        roamingAttempts := 0;
      }
      roamingState := NotRoaming;
      roamingTargetBssid := 0;
      roamingScanEnd := 0;
    }

    /** A connection starts the machine afresh and forgets all penalties. */
    method ResetOnConnected()
      modifies `retryPhase, `numRetried, `state, `staPriorities, `scanResult
      ensures Distinct(staPriorities) && View() == Succeeded(old(View()))
    {
      retryPhase := InitialConnect;
      numRetried := 0;
      state := Connected;
      staPriorities := [];
      scanResult := [];
    }

    /** The attempt has brought a connection; nothing begins with it. */
    method Succeed(now: Reading, current: Bssid)
      modifies `retryPhase, `numRetried, `state, `staPriorities, `scanResult, `roamingState, `roamingAttempts,
               `roamingLastCheck, `roamingScanEnd, `roamingTargetBssid
      ensures Distinct(staPriorities) && View() == Succeeded(old(View()))
      ensures RoamView() == OnConnected(old(RoamView()), now, current) && !ActionBegins(old(View()), View())
    {
      ghost var before := View();
      UpdateRoamingOnConnected(now, current);
      assert View() == before;
      ResetOnConnected();
    }

    /** `tick` holds what the driver reports; its `timedOut` is what the clock says. */
    method CheckConnectingFinished(tick: Event, now: Reading, current: Bssid)
      requires Distinct(staPriorities) && tick.Tick?
      requires tick.timedOut == (Elapsed(now, actionStarted) > CONNECT_TIMEOUT)
      modifies this
      ensures Distinct(staPriorities)
      ensures View() == RetrySpec.CheckConnectingFinished(cfg, old(View()), tick.status, tick.ssidEmpty, tick.timedOut,
                                                          tick.env)
      ensures RoamView() == if old(Fails(View(), tick)) then OnRetry(old(RoamView()), now)
                            else if tick.status == Up then OnConnected(old(RoamView()), now, current)
                            else old(RoamView())
      ensures actionStarted == if ActionBegins(old(View()), View()) then now else old(actionStarted)
      ensures unchanged(`trueNow, `begunAt)
    {
      if tick.status == Up {
        if tick.ssidEmpty {
          RetryConnect(tick.env, now);
        } else {
          Succeed(now, current);
        }
        return;
      }
      if Elapsed(now, actionStarted) > CONNECT_TIMEOUT || errorFromCallback || tick.status != InProgress {
        RetryConnect(tick.env, now);
      }
    }

    // ---- Roaming ----

    method FindRoamTarget(ssid: string, current: Bssid) returns (best: Index)
      ensures best == BestOther(scanResult, ssid, current)
    {
      best := -1;
      for i := 0 to |scanResult|
        invariant best == BestOther(scanResult[..i], ssid, current)
      {
        assert scanResult[..i + 1][..i] == scanResult[..i];
        if scanResult[i].ssid == ssid && scanResult[i].bssid != current
           && (best == -1 || scanResult[i].rssi > scanResult[best].rssi) {
          best := i;
        }
      }
      assert scanResult[..|scanResult|] == scanResult;
    }

    /** A scan that the driver does not start leaves nothing to wait for. */
    method StartRoamScan(env: Env)
      requires state == Connected
      modifies `roamingState, `scanDone, `scanPending
      ensures View() == Step(cfg, old(View()), RoamScanStarted(env))
      ensures RoamView() == old(RoamView()).(phase := if env.scanStarts then RoamScan else NotRoaming)
    {
      roamingState := RoamScan;
      if env.scanStarts {
        scanDone := false;
        scanPending := true;
      } else {
        roamingState := NotRoaming;
      }
    }

    /** Counts the check, unless the network is hidden, which ends all checks; says whether a scan is wanted. */
    method CountCheck(now: Reading, rssi: Int8) returns (scans: bool)
      requires roamingState == NotRoaming
      modifies `roamingAttempts, `roamingLastCheck
      ensures scans == AsksForScan(Selected(cfg, View()), rssi)
      ensures RoamView() == Check(old(RoamView()), now, Selected(cfg, View()), rssi, false)
    {
      if !(0 <= selectedStaIndex < |cfg.sta|) || cfg.sta[selectedStaIndex].hidden {
        roamingAttempts := MAX_ATTEMPTS;
        return false;
      }
      roamingLastCheck := now;
      roamingAttempts := roamingAttempts + 1;
      return rssi <= GOOD_RSSI;
    }

    method CheckRoaming(now: Reading, rssi: Int8, env: Env)
      requires Valid() && state == Connected && roamingState == NotRoaming && roamingAttempts < MAX_ATTEMPTS
      modifies `roamingState, `roamingAttempts, `roamingLastCheck, `scanDone, `scanPending
      ensures Valid() && Counts(old(Both()), Both(), false)
      ensures Both() == CheckNow(cfg, old(Both()), now, rssi, env)
    {
      ghost var before := Both();
      ghost var next := CheckNow(cfg, before, now, rssi, env);
      var scans := CountCheck(now, rssi);
      if scans {
        StartRoamScan(env);
      }
      assert Both() == next && View() == next.retry;
      CheckCounts(cfg, before, now, rssi, env);
      CheckKeepsInv(cfg, before, now, rssi, env);
    }

    /** The scan result to roam to, or -1. */
    method ChooseRoamTarget(pass: Pass) returns (target: Index)
      ensures target < |scanResult| && (target != -1 ==> HasSelected(cfg, View()))
      ensures
        var idle := RoamView().(phase := NotRoaming, scanEnd := pass.now);
        ReadScan(RoamView(), pass.now, pass.rssi, pass.ssid, pass.current, Selected(cfg, View()), scanResult) ==
        if target == -1 then (idle, NoAp)
        else (idle.(phase := RoamConnect, target := scanResult[target].bssid),
              TheAp(WithScan(cfg.sta[selectedStaIndex], scanResult[target])))
    {
      if pass.rssi == RSSI_DISCONNECTED { return -1; }
      var best := FindRoamTarget(pass.ssid, pass.current);
      var improvement: Int8 := if best == -1 then 0 else Narrow(scanResult[best].rssi - pass.rssi);
      if !(0 <= selectedStaIndex < |cfg.sta|) || improvement < MIN_IMPROVEMENT { return -1; }
      return best;
    }

    method NoteRoamScan(now: Reading, target: Index)
      requires target < |scanResult|
      modifies `roamingState, `roamingScanEnd, `roamingTargetBssid
      ensures
        var idle := old(RoamView()).(phase := NotRoaming, scanEnd := now);
        RoamView() == if target == -1 then idle else idle.(phase := RoamConnect, target := scanResult[target].bssid)
    {
      roamingState := NotRoaming;
      roamingScanEnd := now;
      if target != -1 {
        roamingState := RoamConnect;
        roamingTargetBssid := scanResult[target].bssid;
      }
    }

    method ReleaseScan()
      modifies `scanDone, `scanResult
      ensures View() == old(View()).(scanDone := false, scan := [])
    {
      scanDone := false;
      scanResult := [];
    }

    /** Releases the scan and connects to the target, if there is one. */
    method UseRoamScan(target: MaybeAp, env: Env, now: Reading)
      requires state == Connected && scanDone
      modifies `scanDone, `scanResult, `actionStarted, `state, `errorFromCallback, `attempts
      ensures View() == Step(cfg, old(View()), RoamScanRead(target, env))
      ensures actionStarted == if ActionBegins(old(View()), View()) then now else old(actionStarted)
    {
      ReleaseScan();
      if target.TheAp? {
        StartConnecting(target.ap, env, now);
      }
    }

    method ProcessRoamingScan(pass: Pass)
      requires state == Connected && scanDone && pass.tick.Tick?
      modifies `scanDone, `scanResult, `roamingState, `roamingScanEnd, `roamingTargetBssid, `actionStarted, `state,
               `errorFromCallback, `attempts
      ensures
        var (roam, target) := ReadScan(old(RoamView()), pass.now, pass.rssi, pass.ssid, pass.current,
                                       Selected(cfg, old(View())), old(scanResult));
        RoamView() == roam && View() == Step(cfg, old(View()), RoamScanRead(target, pass.tick.env))
      ensures actionStarted == if ActionBegins(old(View()), View()) then pass.now else old(actionStarted)
    {
      var target := ChooseRoamTarget(pass);
      NoteRoamScan(pass.now, target);
      UseRoamScan(if target == -1 then NoAp else TheAp(WithScan(cfg.sta[selectedStaIndex], scanResult[target])),
                  pass.tick.env, pass.now);
    }

    method ForceRoamCheck(status: Status, now: Reading, rssi: Int8, suppressed: bool, env: Env)
      requires Valid()
      modifies `roamingState, `roamingAttempts, `roamingLastCheck, `scanDone, `scanPending
      ensures Valid()
      ensures Both() == Proceed(cfg, postConnectRoaming, old(Both()), Forced(status, now, rssi, suppressed, env))
    {
      if state != Connected || status != Up || errorFromCallback || roamingState != NotRoaming || suppressed { return; }
      roamingAttempts := 0;
      CheckRoaming(now, rssi, env);
    }

    method HandleDriverRoam(now: Reading)
      requires Valid() && state == Connected
      modifies `roamingLastCheck, `roamingAttempts, `roamingScanEnd, `staPriorities
      ensures Valid()
      ensures Both() == Proceed(cfg, postConnectRoaming, old(Both()), DriverRoams(now))
    {
      ProceedKeepsInv(cfg, postConnectRoaming, Both(), DriverRoams(now));
      roamingLastCheck := now;
      roamingAttempts := 0;
      roamingScanEnd := 0;
      staPriorities := [];
    }

    // ---- Driver events and the main loop ----

    method StoreRecords(number: nat, records: seq<ScanStore.Record>, needsFull: bool, filtered: bool)
      returns (stored: seq<ScanResult>, ghost dropped: seq<ScanResult>)
      requires |records| <= number
      ensures ScanStore.Stores(stored, dropped, number, records, cfg.sta, needsFull, filtered)
      ensures Unmarked(stored) == stored
    {
      stored, dropped := ScanStore.StoreScan(number, records, cfg.sta, needsFull, filtered);
      ScanStore.StoredIsUnmarked(stored, dropped, records, cfg.sta, needsFull, ScanStore.Wanted(number, filtered));
      UnmarkedIsSame(stored);
    }

    method HandOver(stored: seq<ScanResult>)
      requires Valid() && Unmarked(stored) == stored
      modifies `scanResult, `scanDone, `scanPending
      ensures Valid() && scanResult == stored
      ensures Both() == Proceed(cfg, postConnectRoaming, old(Both()), ScanArrives(stored))
    {
      ghost var next := Proceed(cfg, postConnectRoaming, Both(), ScanArrives(stored));
      ProceedKeepsInv(cfg, postConnectRoaming, Both(), ScanArrives(stored));
      scanResult := stored;
      scanDone := true;
      scanPending := false;
      assert Both() == next && View() == next.retry;
    }

    /** The driver hands over the records of a scan, the one that was asked for or a stray one; none after an error. */
    method OnScanDone(number: nat, records: seq<ScanStore.Record>, needsFull: bool, filtered: bool)
      returns (ghost dropped: seq<ScanResult>)
      requires Valid() && |records| <= number
      modifies `scanResult, `scanDone, `scanPending
      ensures Valid() && ScanStore.Stores(scanResult, dropped, number, records, cfg.sta, needsFull, filtered)
      ensures Both() == Proceed(cfg, postConnectRoaming, old(Both()), ScanArrives(scanResult))
    {
      var stored;
      stored, dropped := StoreRecords(number, records, needsFull, filtered);
      HandOver(stored);
    }

    method OnDisconnected()
      requires Valid()
      modifies `errorFromCallback
      ensures Valid() && Both() == Proceed(cfg, postConnectRoaming, old(Both()), Disconnects)
    {
      ProceedKeepsInv(cfg, postConnectRoaming, Both(), Disconnects);
      errorFromCallback := true;
    }

    /** The portal has come up: the next scan is its own. */
    method OnPortalStarted()
      requires Valid()
      modifies `hasCompletedScanAfterCaptivePortalStart
      ensures Valid() && Both() == Proceed(cfg, postConnectRoaming, old(Both()), PortalStarts)
    {
      ProceedKeepsInv(cfg, postConnectRoaming, Both(), PortalStarts);
      hasCompletedScanAfterCaptivePortalStart := false;
    }

    method LoopLost(pass: Pass)
      requires Distinct(staPriorities) && pass.tick.Tick? && state == Connected && !StaysConnected(View(), pass.tick)
      modifies this
      ensures Distinct(staPriorities) && Both() == LoopPass(cfg, postConnectRoaming, old(Both()), pass)
      ensures actionStarted == if ActionBegins(old(View()), View()) then pass.now else old(actionStarted)
      ensures unchanged(`trueNow, `begunAt)
    {
      ghost var before := Both();
      state := Connecting;
      ghost var lost := View();
      RetryConnect(pass.tick.env, pass.now);
      SameBegins(before.retry, lost, View());
      assert Both() == LoopPass(cfg, postConnectRoaming, before, pass);
    }

    method LoopConnected(pass: Pass)
      requires Valid() && pass.tick.Tick? && StaysConnected(View(), pass.tick)
      modifies `scanDone, `scanPending, `scanResult, `roamingState, `roamingAttempts, `roamingLastCheck, `roamingScanEnd,
               `roamingTargetBssid, `actionStarted, `state, `errorFromCallback, `attempts
      ensures Both() == LoopPass(cfg, postConnectRoaming, old(Both()), pass)
      ensures actionStarted == if ActionBegins(old(View()), View()) then pass.now else old(actionStarted)
    {
      if roamingState == RoamScan {
        if scanDone {
          ProcessRoamingScan(pass);
        }
      } else if postConnectRoaming && roamingState == NotRoaming && roamingAttempts < MAX_ATTEMPTS
                && Elapsed(pass.now, roamingLastCheck) >= CHECK_INTERVAL && !pass.suppressed {
        CheckRoaming(pass.now, pass.rssi, pass.tick.env);
      }
    }

    method LoopElse(pass: Pass)
      requires Valid() && pass.tick.Tick? && state != Connected && pass == Timed(pass, actionStarted, state)
      modifies this
      ensures Distinct(staPriorities) && Both() == LoopPass(cfg, postConnectRoaming, old(Both()), pass)
      ensures actionStarted == if ActionBegins(old(View()), View()) then pass.now else old(actionStarted)
      ensures unchanged(`trueNow, `begunAt)
    {
      match state {
        case Cooldown =>
          if Elapsed(pass.now, actionStarted) > CooldownDuration(pass.tick.env) {
            CheckConnectingFinished(pass.tick, pass.now, pass.current);
          }
        case Scanning => CheckScanningFinished(pass.tick.env, pass.now);
        case Connecting => CheckConnectingFinished(pass.tick, pass.now, pass.current);
        case Off =>
      }
    }

    method RunPass(pass: Pass)
      requires Valid() && pass.tick.Tick? && pass == Timed(pass, actionStarted, state)
      modifies this
      ensures Distinct(staPriorities) && Both() == LoopPass(cfg, postConnectRoaming, old(Both()), pass)
      ensures actionStarted == if ActionBegins(old(View()), View()) then pass.now else old(actionStarted)
      ensures unchanged(`trueNow, `begunAt)
    {
      if state != Connected {
        LoopElse(pass);
      } else if pass.tick.status != Up || errorFromCallback {
        LoopLost(pass);
      } else {
        LoopConnected(pass);
      }
    }

    /** The true time goes on to `at`, at which an action may have begun since `before`. */
    ghost method NoteTime(before: State, at: nat)
      requires begunAt <= at && actionStarted == Shown(if ActionBegins(before, View()) then at else begunAt)
      modifies `trueNow, `begunAt
      ensures Both() == old(Both()) && Clocked() && trueNow == at
      ensures begunAt == if ActionBegins(before, View()) then at else old(begunAt)
    {
      ghost var now := Both();
      trueNow := at;
      assert Both() == now;
      begunAt := if ActionBegins(before, View()) then at else begunAt;
      assert Both() == now;
    }

    /** One pass of the main loop, `elapsed` after the last pass or start. What it gives up has had its time. */
    method Loop(pass: Pass, ghost elapsed: nat)
      requires Valid() && pass.tick.Tick? && pass.now == Shown(trueNow + elapsed)
      modifies this
      ensures Valid() && trueNow == old(trueNow) + elapsed
      ensures Both() == Proceed(cfg, postConnectRoaming, old(Both()), Passes(Timed(pass, old(actionStarted), old(state))))
      ensures begunAt == if ActionBegins(old(View()), View()) then trueNow else old(begunAt)
      ensures InTime(cfg, old(Both()), Both(), pass, trueNow - old(begunAt))
    {
      var timed := Timed(pass, actionStarted, state);
      ghost var before, at := Both(), trueNow + elapsed;
      ghost var next := LoopPass(cfg, postConnectRoaming, before, timed);
      ProceedKeepsInv(cfg, postConnectRoaming, before, Passes(timed));
      PassIsInTime(cfg, postConnectRoaming, before, pass, begunAt, at);
      RunPass(timed);
      assert Both() == next;
      NoteTime(before.retry, at);
      assert View() == next.retry && Both() == next;
    }

    // ---- Start ----

    method StartInitialConnection(env: Env, now: Reading)
      modifies `retryPhase, `selectedStaIndex, `scanDone, `scanPending, `errorFromCallback, `state, `actionStarted, `attempts
      ensures View() == RetrySpec.StartInitialConnection(cfg, old(View()), env) && actionStarted == now
    {
      if cfg.HiddenFirst() {
        selectedStaIndex := 0;
        retryPhase := ExplicitHidden;
        var params := BuildParamsForCurrentPhase();
        StartConnecting(params, env, now);
      } else {
        StartScanning(env, now);
      }
    }

    method ClearRoamingState()
      modifies `roamingState, `roamingAttempts, `roamingLastCheck, `roamingScanEnd, `roamingTargetBssid
      ensures RoamView() == CLEARED
    {
      roamingAttempts, roamingLastCheck, roamingScanEnd, roamingTargetBssid, roamingState := 0, 0, 0, 0, NotRoaming;
    }

    /** The part of setting new credentials that concerns roaming. */
    method OnCredentialsSet()
      requires Valid()
      modifies `roamingState, `roamingAttempts, `roamingLastCheck, `roamingScanEnd, `roamingTargetBssid
      ensures Valid() && Both() == Proceed(cfg, postConnectRoaming, old(Both()), CredentialsSet)
    {
      ProceedKeepsInv(cfg, postConnectRoaming, Both(), CredentialsSet);
      ClearRoamingState();
    }

    /** Loaded credentials are in the list already; their network is selected, and roaming starts afresh. */
    method UseLoaded(loaded: bool)
      modifies `selectedStaIndex, `roamingState, `roamingAttempts, `roamingLastCheck, `roamingScanEnd, `roamingTargetBssid
      ensures View() == if loaded then old(View()).(selected := 0) else old(View())
      ensures RoamView() == if loaded then CLEARED else old(RoamView())
    {
      if loaded {
        selectedStaIndex := 0;
        ClearRoamingState();
      }
    }

    /** The first attempt or scan after the phase was reset: the saved network, the first network, or a scan. */
    method Begin(saved: Saved, env: Env, now: Reading)
      modifies `retryPhase, `selectedStaIndex, `scanDone, `scanPending, `errorFromCallback, `state, `actionStarted, `attempts
      ensures View() == RetrySpec.Begin(cfg, old(View()), saved, env) && actionStarted == now
    {
      if cfg.fastConnect && saved.SavedAp? && saved.index < |cfg.sta| {
        selectedStaIndex := saved.index;
        StartConnecting(cfg.sta[saved.index].(bssid := saved.bssid, channel := saved.channel, hidden := false), env, now);
      } else if cfg.fastConnect && cfg.sta != [] && !cfg.sta[0].hidden {
        selectedStaIndex := 0;
        var params := BuildParamsForCurrentPhase();
        StartConnecting(params, env, now);
      } else {
        StartInitialConnection(env, now);
      }
    }

    method Reset(loaded: bool, env: Env, now: Reading)
      modifies this
      ensures staPriorities == old(staPriorities)
      ensures View() == RetrySpec.TransitionToPhase(cfg, if loaded then old(View()).(selected := 0) else old(View()),
                                                    InitialConnect, env).0
      ensures RoamView() == if loaded then CLEARED else old(RoamView())
      ensures unchanged(`trueNow, `begunAt)
    {
      UseLoaded(loaded);
      var _ := TransitionToPhase(InitialConnect, env, now);
    }

    method Start(loaded: bool, saved: Saved, env: Env, now: Reading)
      requires cfg.Valid()
      modifies this
      ensures View() == StartUp(cfg, old(View()), loaded, saved, env) && staPriorities == old(staPriorities)
      ensures RoamView() == if loaded then CLEARED else old(RoamView())
      ensures actionStarted == now && unchanged(`trueNow, `begunAt)
    {
      Reset(loaded, env, now);
      Begin(saved, env, now);
    }

    /** Starts after boot, or again after the component was disabled, with whatever was left in the fields. */
    method Enable(loaded: bool, saved: Saved, env: Env, now: Reading, ghost elapsed: nat)
      requires Valid() && now == Shown(trueNow + elapsed)
      modifies this
      ensures Valid() && trueNow == old(trueNow) + elapsed
      ensures Both() == Proceed(cfg, postConnectRoaming, old(Both()), SwitchesOn(loaded, saved, env))
      ensures begunAt == if ActionBegins(old(View()), View()) then trueNow else old(begunAt)
      ensures old(state) == Off ==> begunAt == trueNow
    {
      ghost var before := Both();
      ghost var next := Proceed(cfg, postConnectRoaming, before, SwitchesOn(loaded, saved, env));
      ProceedKeepsInv(cfg, postConnectRoaming, before, SwitchesOn(loaded, saved, env));
      if state == Off {
        StartBegins(cfg, before.retry, loaded, saved, env);
        Start(loaded, saved, env, now);
      }
      assert Both() == next;
      NoteTime(before.retry, trueNow + elapsed);
      assert View() == next.retry && Both() == next;
    }

    method Disable()
      requires Valid()
      modifies `state
      ensures Valid() && Both() == Proceed(cfg, postConnectRoaming, old(Both()), SwitchesOff)
    {
      ProceedKeepsInv(cfg, postConnectRoaming, Both(), SwitchesOff);
      state := Off;
    }
  }
}
