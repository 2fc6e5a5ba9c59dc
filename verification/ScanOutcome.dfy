/** What a finished scan leads to, from the records of the driver to the attempt. */
module ScanOutcome {
  import opened WifiTypes
  import opened ScanSort
  import opened RetrySpec
  import opened RetryBound
  import RetrySync
  import ScanStore

  /** The results are as the driver handler makes them. */
  predicate AreFresh(scan: seq<ScanResult>) { forall k :: 0 <= k < |scan| ==> !scan[k].matches }

  predicate Owned(sta: seq<Ap>, r: ScanResult) { exists i :: 0 <= i < |sta| && Belongs(r, sta[i]) }

  lemma OwnedExactly(sta: seq<Ap>, r: ScanResult)
    ensures Owned(sta, r) <==> FirstOwner(r, sta) < |sta|
  {
    FirstOwnerIsFirst(r, sta);
  }

  /** What marking leaves of one result: its fields, whether it is owned, and the priority the table has in the end. */
  predicate MarkedFrom(sta: seq<Ap>, table: map<Bssid, Int8>, m: ScanResult, r: ScanResult) {
    && m == r.(matches := m.matches, priority := m.priority)
    && (m.matches <==> FirstOwner(r, sta) < |sta|)
    && (m.matches ==> r.bssid in table && m.priority == table[r.bssid])
  }

  lemma {:induction false} TrackMarks(sta: seq<Ap>, scan: seq<ScanResult>, table: map<Bssid, Int8>, k: nat)
    requires AreFresh(scan) && k < |scan|
    ensures MarkedFrom(sta, Track(sta, scan, table).1, Track(sta, scan, table).0[k], scan[k])
  {
    var n := |scan| - 1;
    if k < n {
      TrackMarks(sta, scan[..n], table, k);
      assert scan[..n][k] == scan[k];
    }
  }

  /** The priority that counts for a BSSID once the scan has been read. */
  function PriorityOf(t: State, r: ScanResult): Int8 { GetPriority(t.priorities, r.bssid) }

  /** No owned result has a higher priority than `k`, and none of the same priority a stronger signal. */
  ghost predicate StrongestOfTop(cfg: Config, t: State, scan: seq<ScanResult>, k: nat)
    requires k < |scan|
  {
    && Owned(cfg.sta, scan[k])
    && forall j :: 0 <= j < |scan| && Owned(cfg.sta, scan[j]) ==>
         && PriorityOf(t, scan[j]) <= PriorityOf(t, scan[k])
         && (PriorityOf(t, scan[j]) == PriorityOf(t, scan[k]) ==> scan[j].rssi <= scan[k].rssi)
  }

  /** Where the first result of the marked and sorted scan was in the scan. */
  lemma FirstWasHeard(cfg: Config, s: State, env: Env) returns (k: nat)
    requires s.scan != [] && AreFresh(s.scan)
    ensures
      var b := Marked(cfg, s, env);
      && k < |s.scan| && b.scan != [] && MarkedFrom(cfg.sta, b.priorities, b.scan[0], s.scan[k])
      && forall j :: 0 <= j < |s.scan| ==> Outranks(b.scan[0], Track(cfg.sta, s.scan, s.priorities).0[j])
  {
    var b, marked := Marked(cfg, s, env), Track(cfg.sta, s.scan, s.priorities).0;
    MarkedIsNotEmpty(cfg, s, env);
    BestComesFirst(marked);
    k :| 0 <= k < |marked| && marked[k] == b.scan[0];
    TrackMarks(cfg.sta, s.scan, s.priorities, k);
  }

  lemma FirstIsStrongestOfTop(cfg: Config, s: State, env: Env, k: nat)
    requires s.scan != [] && AreFresh(s.scan) && k < |s.scan|
    requires
      var b := Marked(cfg, s, env);
      && b.scan != [] && b.scan[0].matches && MarkedFrom(cfg.sta, b.priorities, b.scan[0], s.scan[k])
      && forall j :: 0 <= j < |s.scan| ==> Outranks(b.scan[0], Track(cfg.sta, s.scan, s.priorities).0[j])
    ensures StrongestOfTop(cfg, Marked(cfg, s, env), s.scan, k)
  {
    var b, marked := Marked(cfg, s, env), Track(cfg.sta, s.scan, s.priorities).0;
    OwnedExactly(cfg.sta, s.scan[k]);
    forall j | 0 <= j < |s.scan| && Owned(cfg.sta, s.scan[j])
      ensures PriorityOf(b, s.scan[j]) <= PriorityOf(b, s.scan[k])
      ensures PriorityOf(b, s.scan[j]) == PriorityOf(b, s.scan[k]) ==> s.scan[j].rssi <= s.scan[k].rssi
    {
      OwnedExactly(cfg.sta, s.scan[j]);
      TrackMarks(cfg.sta, s.scan, s.priorities, j);
      assert Outranks(b.scan[0], marked[j]);
    }
  }

  /** The attempt at result `k`, made for the first network it belongs to. */
  function AttemptAt(cfg: Config, r: ScanResult): Attempt
    requires FirstOwner(r, cfg.sta) < |cfg.sta|
  {
    var i := FirstOwner(r, cfg.sta);
    Attempt(ScanConnecting, i, cfg.sta[i].(hidden := false, ssid := r.ssid, bssid := r.bssid, channel := r.channel))
  }

  lemma {:induction false} SameOwner(sta: seq<Ap>, m: ScanResult, r: ScanResult)
    requires m == r.(matches := m.matches, priority := m.priority)
    ensures FirstOwner(m, sta) == FirstOwner(r, sta)
  {
    if sta != [] {
      SameOwner(sta[1..], m, r);
    }
  }

  lemma MatchConnects(cfg: Config, s: State, b: State, env: Env)
    requires s.phase == InitialConnect || s.phase == ScanConnecting
    requires b == Marked(cfg, s, env) && FoundMatch(cfg, b) && s.scan != []
    ensures
      var t := ScanFinished(cfg, s, env);
      && t.attempts == s.attempts + [AttemptAt(cfg, b.scan[0])] && t.priorities == b.priorities
      && t.selected == FirstOwner(b.scan[0], cfg.sta) && t.phase == ScanConnecting
  {
    ScanFinishedCases(cfg, s, env);
  }

  lemma FirstIsOwned(cfg: Config, s: State, env: Env, k: nat)
    requires AreFresh(s.scan) && k < |s.scan| && Owned(cfg.sta, s.scan[k])
    requires Marked(cfg, s, env).scan != []
    requires Outranks(Marked(cfg, s, env).scan[0], Track(cfg.sta, s.scan, s.priorities).0[k])
    ensures Marked(cfg, s, env).scan[0].matches
  {
    OwnedExactly(cfg.sta, s.scan[k]);
    TrackMarks(cfg.sta, s.scan, s.priorities, k);
  }

  /**
   * A scan that shows any configured network, read before the hidden networks are tried, is followed at once by an
   * attempt at the strongest of the access points with the highest priority, for the first network it belongs to.
   */
  lemma StrongestOfTopIsTried(cfg: Config, s: State, env: Env) returns (k: nat)
    requires AreFresh(s.scan) && (s.phase == InitialConnect || s.phase == ScanConnecting)
    requires exists j :: 0 <= j < |s.scan| && Owned(cfg.sta, s.scan[j])
    ensures
      var t := ScanFinished(cfg, s, env);
      && k < |s.scan| && StrongestOfTop(cfg, t, s.scan, k) && FirstOwner(s.scan[k], cfg.sta) < |cfg.sta|
      && t.attempts == s.attempts + [AttemptAt(cfg, s.scan[k])]
      && t.selected == FirstOwner(s.scan[k], cfg.sta) && t.phase == ScanConnecting
  {
    var b := Marked(cfg, s, env);
    k := FirstWasHeard(cfg, s, env);
    var j :| 0 <= j < |s.scan| && Owned(cfg.sta, s.scan[j]);
    FirstIsOwned(cfg, s, env, j);
    FirstIsStrongestOfTop(cfg, s, env, k);
    SameOwner(cfg.sta, b.scan[0], s.scan[k]);
    MatchConnects(cfg, s, b, env);
    SamePriorities(cfg, b, ScanFinished(cfg, s, env), s.scan, k);
  }

  lemma SamePriorities(cfg: Config, b: State, t: State, scan: seq<ScanResult>, k: nat)
    requires k < |scan| && t.priorities == b.priorities && StrongestOfTop(cfg, b, scan, k)
    ensures StrongestOfTop(cfg, t, scan, k)
  {
  }

  /** In every run: whenever such a scan is read, this is what it leads to. */
  lemma EveryMatchIsTried(cfg: Config, evs: seq<Event>, pass: Event) returns (k: nat)
    requires cfg.Valid() && pass.Tick?
    requires
      var s := RunOf(cfg, evs).s;
      && s.link == Scanning && s.scanDone && (s.phase == InitialConnect || s.phase == ScanConnecting)
      && exists j :: 0 <= j < |s.scan| && Owned(cfg.sta, s.scan[j])
    ensures
      var s := RunOf(cfg, evs).s;
      var t := Step(cfg, s, pass);
      && s.scan == Unmarked(RetrySync.Latest(evs))
      && k < |s.scan| && StrongestOfTop(cfg, t, s.scan, k) && FirstOwner(s.scan[k], cfg.sta) < |cfg.sta|
      && t.attempts == s.attempts + [AttemptAt(cfg, s.scan[k])]
  {
    RetrySync.ResultsAreTheLatest(cfg, evs);
    k := StrongestOfTopIsTried(cfg, RunOf(cfg, evs).s, pass.env);
  }

  /** A scan that shows none is followed by no attempt at a scan result. */
  lemma NothingOwnedNothingTried(cfg: Config, s: State, env: Env)
    requires AreFresh(s.scan) && s.scan != [] && forall j :: 0 <= j < |s.scan| ==> !Owned(cfg.sta, s.scan[j])
    ensures
      var t := ScanFinished(cfg, s, env);
      && t.phase == RetryHidden
      && (t.attempts == s.attempts ||
          (|t.attempts| == |s.attempts| + 1 && t.attempts[|s.attempts|].phase == RetryHidden))
  {
    var k := FirstWasHeard(cfg, s, env);
    OwnedExactly(cfg.sta, s.scan[k]);
    ScanFinishedCases(cfg, s, env);
    HiddenEntered(cfg, Marked(cfg, s, env), env);
  }

  lemma HiddenEntered(cfg: Config, b: State, env: Env)
    ensures
      var t := TransitionToPhase(cfg, b, RetryHidden, env).0;
      t.phase == RetryHidden && t.attempts == b.attempts
  {
  }

  // ---- From the records of the driver ----

  /** The record shows a network that is not hidden and names an SSID or a BSSID. */
  predicate Shows(sta: seq<Ap>, r: ScanStore.Record) {
    exists i :: 0 <= i < |sta| && !sta[i].hidden && (sta[i].ssid != "" || sta[i].bssid != 0) &&
                Belongs(ScanStore.Fresh(r), sta[i])
  }

  /**
   * A record with an SSID that belongs to such a network is stored, unless the driver filtered the scan and more than
   * a dozen records are of interest; so the scan ends in an attempt at a scan result.
   */
  lemma DeliveredIsTried(cfg: Config, s: State, env: Env, records: seq<ScanStore.Record>, needsFull: bool, r: nat)
    returns (k: nat)
    requires r < |records| && records[r].ssid != "" && Shows(cfg.sta, records[r])
    requires AreFresh(s.scan) && ScanStore.AllStored(s.scan, records, cfg.sta, needsFull)
    requires s.phase == InitialConnect || s.phase == ScanConnecting
    ensures
      var t := ScanFinished(cfg, s, env);
      && k < |s.scan| && StrongestOfTop(cfg, t, s.scan, k) && FirstOwner(s.scan[k], cfg.sta) < |cfg.sta|
      && t.attempts == s.attempts + [AttemptAt(cfg, s.scan[k])]
  {
    var i :| 0 <= i < |cfg.sta| && !cfg.sta[i].hidden && (cfg.sta[i].ssid != "" || cfg.sta[i].bssid != 0) &&
             Belongs(ScanStore.Fresh(records[r]), cfg.sta[i]);
    ScanStore.BelongingIsConfigured(records[r], cfg.sta, i);
    var j :| 0 <= j < |s.scan| && ScanStore.CopyOf(s.scan[j], records[r]);
    assert Belongs(s.scan[j], cfg.sta[i]);
    k := StrongestOfTopIsTried(cfg, s, env);
  }
}
