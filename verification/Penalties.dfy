/** Who loses a point for a failure: not only the scan results of SCAN_CONNECTING. */
module Penalties {
  import opened WifiTypes
  import opened RetrySpec
  import opened RetryBound
  import opened RetryPhases
  import RetrySync

  predicate SelectedBssid(cfg: Config, s: State, b: Bssid) {
    HasSelected(cfg, s) && cfg.sta[s.selected].bssid == b && b != 0
  }

  /**
   * The second failure of the best scan result is charged to it; without results, and in every other phase but
   * RestartingAdapter, a failure is charged to the BSSID configured for the selected network.
   */
  predicate Charged(cfg: Config, s: State, b: Bssid) {
    match s.phase
    case ScanConnecting => s.numRetried == 1 && if s.scan == [] then SelectedBssid(cfg, s, b) else s.scan[0].bssid == b
    case RestartingAdapter => false
    case _ => SelectedBssid(cfg, s, b)
  }

  lemma ChargedExactly(cfg: Config, s: State, b: Bssid)
    requires Inv(cfg, s)
    ensures Charged(cfg, s, b) <==> FailedBssid(cfg, s) == TheBssid(b) && s.numRetried + 1 >= MaxRetries(s.phase)
  {
  }

  lemma LoweredExactly(table: map<Bssid, Int8>, c: Bssid, b: Bssid)
    requires b in table ==> table[b] > MIN_PRIORITY
    ensures
      var after := ClearIfAllMin(table[c := Lowered(GetPriority(table, c))]);
      && (b in table ==> (b in after && after[b] == table[b] <==> b != c))
      && (b in table && b in after && b == c ==> after[b] == table[b] - 1)
      && (b !in table ==> if b == c then b in after && after[b] == -1 else b !in after)
  {
    var lowered := table[c := Lowered(GetPriority(table, c))];
    if b in table && b != c {
      assert b in lowered && lowered[b] > MIN_PRIORITY;
    } else if b !in table && b == c {
      assert b in lowered && lowered[b] == -1;
    }
  }

  lemma KeptExactly(table: map<Bssid, Int8>, b: Bssid)
    requires b in table ==> table[b] > MIN_PRIORITY
    ensures (b in ClearIfAllMin(table)) == (b in table)
    ensures b in table ==> ClearIfAllMin(table)[b] == table[b]
  {
  }

  /** A BSSID above the minimum, known or not, loses its point in exactly the cases above, and only one point. */
  lemma PenalisedExactly(cfg: Config, s: State, b: Bssid)
    requires Inv(cfg, s) && (b in s.priorities ==> s.priorities[b] > MIN_PRIORITY)
    ensures
      var before, after := s.priorities, Penalise(cfg, s).priorities;
      && (b in before ==> (b in after && after[b] == before[b] <==> !Charged(cfg, s, b)))
      && (b in before && b in after && Charged(cfg, s, b) ==> after[b] == before[b] - 1)
      && (b !in before ==> if Charged(cfg, s, b) then b in after && after[b] == -1 else b !in after)
  {
    ChargedExactly(cfg, s, b);
    KeptExactly(s.priorities, b);
    match FailedBssid(cfg, s)
    case NoBssid =>
    case TheBssid(c) => LoweredExactly(s.priorities, c, b);
  }

  /** Between cycles nobody is charged; a table of minima is dropped. */
  lemma RestartChargesNobody(cfg: Config, s: State)
    requires Inv(cfg, s) && s.phase == RestartingAdapter
    ensures
      var after := Penalise(cfg, s).priorities;
      after == s.priorities || (AllMin(s.priorities) && after == map[])
  {
  }

  // ---- Charged for what? ----

  /** A scan ends while an attempt at the results of another one is under way. */
  predicate Disturbs(s: State, ev: Event) { ev.ScanArrived? && s.phase == ScanConnecting && s.selected >= 0 }

  /**
   * A run so far, with the number of attempts made before the last start or the last entry into ScanConnecting, and
   * whether the results have been disturbed since.
   */
  datatype Ledger = Ledger(s: State, since: nat, disturbed: bool)

  function Book(cfg: Config, w: Ledger, ev: Event): Ledger {
    var t := Step(cfg, w.s, ev);
    if Starts(w.s, ev) || Enters(w.s, t) then Ledger(t, |w.s.attempts|, false)
    else Ledger(t, w.since, w.disturbed || Disturbs(w.s, ev))
  }

  predicate Enters(s: State, t: State) { t.phase == ScanConnecting && s.phase != ScanConnecting }

  function LedgerOf(cfg: Config, evs: seq<Event>): Ledger {
    if evs == [] then Ledger(FRESH, 0, false) else Book(cfg, LedgerOf(cfg, evs[..|evs| - 1]), evs[|evs| - 1])
  }

  /** The latest attempt since then, if there is one, was made for the selected network. */
  predicate TriesSelected(w: Ledger) {
    |w.s.attempts| > w.since && w.s.attempts[|w.s.attempts| - 1].index == w.s.selected
  }

  predicate TriesBest(cfg: Config, s: State) {
    HasSelected(cfg, s) && s.scan != [] && s.attempts != [] &&
    s.attempts[|s.attempts| - 1] == Attempt(ScanConnecting, s.selected, WithScan(cfg.sta[s.selected], s.scan[0]))
  }

  /** A start waits for its first scan, with whatever network is selected. */
  predicate WaitsForFirstScan(s: State) { s.phase == InitialConnect && s.link == Scanning }

  /** What the attempts of a running component have to do with the selected network. */
  predicate Booked(cfg: Config, w: Ledger) {
    w.since <= |w.s.attempts| &&
    (w.s.link != Off ==>
      if w.s.phase == ScanConnecting && w.s.selected < 0 then |w.s.attempts| == w.since
      else if WaitsForFirstScan(w.s) then |w.s.attempts| == w.since
      else
        && (w.s.selected >= 0 ==> TriesSelected(w))
        && (w.s.phase == ScanConnecting ==> w.s.link != Scanning && (!w.disturbed ==> TriesBest(cfg, w.s))))
  }

  /** The step keeps the network without an attempt, or makes one at the network then selected, or selects none. */
  predicate KeepsUp(s: State, t: State) {
    && t.phase != ScanConnecting && t.phase != InitialConnect
    && (if t.attempts == s.attempts then t.selected < 0 || t.selected == s.selected
        else |t.attempts| == |s.attempts| + 1 && t.attempts[|s.attempts|].index == t.selected)
  }

  lemma ConnectKeepsUp(cfg: Config, s: State, u: State, env: Env)
    requires u.attempts == s.attempts && u.phase != ScanConnecting && u.phase != InitialConnect
    ensures KeepsUp(s, Connect(cfg, u, env))
  {
    assert Connect(cfg, u, env).attempts == s.attempts + [Attempt(u.phase, u.selected, BuildParams(cfg, u))];
  }

  lemma WaitKeepsUp(cfg: Config, s: State, next: Phase, env: Env)
    requires next != ScanConnecting
    ensures
      var (t, waits) := TransitionToPhase(cfg, s, next, env);
      waits ==> KeepsUp(s, t)
  {
  }

  lemma OtherMoves(cfg: Config, s: State, env: Env)
    requires Inv(cfg, s) && DetermineNextPhase(cfg, s, env) != ScanConnecting
    ensures KeepsUp(s, MoveOn(cfg, s, env))
  {
    var next := DetermineNextPhase(cfg, s, env);
    var u := RetrySync.Destination(cfg, s, env);
    RetrySync.MoveOnCases(cfg, s, env);
    RetrySync.TransitionShape(cfg, s, next, env);
    RetrySync.AdvanceShape(cfg, TransitionToPhase(cfg, s, next, env).0);
    WaitKeepsUp(cfg, s, next, env);
    assert u.attempts == s.attempts && u.phase == next && next != InitialConnect;
    ConnectKeepsUp(cfg, s, u, env);
  }

  lemma OtherRetryBooks(cfg: Config, w: Ledger, env: Env)
    requires Inv(cfg, w.s) && Booked(cfg, w) && w.s.link != Off && DetermineNextPhase(cfg, w.s, env) != ScanConnecting
    ensures Booked(cfg, w.(s := MoveOn(cfg, w.s, env)))
  {
    OtherMoves(cfg, w.s, env);
  }

  lemma EntryBooks(cfg: Config, s: State, env: Env)
    requires Inv(cfg, s) && s.phase != ScanConnecting && DetermineNextPhase(cfg, s, env) == ScanConnecting
    requires s.link != Off
    ensures Booked(cfg, Ledger(MoveOn(cfg, s, env), |s.attempts|, false))
  {
    RetrySync.EntryMoves(cfg, s, env);
  }

  lemma StayBooks(cfg: Config, w: Ledger, env: Env)
    requires Inv(cfg, w.s) && Booked(cfg, w) && w.s.link != Off && w.s.phase == ScanConnecting
    requires DetermineNextPhase(cfg, w.s, env) == ScanConnecting
    ensures Booked(cfg, w.(s := MoveOn(cfg, w.s, env)))
  {
    RetrySync.StayMoves(cfg, w.s, env);
  }

  /** The ledger after a step of the machine that is no start. */
  function Booking(w: Ledger, t: State): Ledger {
    if Enters(w.s, t) then Ledger(t, |w.s.attempts|, false) else w.(s := t)
  }

  lemma MoveOnBooks(cfg: Config, w: Ledger, env: Env)
    requires Inv(cfg, w.s) && Booked(cfg, w) && w.s.link != Off
    ensures Booked(cfg, Booking(w, MoveOn(cfg, w.s, env)))
  {
    RetrySync.MoveOnShape(cfg, w.s, env);
    if DetermineNextPhase(cfg, w.s, env) != ScanConnecting {
      OtherRetryBooks(cfg, w, env);
    } else if w.s.phase == ScanConnecting {
      StayBooks(cfg, w, env);
    } else {
      EntryBooks(cfg, w.s, env);
    }
  }

  lemma RetryBooks(cfg: Config, w: Ledger, env: Env)
    requires Inv(cfg, w.s) && Booked(cfg, w) && w.s.link != Off
    ensures Booked(cfg, Booking(w, RetryConnect(cfg, w.s, env)))
  {
    var p := Penalise(cfg, w.s);
    assert p == w.s.(priorities := p.priorities);
    MoveOnBooks(cfg, w.(s := p), env);
  }

  lemma MatchBooks(cfg: Config, w: Ledger, b: State, env: Env)
    requires Booked(cfg, w) && w.s.link == Scanning && b.link == Scanning
    requires b.phase == w.s.phase && b.attempts == w.s.attempts
    requires HasSelected(cfg, b) && b.scan != []
    ensures
      var (t, waits) := TransitionToPhase(cfg, b, ScanConnecting, env);
      Booked(cfg, Booking(w, if waits then t else Connect(cfg, t, env)))
  {
    RetrySync.TransitionShape(cfg, b, ScanConnecting, env);
  }

  lemma NoMatchBooks(cfg: Config, w: Ledger, b: State, env: Env)
    requires Booked(cfg, w) && w.s.link == Scanning && b.link == Scanning
    requires b.phase == w.s.phase && b.attempts == w.s.attempts
    requires b.selected < |cfg.sta|
    ensures
      var t := TransitionToPhase(cfg, b, RetryHidden, env).0;
      Booked(cfg, Booking(w, if t.selected == -1 then t else Connect(cfg, t, env)))
  {
    RetrySync.TransitionShape(cfg, b, RetryHidden, env);
  }

  lemma ScanBooks(cfg: Config, w: Ledger, env: Env)
    requires Inv(cfg, w.s) && Booked(cfg, w) && w.s.link == Scanning && w.s.scan != []
    ensures Booked(cfg, Booking(w, ScanFinished(cfg, w.s, env)))
  {
    var b := Marked(cfg, w.s, env);
    ScanFinishedCases(cfg, w.s, env);
    if FoundMatch(cfg, b) {
      MatchBooks(cfg, w, b.(selected := FirstOwner(b.scan[0], cfg.sta)), env);
    } else {
      NoMatchBooks(cfg, w, b, env);
    }
  }

  lemma AttemptBooks(cfg: Config, b: State, params: Ap, env: Env)
    requires b.phase != ScanConnecting
    ensures Booked(cfg, Ledger(StartConnecting(b, params, env), |b.attempts|, false))
  {
  }

  lemma FirstScanBooks(cfg: Config, b: State, env: Env)
    requires b.phase == InitialConnect
    ensures Booked(cfg, Ledger(StartScanning(b, env), |b.attempts|, false))
  {
  }

  lemma BeginBooks(cfg: Config, b: State, saved: Saved, env: Env)
    requires b.phase == InitialConnect
    ensures Booked(cfg, Ledger(Begin(cfg, b, saved, env), |b.attempts|, false))
  {
    var t := b.(selected := 0);
    if cfg.fastConnect && saved.SavedAp? && saved.index < |cfg.sta| {
      AttemptBooks(cfg, b.(selected := saved.index), SavedParams(cfg, saved), env);
    } else if cfg.fastConnect && cfg.sta != [] && !cfg.HiddenFirst() {
      AttemptBooks(cfg, t, BuildParams(cfg, t), env);
    } else if cfg.HiddenFirst() {
      var h := t.(phase := ExplicitHidden);
      AttemptBooks(cfg, h, BuildParams(cfg, h), env);
    } else {
      FirstScanBooks(cfg, b, env);
    }
  }

  lemma StartBooks(cfg: Config, s: State, loaded: bool, saved: Saved, env: Env)
    requires cfg.Valid() && s.selected < |cfg.sta|
    ensures Booked(cfg, Ledger(StartUp(cfg, s, loaded, saved, env), |s.attempts|, false))
  {
    var a := if loaded then s.(selected := 0) else s;
    var b := TransitionToPhase(cfg, a, InitialConnect, env).0;
    RetrySync.TransitionShape(cfg, a, InitialConnect, env);
    BeginBooks(cfg, b, saved, env);
  }

  lemma OtherTick(cfg: Config, s: State, ev: Event)
    requires !Retries(s, ev) && ev.Tick? && (s.link != Scanning || !s.scanDone)
    ensures Step(cfg, s, ev) == s || Step(cfg, s, ev) == Succeeded(s)
  {
  }

  lemma OtherTickBooks(cfg: Config, w: Ledger, ev: Event)
    requires Inv(cfg, w.s) && Booked(cfg, w) && !Retries(w.s, ev) && ev.Tick?
    requires w.s.link != Scanning || !w.s.scanDone
    ensures Booked(cfg, Book(cfg, w, ev))
  {
    OtherTick(cfg, w.s, ev);
  }

  lemma RoamReadBooks(cfg: Config, w: Ledger, ev: Event)
    requires Inv(cfg, w.s) && Booked(cfg, w) && ev.RoamScanRead?
    ensures Booked(cfg, Book(cfg, w, ev))
  {
  }

  /** Events that change neither the phase nor what has been tried. */
  lemma OtherStepBooks(cfg: Config, w: Ledger, ev: Event)
    requires Inv(cfg, w.s) && Booked(cfg, w) && !ev.Tick? && !ev.RoamScanRead? && !Starts(w.s, ev)
    ensures Booked(cfg, Book(cfg, w, ev))
  {
  }

  /** Reading that a scan found nothing changes no more than its flags and the mode. */
  lemma FailingBooks(cfg: Config, w: Ledger, env: Env)
    requires Booked(cfg, w) && w.s.link != Off && (w.s.link == Scanning && w.s.scanDone ==> w.s.scan == [])
    ensures Booked(cfg, w.(s := Failing(w.s, env))) && Failing(w.s, env).link != Off
  {
  }

  lemma RetryTickBooks(cfg: Config, w: Ledger, ev: Event)
    requires cfg.Valid() && Inv(cfg, w.s) && Booked(cfg, w) && Retries(w.s, ev)
    ensures Booked(cfg, Book(cfg, w, ev))
  {
    StepRetries(cfg, w.s, ev);
    FailingBooks(cfg, w, ev.env);
    RetryBooks(cfg, w.(s := Failing(w.s, ev.env)), ev.env);
  }

  lemma TickBooks(cfg: Config, w: Ledger, ev: Event)
    requires cfg.Valid() && Inv(cfg, w.s) && Booked(cfg, w) && ev.Tick?
    ensures Booked(cfg, Book(cfg, w, ev))
  {
    if Retries(w.s, ev) {
      RetryTickBooks(cfg, w, ev);
    } else if w.s.link == Scanning && w.s.scanDone {
      ScanBooks(cfg, w, ev.env);
    } else {
      OtherTickBooks(cfg, w, ev);
    }
  }

  lemma StepBooks(cfg: Config, w: Ledger, ev: Event)
    requires cfg.Valid() && Inv(cfg, w.s) && Booked(cfg, w)
    ensures Booked(cfg, Book(cfg, w, ev))
  {
    if ev.Tick? {
      TickBooks(cfg, w, ev);
    } else if Starts(w.s, ev) {
      StartBooks(cfg, w.s, ev.loaded, ev.saved, ev.env);
    } else if ev.RoamScanRead? {
      RoamReadBooks(cfg, w, ev);
    } else {
      OtherStepBooks(cfg, w, ev);
    }
  }

  lemma {:induction false} RunBooks(cfg: Config, evs: seq<Event>)
    requires cfg.Valid()
    ensures LedgerOf(cfg, evs).s == RunOf(cfg, evs).s && Booked(cfg, LedgerOf(cfg, evs))
  {
    if evs != [] {
      var front := evs[..|evs| - 1];
      RunBooks(cfg, front);
      EveryCycleEnds(cfg, front);
      StepBooks(cfg, LedgerOf(cfg, front), evs[|evs| - 1]);
    }
  }

  /** The latest attempt, made since the last start or entry into ScanConnecting, was one that `b` answers for. */
  predicate Answers(cfg: Config, w: Ledger, b: Bssid) {
    |w.s.attempts| > w.since &&
    var a := w.s.attempts[|w.s.attempts| - 1];
    if w.s.phase == ScanConnecting then a.phase == ScanConnecting && a.params.bssid == b
    else 0 <= a.index < |cfg.sta| && cfg.sta[a.index].bssid == b
  }

  /** No network is selected for the results at hand, as their scan did not start or ran out of time. */
  predicate NothingSelected(s: State) { s.phase == ScanConnecting && s.selected < 0 }

  /** A charge is for the latest attempt, except in these two cases, in which nothing has been tried at all. */
  predicate ChargedExactlyForAttempts(cfg: Config, w: Ledger, b: Bssid) {
    && (Answers(cfg, w, b) <==> !NothingSelected(w.s) && !WaitsForFirstScan(w.s))
    && (!Answers(cfg, w, b) ==> |w.s.attempts| == w.since)
  }

  lemma BookedCharge(cfg: Config, w: Ledger, b: Bssid)
    requires Inv(cfg, w.s) && Booked(cfg, w) && w.s.link != Off && Charged(cfg, w.s, b)
    requires w.s.phase == ScanConnecting ==> !w.disturbed
    ensures ChargedExactlyForAttempts(cfg, w, b)
  {
    if w.s.phase == ScanConnecting && w.s.selected >= 0 {
      assert TriesBest(cfg, w.s);
    }
  }

  /**
   * In every run a BSSID that a failure is charged to answers for the latest attempt, except in two cases: results of
   * an earlier scan are at hand in ScanConnecting but no network is selected, or a start still waits for its first
   * scan. Results that were replaced under an attempt are left aside.
   */
  lemma ChargedForAttemptsExactly(cfg: Config, evs: seq<Event>, b: Bssid)
    requires cfg.Valid()
    ensures
      var w := LedgerOf(cfg, evs);
      w.s == RunOf(cfg, evs).s &&
      (w.s.link != Off && Charged(cfg, w.s, b) && (w.s.phase == ScanConnecting ==> !w.disturbed) ==>
         ChargedExactlyForAttempts(cfg, w, b))
  {
    RunBooks(cfg, evs);
    EveryCycleEnds(cfg, evs);
    var w := LedgerOf(cfg, evs);
    if w.s.link != Off && Charged(cfg, w.s, b) && (w.s.phase == ScanConnecting ==> !w.disturbed) {
      BookedCharge(cfg, w, b);
    }
  }

  const PINNED := Ap("home", "secret", 7, 0, 0, true)

  /** From boot: a hidden network with a configured BSSID fails once, before any scan, and the BSSID loses a point. */
  lemma HiddenNetworkIsCharged(cfg: Config)
    requires cfg == Config([PINNED], false)
    ensures
      var boot, fails := Enabled(false, NothingSaved, RetrySync.CALM), Tick(RetrySync.CALM, Failed, false, false, true);
      RunOf(cfg, [boot]).s.phase == ExplicitHidden && RunOf(cfg, [boot]).s.priorities == map[] &&
      RunOf(cfg, [boot, fails]).s.priorities == map[7 := -1]
  {
    var boot, fails := Enabled(false, NothingSaved, RetrySync.CALM), Tick(RetrySync.CALM, Failed, false, false, true);
    RunExtends(cfg, [], boot);
    RunExtends(cfg, [boot], fails);
    assert [boot] + [fails] == [boot, fails];
  }

  /** The driver starts no scan. */
  const STUCK := Env(false, false, true, false, false)

  /**
   * The events of a boot at home, two failed attempts, the restart of the adapter, and a scan that does not start and
   * runs out of time twice.
   */
  function ScanStuckAtHome(): seq<Event> {
    [Enabled(false, NothingSaved, RetrySync.CALM), ScanArrived([RetrySync.Heard("home", 5)]),
     Tick(RetrySync.CALM, Idle, false, false, false), Tick(RetrySync.CALM, Failed, false, false, false),
     Tick(RetrySync.CALM, Failed, false, false, false), Tick(STUCK, Failed, false, false, true),
     Tick(STUCK, Idle, false, true, false), Tick(STUCK, Idle, false, true, false)]
  }

  /** Home is the best result, and the attempts at it have left the table as it is. */
  predicate HomeIsBest(s: State, table: map<Bssid, Int8>) {
    && s.phase == ScanConnecting && s.scan != [] && s.scan[0].matches && s.scan[0].bssid == 5
    && s.scan[0].ssid == "home" && !s.scanPending && !s.scanDone && s.priorities == table
  }

  lemma HomeIsTracked(cfg: Config, s: State)
    requires cfg == Config([RetrySync.HOME], false) && s.phase == InitialConnect && s.link == Scanning
    requires s.numRetried == 0 && s.scan == [RetrySync.Heard("home", 5)] && s.priorities == map[] && !s.scanPending
    ensures
      var t := ScanFinished(cfg, s, RetrySync.CALM);
      HomeIsBest(t, map[5 := 0]) && t.link == Connecting && t.selected == 0 && t.numRetried == 0 && t.mode == ScanBased
  {
    var r := RetrySync.Heard("home", 5);
    assert Belongs(r, RetrySync.HOME) && FirstOwner(r, cfg.sta) == 0;
    RetrySync.OneResultRanked(cfg, r, s.priorities);
    assert [r][..0] == [] && Track(cfg.sta, [], map[]).1 == map[];
    assert Track(cfg.sta, [r], map[]).1 == map[5 := 0];
    var b := Marked(cfg, s, RetrySync.CALM);
    assert Belongs(b.scan[0], RetrySync.HOME) && FirstOwner(b.scan[0], cfg.sta) == 0;
    ScanFinishedCases(cfg, s, RetrySync.CALM);
    RetrySync.FirstMatchConnects(cfg, b.(selected := 0), RetrySync.CALM);
  }

  lemma HomeIsHeardAlone(cfg: Config)
    requires cfg == Config([RetrySync.HOME], false)
    ensures
      var s := RunOf(cfg, ScanStuckAtHome()[..2]).s;
      && s.phase == InitialConnect && s.link == Scanning && s.numRetried == 0 && s.priorities == map[]
      && s.scan == [RetrySync.Heard("home", 5)] && s.scanDone && !s.scanPending
  {
    var evs, home := ScanStuckAtHome(), [RetrySync.Heard("home", 5)];
    assert evs[..1] == [evs[0]] && evs[..2] == evs[..1] + [evs[1]];
    RunExtends(cfg, [], evs[0]);
    RunExtends(cfg, evs[..1], evs[1]);
    assert home[..0] == [] && Unmarked(home) == [] + home;
  }

  lemma HomeIsTriedFirst(cfg: Config)
    requires cfg == Config([RetrySync.HOME], false)
    ensures
      var s := RunOf(cfg, ScanStuckAtHome()[..3]).s;
      HomeIsBest(s, map[5 := 0]) && s.link == Connecting && s.selected == 0 && s.numRetried == 0 && s.mode == ScanBased
  {
    var evs := ScanStuckAtHome();
    assert evs[..3] == evs[..2] + [evs[2]];
    HomeIsHeardAlone(cfg);
    RunExtends(cfg, evs[..2], evs[2]);
    HomeIsTracked(cfg, RunOf(cfg, evs[..2]).s);
  }

  lemma FirstFailureIsFree(cfg: Config, s: State, env: Env)
    requires HomeIsBest(s, map[5 := 0]) && s.numRetried == 0
    ensures
      var p := Penalise(cfg, s);
      p == s && DetermineNextPhase(cfg, p, env) == ScanConnecting && Advance(cfg, s) == s.(numRetried := 1)
  {
    assert 5 in s.priorities;
  }

  lemma HomeIsTriedAgain(cfg: Config)
    requires cfg == Config([RetrySync.HOME], false)
    ensures
      var s := RunOf(cfg, ScanStuckAtHome()[..4]).s;
      HomeIsBest(s, map[5 := 0]) && s.link == Connecting && s.selected == 0 && s.numRetried == 1 && s.mode == ScanBased
  {
    var evs := ScanStuckAtHome();
    assert evs[..4] == evs[..3] + [evs[3]];
    HomeIsTriedFirst(cfg);
    RunExtends(cfg, evs[..3], evs[3]);
    FirstFailureIsFree(cfg, RunOf(cfg, evs[..3]).s, RetrySync.CALM);
  }

  lemma SecondFailureCosts(cfg: Config, s: State, p: Int8)
    requires HomeIsBest(s, map[5 := p]) && s.numRetried == 1 && p > MIN_PRIORITY + 1
    ensures Penalise(cfg, s) == s.(priorities := map[5 := p - 1])
  {
    var table := s.priorities[5 := p - 1];
    assert table == map[5 := p - 1] && 5 in table;
  }

  lemma HomeIsNoCandidate(cfg: Config, s: State)
    requires cfg == Config([RetrySync.HOME], false) && s.mode == ScanBased
    requires s.scan != [] && s.scan[0].ssid == "home"
    ensures NextCandidate(cfg, s, 0) == -1
  {
    assert InScan(s.scan, cfg.sta[0].ssid);
    assert NextCandidate(cfg, s, 1) == -1;
  }

  lemma HomeIsGivenUp(cfg: Config, s: State)
    requires cfg == Config([RetrySync.HOME], false)
    requires HomeIsBest(s, map[5 := 0]) && s.numRetried == 1 && s.mode == ScanBased
    ensures
      var t := RetryConnect(cfg, s, RetrySync.CALM);
      t.phase == RestartingAdapter && t.link == Cooldown && HomeIsBest(t.(phase := ScanConnecting), map[5 := -1])
  {
    SecondFailureCosts(cfg, s, 0);
    var p := s.(priorities := map[5 := -1]);
    HomeIsNoCandidate(cfg, p);
    assert DetermineNextPhase(cfg, p, RetrySync.CALM) == RestartingAdapter;
  }

  lemma AdapterRestarts(cfg: Config)
    requires cfg == Config([RetrySync.HOME], false)
    ensures
      var s := RunOf(cfg, ScanStuckAtHome()[..5]).s;
      HomeIsBest(s.(phase := ScanConnecting), map[5 := -1]) && s.phase == RestartingAdapter && s.link == Cooldown
  {
    var evs := ScanStuckAtHome();
    assert evs[..5] == evs[..4] + [evs[4]];
    HomeIsTriedAgain(cfg);
    RunExtends(cfg, evs[..4], evs[4]);
    HomeIsGivenUp(cfg, RunOf(cfg, evs[..4]).s);
  }

  lemma ScanIsAsked(cfg: Config, s: State)
    requires cfg == Config([RetrySync.HOME], false)
    requires s.phase == RestartingAdapter && HomeIsBest(s.(phase := ScanConnecting), map[5 := -1])
    ensures
      var t := RetryConnect(cfg, s, STUCK);
      && HomeIsBest(t, map[5 := -1]) && t.link == Scanning && t.selected == -1 && t.numRetried == 0
      && t.attempts == s.attempts
  {
    assert FailedBssid(cfg, s) == NoBssid;
  }

  lemma ScanIsStuck(cfg: Config)
    requires cfg == Config([RetrySync.HOME], false)
    ensures
      var r, s := RunOf(cfg, ScanStuckAtHome()[..5]).s, RunOf(cfg, ScanStuckAtHome()[..6]).s;
      && HomeIsBest(s, map[5 := -1]) && s.link == Scanning && s.selected == -1 && s.numRetried == 0
      && s.attempts == r.attempts
  {
    var evs := ScanStuckAtHome();
    assert evs[..6] == evs[..5] + [evs[5]];
    AdapterRestarts(cfg);
    RunExtends(cfg, evs[..5], evs[5]);
    ScanIsAsked(cfg, RunOf(cfg, evs[..5]).s);
  }

  lemma FirstTimeoutIsFree(cfg: Config, s: State)
    requires HomeIsBest(s, map[5 := -1]) && s.selected == -1 && s.numRetried == 0
    ensures RetryConnect(cfg, s, STUCK) == s.(numRetried := 1)
  {
    assert 5 in s.priorities && Penalise(cfg, s) == s;
  }

  lemma ScanRunsOutOfTime(cfg: Config)
    requires cfg == Config([RetrySync.HOME], false)
    ensures
      var r, s := RunOf(cfg, ScanStuckAtHome()[..5]).s, RunOf(cfg, ScanStuckAtHome()[..7]).s;
      && HomeIsBest(s, map[5 := -1]) && s.link == Scanning && s.selected == -1 && s.numRetried == 1
      && s.attempts == r.attempts
  {
    var evs := ScanStuckAtHome();
    assert evs[..7] == evs[..6] + [evs[6]];
    ScanIsStuck(cfg);
    RunExtends(cfg, evs[..6], evs[6]);
    FirstTimeoutIsFree(cfg, RunOf(cfg, evs[..6]).s);
  }

  lemma SecondTimeoutCosts(cfg: Config, s: State)
    requires cfg == Config([RetrySync.HOME], false)
    requires HomeIsBest(s, map[5 := -1]) && s.selected == -1 && s.numRetried == 1
    ensures RetryConnect(cfg, s, STUCK).priorities == map[5 := -2]
  {
    SecondFailureCosts(cfg, s, -1);
  }

  /**
   * From boot: home has been tried and charged when the adapter restarts; a scan that does not start then runs out of
   * time twice, no attempt is made, and home loses another point.
   */
  lemma UntriedBestIsCharged(cfg: Config)
    requires cfg == Config([RetrySync.HOME], false)
    ensures
      var evs := ScanStuckAtHome();
      var r, s, t := RunOf(cfg, evs[..5]).s, RunOf(cfg, evs[..7]).s, RunOf(cfg, evs).s;
      && r.phase == RestartingAdapter && r.priorities == map[5 := -1]
      && s.attempts == r.attempts && NothingSelected(s) && Charged(cfg, s, 5) && s.priorities == map[5 := -1]
      && t.priorities == map[5 := -2]
  {
    var evs := ScanStuckAtHome();
    assert evs == evs[..7] + [evs[7]];
    AdapterRestarts(cfg);
    ScanRunsOutOfTime(cfg);
    RunExtends(cfg, evs[..7], evs[7]);
    SecondTimeoutCosts(cfg, RunOf(cfg, evs[..7]).s);
  }
}
