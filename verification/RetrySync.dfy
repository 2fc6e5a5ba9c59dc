/** The selected network and the best scan result stay in step. */
module RetrySync {
  import opened WifiTypes
  import opened ScanSort
  import opened RetrySpec
  import opened RetryBound

  /** A scan completes and its best result belongs to a configured network, which is then tried. */
  predicate MatchingScan(cfg: Config, s: State, ev: Event) {
    && ev.Tick? && s.link == Scanning && s.scanDone && s.phase != RetryHidden
    && FoundMatch(cfg, Marked(cfg, s, ev.env))
  }

  /** `synced` holds from a matching scan until ScanConnecting is left or a stray scan replaces the results. */
  datatype Watched = Watched(s: State, synced: bool)

  function Watch(cfg: Config, w: Watched, ev: Event): Watched {
    var t := Step(cfg, w.s, ev);
    Watched(t, MatchingScan(cfg, w.s, ev) || (w.synced && t.phase == ScanConnecting && !Strays(w.s, ev)))
  }

  function WatchedRun(cfg: Config, evs: seq<Event>): Watched {
    if evs == [] then Watched(FRESH, false)
    else Watch(cfg, WatchedRun(cfg, evs[..|evs| - 1]), evs[|evs| - 1])
  }

  /** The latest attempt went to the best scan result, with the credentials of a network it belongs to. */
  ghost predicate InStep(cfg: Config, s: State) {
    && s.phase == ScanConnecting
    && (s.link == Connecting || s.link == Cooldown || s.link == Off)
    && !s.scanPending && !s.scanDone
    && s.scan != [] && s.scan[0].matches
    && 0 <= s.selected < |cfg.sta|
    && Belongs(s.scan[0], cfg.sta[s.selected])
    && (forall x :: x in s.scan ==> !Better(x, s.scan[0]))
    && s.attempts != []
    && s.attempts[|s.attempts| - 1] ==
       Attempt(ScanConnecting, s.selected, WithScan(cfg.sta[s.selected], s.scan[0]))
  }

  lemma MatchPutsInStep(cfg: Config, s: State, ev: Event)
    requires cfg.Valid() && Inv(cfg, s) && MatchingScan(cfg, s, ev)
    ensures InStep(cfg, Step(cfg, s, ev))
  {
    var b := Marked(cfg, s, ev.env);
    ScanFinishedCases(cfg, s, ev.env);
    var marked := Track(cfg.sta, s.scan, s.priorities).0;
    BestComesFirst(marked);
    SortIsStablePermutation(marked);
    FirstOwnerIsFirst(b.scan[0], cfg.sta);
    forall x | x in b.scan ensures !Better(x, b.scan[0]) {
      assert x in multiset(b.scan);
    }
  }

  lemma RetryStaysInStep(cfg: Config, s: State, env: Env)
    requires cfg.Valid() && Inv(cfg, s) && InStep(cfg, s)
    requires MoveOn(cfg, s, env).phase == ScanConnecting
    ensures InStep(cfg, MoveOn(cfg, s, env))
  {
    assert DetermineNextPhase(cfg, s, env) == ScanConnecting;
  }

  lemma TransitionShape(cfg: Config, s: State, next: Phase, env: Env)
    ensures
      var t := TransitionToPhase(cfg, s, next, env).0;
      t.phase == next && t.attempts == s.attempts
  {
  }

  /** The step makes no attempt, or one that is no attempt at a scan result, and does not end in ScanConnecting. */
  predicate OutsideScanning(s: State, t: State) {
    t.phase != ScanConnecting && (t.attempts == s.attempts || !TriesScanResult(s, t))
  }

  /** An attempt in ScanConnecting made by this step. */
  predicate TriesScanResult(s: State, t: State) {
    t.attempts != s.attempts && t.attempts != [] && t.attempts[|t.attempts| - 1].phase == ScanConnecting
  }

  lemma AttemptOutsideScanning(s: State, b: State, params: Ap, env: Env)
    requires b.phase != ScanConnecting && b.attempts == s.attempts
    ensures OutsideScanning(s, StartConnecting(b, params, env))
  {
  }

  lemma StartIsOutsideScanning(cfg: Config, s: State, loaded: bool, saved: Saved, env: Env)
    ensures OutsideScanning(s, StartUp(cfg, s, loaded, saved, env))
  {
    var a := if loaded then s.(selected := 0) else s;
    var b := TransitionToPhase(cfg, a, InitialConnect, env).0;
    TransitionShape(cfg, a, InitialConnect, env);
    var first, hidden := b.(selected := 0), b.(selected := 0, phase := ExplicitHidden);
    AttemptOutsideScanning(s, first, BuildParams(cfg, first), env);
    AttemptOutsideScanning(s, hidden, BuildParams(cfg, hidden), env);
    if saved.SavedAp? && saved.index < |cfg.sta| {
      AttemptOutsideScanning(s, b.(selected := saved.index), SavedParams(cfg, saved), env);
    }
  }

  lemma StepStaysInStep(cfg: Config, s: State, ev: Event)
    requires cfg.Valid() && Inv(cfg, s) && InStep(cfg, s) && !Strays(s, ev)
    requires Step(cfg, s, ev).phase == ScanConnecting
    ensures InStep(cfg, Step(cfg, s, ev))
  {
    if Retries(s, ev) {
      StepRetries(cfg, s, ev);
      var p := Penalise(cfg, s);
      assert p == s.(priorities := p.priorities);
      RetryStaysInStep(cfg, p, ev.env);
    } else if Starts(s, ev) {
      StartIsOutsideScanning(cfg, s, ev.loaded, ev.saved, ev.env);
    }
  }

  /** In every run, from a matching scan until ScanConnecting is left, each attempt is in step. */
  lemma {:induction false} AttemptsStayInStep(cfg: Config, evs: seq<Event>)
    requires cfg.Valid()
    ensures
      var w := WatchedRun(cfg, evs);
      w.s == RunOf(cfg, evs).s && (w.synced ==> InStep(cfg, w.s))
  {
    if evs != [] {
      var front, ev := evs[..|evs| - 1], evs[|evs| - 1];
      AttemptsStayInStep(cfg, front);
      EveryCycleEnds(cfg, front);
      var w := WatchedRun(cfg, front);
      if MatchingScan(cfg, w.s, ev) {
        MatchPutsInStep(cfg, w.s, ev);
      } else if w.synced && Step(cfg, w.s, ev).phase == ScanConnecting && !Strays(w.s, ev) {
        StepStaysInStep(cfg, w.s, ev);
      }
    }
  }

  // ---- Which results are read ----

  /** The results of the last scan that ended. */
  function Latest(evs: seq<Event>): seq<ScanResult> {
    if evs == [] then []
    else if evs[|evs| - 1].ScanArrived? then evs[|evs| - 1].results
    else Latest(evs[..|evs| - 1])
  }

  /** The flag of a finished scan is not raised, and its results stay as they are or are dropped. */
  predicate Hands(s: State, t: State) {
    t.scanDone ==> s.scanDone && (t.scan == s.scan || t.scan == [])
  }

  lemma TransitionHands(cfg: Config, s: State, next: Phase, env: Env)
    ensures Hands(s, TransitionToPhase(cfg, s, next, env).0)
  {
  }

  lemma RetryHands(cfg: Config, s: State, env: Env)
    ensures Hands(s, RetryConnect(cfg, s, env))
  {
    var p := Penalise(cfg, s);
    assert p == s.(priorities := p.priorities);
    var next := DetermineNextPhase(cfg, p, env);
    TransitionHands(cfg, p, next, env);
  }

  lemma ScanHands(cfg: Config, s: State, env: Env)
    requires s.scan != []
    ensures !ScanFinished(cfg, s, env).scanDone
  {
    var b := Marked(cfg, s, env);
    ScanFinishedCases(cfg, s, env);
    TransitionHands(cfg, b, RetryHidden, env);
    TransitionHands(cfg, b.(selected := FirstOwner(b.scan[0], cfg.sta)), ScanConnecting, env);
  }

  lemma BeginHands(cfg: Config, b: State, saved: Saved, env: Env)
    ensures Hands(b, Begin(cfg, b, saved, env))
  {
  }

  lemma StartHands(cfg: Config, s: State, loaded: bool, saved: Saved, env: Env)
    ensures Hands(s, StartUp(cfg, s, loaded, saved, env))
  {
    var a := if loaded then s.(selected := 0) else s;
    TransitionHands(cfg, a, InitialConnect, env);
    BeginHands(cfg, TransitionToPhase(cfg, a, InitialConnect, env).0, saved, env);
  }

  lemma StepHands(cfg: Config, s: State, ev: Event)
    requires cfg.Valid() && Inv(cfg, s) && !ev.ScanArrived?
    ensures Hands(s, Step(cfg, s, ev))
  {
    if Retries(s, ev) {
      StepRetries(cfg, s, ev);
      RetryHands(cfg, Failing(s, ev.env), ev.env);
    } else if Starts(s, ev) {
      StartHands(cfg, s, ev.loaded, ev.saved, ev.env);
    } else if ev.Tick? && s.link == Scanning && s.scanDone {
      ScanHands(cfg, s, ev.env);
    }
  }

  /**
   * A finished scan is read with the results of the last scan that ended, or with none, never with those of an
   * earlier one: a scan that starts takes the flag of the one before down.
   */
  lemma {:induction false} ResultsAreTheLatest(cfg: Config, evs: seq<Event>)
    requires cfg.Valid()
    ensures
      var s := RunOf(cfg, evs).s;
      s.scanDone ==> s.scan == Unmarked(Latest(evs)) || s.scan == []
  {
    if evs != [] {
      var front, ev := evs[..|evs| - 1], evs[|evs| - 1];
      ResultsAreTheLatest(cfg, front);
      EveryCycleEnds(cfg, front);
      if !ev.ScanArrived? {
        StepHands(cfg, RunOf(cfg, front).s, ev);
      }
    }
  }

  /** Once a scan has started, none is read before one ends. */
  lemma {:induction false} StartedScanIsAwaited(cfg: Config, s: State, evs: seq<Event>)
    requires cfg.Valid() && Inv(cfg, s) && !s.scanDone && forall i :: 0 <= i < |evs| ==> !evs[i].ScanArrived?
    ensures Inv(cfg, StepAll(cfg, s, evs)) && !StepAll(cfg, s, evs).scanDone
  {
    if evs != [] {
      var n := |evs| - 1;
      StartedScanIsAwaited(cfg, s, evs[..n]);
      StepHands(cfg, StepAll(cfg, s, evs[..n]), evs[n]);
      StepKeepsInv(cfg, StepAll(cfg, s, evs[..n]), evs[n]);
    }
  }

  function StepAll(cfg: Config, s: State, evs: seq<Event>): State {
    if evs == [] then s else Step(cfg, StepAll(cfg, s, evs[..|evs| - 1]), evs[|evs| - 1])
  }

  // ---- Results left over from another scan ----

  /** The latest attempt went to the first scan result, with the credentials of a network that result belongs to. */
  predicate Paired(cfg: Config, t: State) {
    t.attempts != [] && t.scan != [] &&
    var a := t.attempts[|t.attempts| - 1];
    a.phase == ScanConnecting && 0 <= a.index < |cfg.sta| &&
    a.params == WithScan(cfg.sta[a.index], t.scan[0]) && Belongs(t.scan[0], cfg.sta[a.index])
  }

  /** The last failure of a phase that comes before scanning, with no hidden network to try first. */
  predicate EntersScanning(cfg: Config, s: State) {
    && (s.phase == InitialConnect || s.phase == FastConnectCyclingAps)
    && !(cfg.fastConnect && s.selected < |cfg.sta| - 1) && !cfg.HiddenFirst()
  }

  lemma NextIsScanning(cfg: Config, s: State, env: Env)
    requires Inv(cfg, s) && (s.phase == InitialConnect || s.phase == FastConnectCyclingAps)
    ensures DetermineNextPhase(cfg, s, env) == ScanConnecting <==> EntersScanning(cfg, s)
  {
  }

  /** The state a failure leads to when it enters ScanConnecting from another phase. */
  lemma EntryMoves(cfg: Config, s: State, env: Env)
    requires Inv(cfg, s) && s.phase != ScanConnecting && DetermineNextPhase(cfg, s, env) == ScanConnecting
    ensures
      var t := MoveOn(cfg, s, env);
      && t.phase == ScanConnecting && t.scan == s.scan
      && (if EntersScanning(cfg, s) && s.scan != [] then
            t.selected == s.selected && t.attempts ==
              if s.selected < 0 then s.attempts
              else s.attempts + [Attempt(ScanConnecting, s.selected, WithScan(cfg.sta[s.selected], s.scan[0]))]
          else t.selected == -1 && t.attempts == s.attempts)
  {
    if s.phase == InitialConnect || s.phase == FastConnectCyclingAps {
      NextIsScanning(cfg, s, env);
    }
  }

  /**
   * A failure that enters ScanConnecting makes an attempt right away exactly when scan results are at hand before
   * scanning; and that attempt is properly paired exactly when the first of them belongs to the selected network.
   */
  lemma LeftoversArePairedExactly(cfg: Config, s: State, env: Env)
    requires Inv(cfg, s) && s.phase != ScanConnecting && DetermineNextPhase(cfg, s, env) == ScanConnecting
    ensures
      var t := RetryConnect(cfg, s, env);
      var early := s.phase == InitialConnect || s.phase == FastConnectCyclingAps;
      && (t.attempts != s.attempts <==> early && s.scan != [] && s.selected >= 0)
      && (t.attempts != s.attempts ==> (Paired(cfg, t) <==> Belongs(s.scan[0], cfg.sta[s.selected])))
  {
    var p := Penalise(cfg, s);
    assert p == s.(priorities := p.priorities);
    EntryMoves(cfg, p, env);
    NextIsScanningIfEarly(cfg, p, env);
  }

  lemma NextIsScanningIfEarly(cfg: Config, s: State, env: Env)
    requires Inv(cfg, s)
    ensures s.phase == InitialConnect || s.phase == FastConnectCyclingAps ==>
              (DetermineNextPhase(cfg, s, env) == ScanConnecting <==> EntersScanning(cfg, s))
  {
  }

  /** Scan results are at hand although the next thing to do is to scan. */
  predicate Leftovers(cfg: Config, s: State) { EntersScanning(cfg, s) && s.scan != [] }

  /** A failure finds leftovers: the check a caller could make before it is that there are no results. */
  predicate MeetsLeftovers(cfg: Config, s: State, ev: Event) {
    Retries(s, ev) && Leftovers(cfg, s)
  }

  /** `leftover` holds from such a failure until ScanConnecting is left. */
  datatype Traced = Traced(s: State, leftover: bool)

  function Trace(cfg: Config, evs: seq<Event>): Traced {
    if evs == [] then Traced(FRESH, false)
    else
      var w, ev := Trace(cfg, evs[..|evs| - 1]), evs[|evs| - 1];
      var t := Step(cfg, w.s, ev);
      Traced(t, t.phase == ScanConnecting && (w.leftover || MeetsLeftovers(cfg, w.s, ev)))
  }

  /** Outside leftovers, a marked first result belongs to the selected network. */
  predicate Synced(cfg: Config, w: Traced) {
    w.s.phase == ScanConnecting && !w.leftover && 0 <= w.s.selected < |cfg.sta| && w.s.scan != [] && w.s.scan[0].matches
    ==> Belongs(w.s.scan[0], cfg.sta[w.s.selected])
  }

  /** What a step that tries a scan result has to satisfy. */
  predicate PairedUnlessLeftover(cfg: Config, s: State, w: Traced) {
    TriesScanResult(s, w.s) ==>
      w.s.scan != [] && 0 <= w.s.selected < |cfg.sta| &&
      (Paired(cfg, w.s) <==> (w.leftover ==> Belongs(w.s.scan[0], cfg.sta[w.s.selected])))
  }

  lemma AdvanceShape(cfg: Config, s: State)
    ensures Advance(cfg, s).phase == s.phase && Advance(cfg, s).attempts == s.attempts
  {
  }

  /** The state from which a failure makes its next attempt, if it does not have to wait. */
  function Destination(cfg: Config, s: State, env: Env): State {
    var next := DetermineNextPhase(cfg, s, env);
    var t := TransitionToPhase(cfg, s, next, env).0;
    if next == s.phase then Advance(cfg, t) else t
  }

  lemma MoveOnCases(cfg: Config, s: State, env: Env)
    ensures
      var t, waits := Destination(cfg, s, env), TransitionToPhase(cfg, s, DetermineNextPhase(cfg, s, env), env).1;
      MoveOn(cfg, s, env) == (if waits then TransitionToPhase(cfg, s, DetermineNextPhase(cfg, s, env), env).0
                              else if t.selected >= 0 then Connect(cfg, t, env) else t)
  {
  }

  /** A failure enters the phase it determines, and makes at most one attempt, in that phase. */
  lemma MoveOnShape(cfg: Config, s: State, env: Env)
    ensures
      var t, next := MoveOn(cfg, s, env), DetermineNextPhase(cfg, s, env);
      && t.phase == next
      && (t.attempts == s.attempts || (t.attempts != [] && t.attempts[|t.attempts| - 1].phase == next))
  {
    var next := DetermineNextPhase(cfg, s, env);
    MoveOnCases(cfg, s, env);
    TransitionShape(cfg, s, next, env);
    AdvanceShape(cfg, TransitionToPhase(cfg, s, next, env).0);
  }

  lemma StayingPairs(cfg: Config, s: State, env: Env, leftover: bool)
    requires Inv(cfg, s) && s.phase == ScanConnecting && Synced(cfg, Traced(s, leftover))
    ensures
      var t := MoveOn(cfg, s, env);
      var w := Traced(t, t.phase == ScanConnecting && leftover);
      Synced(cfg, w) && PairedUnlessLeftover(cfg, s, w)
  {
    if DetermineNextPhase(cfg, s, env) == ScanConnecting {
      StayMoves(cfg, s, env);
    } else {
      MoveOnShape(cfg, s, env);
    }
  }

  /** One more try of the best result, which is a match. */
  lemma StayMoves(cfg: Config, s: State, env: Env)
    requires Inv(cfg, s) && s.phase == ScanConnecting && DetermineNextPhase(cfg, s, env) == ScanConnecting
    ensures
      var t := MoveOn(cfg, s, env);
      && s.scan != [] && s.scan[0].matches
      && t.phase == ScanConnecting && t.scan == s.scan && t.selected == s.selected
      && t.attempts ==
         if s.selected < 0 then s.attempts
         else s.attempts + [Attempt(ScanConnecting, s.selected, WithScan(cfg.sta[s.selected], s.scan[0]))]
  {
  }

  lemma EnteringPairs(cfg: Config, s: State, env: Env)
    requires Inv(cfg, s) && s.phase != ScanConnecting
    ensures
      var t := MoveOn(cfg, s, env);
      var w := Traced(t, t.phase == ScanConnecting && EntersScanning(cfg, s) && s.scan != []);
      Synced(cfg, w) && PairedUnlessLeftover(cfg, s, w)
  {
    if DetermineNextPhase(cfg, s, env) == ScanConnecting {
      EntryMoves(cfg, s, env);
    } else {
      MoveOnShape(cfg, s, env);
    }
  }

  lemma RetryPairs(cfg: Config, s: State, env: Env, leftover: bool)
    requires Inv(cfg, s) && Synced(cfg, Traced(s, leftover))
    ensures
      var t := RetryConnect(cfg, s, env);
      var w := Traced(t, t.phase == ScanConnecting &&
                         (if s.phase == ScanConnecting then leftover else EntersScanning(cfg, s) && s.scan != []));
      Synced(cfg, w) && PairedUnlessLeftover(cfg, s, w)
  {
    var p := Penalise(cfg, s);
    assert p == s.(priorities := p.priorities);
    if s.phase == ScanConnecting {
      StayingPairs(cfg, p, env, leftover);
    } else {
      EnteringPairs(cfg, p, env);
    }
  }

  lemma MatchPairs(cfg: Config, b: State, env: Env, leftover: bool)
    requires HasSelected(cfg, b) && b.scan != [] && Belongs(b.scan[0], cfg.sta[b.selected])
    ensures
      var (t, waits) := TransitionToPhase(cfg, b, ScanConnecting, env);
      var w := Traced(if waits then t else Connect(cfg, t, env), leftover);
      w.s.phase == ScanConnecting && Synced(cfg, w) && PairedUnlessLeftover(cfg, b, w)
  {
    TransitionShape(cfg, b, ScanConnecting, env);
  }

  lemma NoMatchIsOutside(cfg: Config, b: State, env: Env)
    ensures
      var t := TransitionToPhase(cfg, b, RetryHidden, env).0;
      OutsideScanning(b, if t.selected == -1 then t else Connect(cfg, t, env))
  {
    var t := TransitionToPhase(cfg, b, RetryHidden, env).0;
    TransitionShape(cfg, b, RetryHidden, env);
    AttemptOutsideScanning(b, t, BuildParams(cfg, t), env);
  }

  lemma ScanPairs(cfg: Config, s: State, env: Env, leftover: bool)
    requires Inv(cfg, s) && s.link == Scanning && s.scanDone && s.scan != []
    ensures
      var t := ScanFinished(cfg, s, env);
      var w := Traced(t, t.phase == ScanConnecting && leftover);
      Synced(cfg, w) && PairedUnlessLeftover(cfg, s, w)
  {
    var b := Marked(cfg, s, env);
    ScanFinishedCases(cfg, s, env);
    if FoundMatch(cfg, b) {
      FirstOwnerIsFirst(b.scan[0], cfg.sta);
      MatchPairs(cfg, b.(selected := FirstOwner(b.scan[0], cfg.sta)), env, leftover);
    } else {
      NoMatchIsOutside(cfg, b, env);
    }
  }

  lemma OtherStepsPair(cfg: Config, s: State, ev: Event, leftover: bool)
    requires Inv(cfg, s) && Synced(cfg, Traced(s, leftover)) && !Retries(s, ev) && !Starts(s, ev)
    requires ev.Tick? ==> s.link != Scanning || !s.scanDone
    ensures
      var t := Step(cfg, s, ev);
      var w := Traced(t, t.phase == ScanConnecting && leftover);
      Synced(cfg, w) && PairedUnlessLeftover(cfg, s, w)
  {
  }

  lemma StepPairs(cfg: Config, w: Traced, ev: Event)
    requires cfg.Valid() && Inv(cfg, w.s) && Synced(cfg, w) && (w.leftover ==> w.s.phase == ScanConnecting)
    ensures
      var t := Step(cfg, w.s, ev);
      var next := Traced(t, t.phase == ScanConnecting && (w.leftover || MeetsLeftovers(cfg, w.s, ev)));
      Synced(cfg, next) && PairedUnlessLeftover(cfg, w.s, next)
  {
    if Retries(w.s, ev) {
      StepRetries(cfg, w.s, ev);
      RetryPairs(cfg, Failing(w.s, ev.env), ev.env, w.leftover);
    } else if Starts(w.s, ev) {
      StartIsOutsideScanning(cfg, w.s, ev.loaded, ev.saved, ev.env);
    } else if ev.Tick? && w.s.link == Scanning && w.s.scanDone {
      ScanPairs(cfg, w.s, ev.env, w.leftover);
    } else {
      OtherStepsPair(cfg, w.s, ev, w.leftover);
    }
  }

  /**
   * In every run, every attempt at a scan result sends the credentials of a network that result belongs to, except
   * that after a failure that met leftover results it does so exactly when they happen to belong together.
   */
  lemma {:induction false} OnlyLeftoversMismatch(cfg: Config, evs: seq<Event>)
    requires cfg.Valid()
    ensures
      var w := Trace(cfg, evs);
      && w.s == RunOf(cfg, evs).s && Synced(cfg, w) && (w.leftover ==> w.s.phase == ScanConnecting)
      && (evs != [] ==> PairedUnlessLeftover(cfg, Trace(cfg, evs[..|evs| - 1]).s, w))
  {
    if evs != [] {
      var front := evs[..|evs| - 1];
      OnlyLeftoversMismatch(cfg, front);
      EveryCycleEnds(cfg, front);
      StepPairs(cfg, Trace(cfg, front), evs[|evs| - 1]);
    }
  }

  /** A run in which no failure meets leftovers never sends one network's credentials under another's name. */
  lemma {:induction false} WithoutLeftoversAllPair(cfg: Config, evs: seq<Event>)
    requires cfg.Valid()
    requires forall i :: 0 <= i < |evs| ==> !MeetsLeftovers(cfg, Trace(cfg, evs[..i]).s, evs[i])
    ensures !Trace(cfg, evs).leftover
    ensures
      evs != [] && TriesScanResult(Trace(cfg, evs[..|evs| - 1]).s, Trace(cfg, evs).s) ==> Paired(cfg, Trace(cfg, evs).s)
  {
    OnlyLeftoversMismatch(cfg, evs);
    if evs != [] {
      var n := |evs| - 1;
      assert forall i :: 0 <= i < n ==> evs[..n][..i] == evs[..i] && evs[..n][i] == evs[i];
      WithoutLeftoversAllPair(cfg, evs[..n]);
      assert !MeetsLeftovers(cfg, Trace(cfg, evs[..n]).s, evs[n]);
    }
  }

  const HOME := Ap("home", "secret", 0, 0, 0, false)
  const OFFICE := Ap("office", "other", 0, 0, 0, false)
  const CALM := Env(false, false, true, true, false)

  function Heard(ssid: string, bssid: Bssid): ScanResult {
    ScanResult(bssid, ssid, 1, -60, true, false, 0, false)
  }

  /** A roaming scan at home hears only the office, and the connection is lost before its results are read. */
  lemma OfficeIsHeard(cfg: Config, s: State)
    requires s.link == Connected && s.scan == [] && !s.scanDone && !s.scanPending
    ensures
      Step(cfg, Step(cfg, Step(cfg, s, RoamScanStarted(CALM)), ScanArrived([Heard("office", 7)])), Disconnected) ==
        s.(scan := [Heard("office", 7)], scanDone := true, error := true)
  {
    var results := [Heard("office", 7)];
    assert results[..0] == [] && Unmarked(results) == [] + results;
  }

  /** Its results are then used as they are: the office's SSID is tried with the password from home. */
  lemma OfficeIsTriedFromHome(cfg: Config, s: State)
    requires cfg == Config([HOME, OFFICE], false) && Inv(cfg, s)
    requires s.link == Connected && s.selected == 0 && s.error && s.scan == [Heard("office", 7)]
    ensures
      var tick := Tick(CALM, Failed, false, false, false);
      var t := Step(cfg, s, tick);
      MeetsLeftovers(cfg, s, tick) && TriesScanResult(s, t) && !Paired(cfg, t)
  {
    var lost := s.(link := Connecting);
    LeftoversArePairedExactly(cfg, lost, CALM);
    MoveOnShape(cfg, Penalise(cfg, lost), CALM);
    assert !Belongs(Heard("office", 7), HOME);
  }

  /** The events of a boot, a scan, a connection, a roaming scan, and the loss of the connection before it is read. */
  function LossDuringRoamScan(): seq<Event> {
    [Enabled(false, NothingSaved, CALM), ScanArrived([Heard("home", 5)]), Tick(CALM, Idle, false, false, false),
     Tick(CALM, Up, false, false, false), RoamScanStarted(CALM), ScanArrived([Heard("office", 7)]), Disconnected,
     Tick(CALM, Failed, false, false, false)]
  }

  lemma TraceExtends(cfg: Config, evs: seq<Event>, ev: Event)
    ensures Trace(cfg, evs + [ev]).s == Step(cfg, Trace(cfg, evs).s, ev)
  {
    assert (evs + [ev])[..|evs|] == evs;
  }

  /** The first scan after boot has found the network at home. */
  lemma HomeIsHeard(cfg: Config)
    requires cfg == Config([HOME, OFFICE], false)
    ensures
      var s := Trace(cfg, LossDuringRoamScan()[..2]).s;
      && s.phase == InitialConnect && s.link == Scanning && s.numRetried == 0
      && s.scan == [Heard("home", 5)] && s.scanDone && !s.scanPending
  {
    var evs, home := LossDuringRoamScan(), [Heard("home", 5)];
    assert evs[..0] == [] && evs[..1] == [] + [evs[0]] && evs[..2] == evs[..1] + [evs[1]];
    TraceExtends(cfg, [], evs[0]);
    TraceExtends(cfg, evs[..1], evs[1]);
    assert home[..0] == [] && Unmarked(home) == [] + home;
  }

  /** From boot to a connection with the network at home. */
  lemma HomeIsConnected(cfg: Config)
    requires cfg == Config([HOME, OFFICE], false)
    ensures
      var s := Trace(cfg, LossDuringRoamScan()[..4]).s;
      && s.phase == InitialConnect && s.link == Connected && s.selected == 0 && s.numRetried == 0
      && s.scan == [] && !s.scanDone && !s.scanPending && s.priorities == map[]
  {
    var evs := LossDuringRoamScan();
    assert evs[..3] == evs[..2] + [evs[2]] && evs[..4] == evs[..3] + [evs[3]];
    HomeIsHeard(cfg);
    TraceExtends(cfg, evs[..2], evs[2]);
    TraceExtends(cfg, evs[..3], evs[3]);
    HomeIsFound(cfg, Trace(cfg, evs[..2]).s);
  }

  lemma OneResultRanked(cfg: Config, r: ScanResult, table: map<Bssid, Int8>)
    requires FirstOwner(r, cfg.sta) < |cfg.sta|
    ensures
      var scan := InsertionSort(Track(cfg.sta, [r], table).0);
      |scan| == 1 && scan[0].matches && scan[0] == r.(matches := true, priority := scan[0].priority)
  {
    assert [r][..0] == [];
    var m := Track(cfg.sta, [r], table).0;
    assert Track(cfg.sta, [], table).0 == [] && |m| == 1;
    assert m[..0] == [] && InsertionSort(m[..0]) == [];
  }

  lemma FirstMatchConnects(cfg: Config, b: State, env: Env)
    requires b.phase == InitialConnect && b.scan != [] && 0 <= b.selected && env.connects
    ensures
      var (t, waits) := TransitionToPhase(cfg, b, ScanConnecting, env);
      !waits && Connect(cfg, t, env) == b.(phase := ScanConnecting, numRetried := 0, link := Connecting, error := false,
                                           attempts := Connect(cfg, t, env).attempts)
  {
  }

  lemma HomeIsFound(cfg: Config, s: State)
    requires cfg == Config([HOME, OFFICE], false)
    requires s.phase == InitialConnect && s.numRetried == 0 && s.scan == [Heard("home", 5)]
    ensures
      var t := ScanFinished(cfg, s, CALM);
      t.phase == ScanConnecting && t.link == Connecting && t.selected == 0 && t.numRetried == 0 &&
      t.scanPending == s.scanPending && !t.scanDone
  {
    var r := Heard("home", 5);
    assert Belongs(r, HOME) && FirstOwner(r, cfg.sta) == 0;
    OneResultRanked(cfg, r, s.priorities);
    var b := Marked(cfg, s, CALM);
    assert Belongs(b.scan[0], HOME) && FirstOwner(b.scan[0], cfg.sta) == 0;
    ScanFinishedCases(cfg, s, CALM);
    FirstMatchConnects(cfg, b.(selected := 0), CALM);
  }

  /** A run from boot that sends the password of one network under the name of the other. */
  lemma LossDuringRoamScanMixesNetworks(cfg: Config)
    requires cfg == Config([HOME, OFFICE], false)
    ensures
      var before, after := Trace(cfg, LossDuringRoamScan()[..7]), Trace(cfg, LossDuringRoamScan());
      MeetsLeftovers(cfg, before.s, LossDuringRoamScan()[7]) && TriesScanResult(before.s, after.s) && !Paired(cfg, after.s)
  {
    var evs := LossDuringRoamScan();
    HomeIsConnected(cfg);
    var s := Trace(cfg, evs[..4]).s;
    assert evs[..5] == evs[..4] + [evs[4]] && evs[..6] == evs[..5] + [evs[5]];
    assert evs[..7] == evs[..6] + [evs[6]] && evs == evs[..7] + [evs[7]];
    TraceExtends(cfg, evs[..4], evs[4]);
    TraceExtends(cfg, evs[..5], evs[5]);
    TraceExtends(cfg, evs[..6], evs[6]);
    TraceExtends(cfg, evs[..7], evs[7]);
    OfficeIsHeard(cfg, s);
    OfficeIsTriedFromHome(cfg, Trace(cfg, evs[..7]).s);
  }
}
