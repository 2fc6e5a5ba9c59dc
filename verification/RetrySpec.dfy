/**
 * The reconnect state machine as functions on a value: every failed attempt goes through RetryConnect,
 * every finished scan through ScanFinished. The WifiComponent class is proved against these functions.
 */
module RetrySpec {
  import opened WifiTypes
  import opened ScanSort

  /** A position in the list of networks, or -1 for none. */
  type Index = i: int | -1 <= i witness -1

  datatype Phase =
    | InitialConnect
    | FastConnectCyclingAps
    | ExplicitHidden
    | ScanConnecting
    | RetryHidden
    | RestartingAdapter

  /** Which networks the RetryHidden phase considers: those missing from the scan, or all. */
  datatype HiddenMode = ScanBased | BlindRetry

  /** Off: not started yet, or disabled. */
  datatype Link = Off | Cooldown | Scanning | Connecting | Connected

  datatype Status = Idle | InProgress | Up | NotFound | Failed

  datatype Config = Config(sta: seq<Ap>, fastConnect: bool) {
    /** What the configuration schema accepts. */
    predicate Valid() { 1 <= |sta| <= 127 }

    /** The first network is hidden, so hidden networks are tried before scanning. */
    predicate HiddenFirst() { sta != [] && sta[0].hidden }
  }

  /** What the surroundings decide during one call. */
  datatype Env = Env(portal: bool, improv: bool, connects: bool, scanStarts: bool, filtered: bool)

  /** One call into the driver to connect: the phase and network index it was made for, and its parameters. */
  datatype Attempt = Attempt(phase: Phase, index: Index, params: Ap)

  datatype State = State(
    phase: Phase,
    numRetried: nat,
    selected: Index,
    mode: HiddenMode,
    scan: seq<ScanResult>,
    scanDone: bool,
    scanPending: bool,
    portalScanned: bool,
    error: bool,
    priorities: map<Bssid, Int8>,
    link: Link,
    attempts: seq<Attempt>)

  const RETRY_COUNT_PER_BSSID: nat := 2
  const RETRY_COUNT_PER_SSID: nat := 1
  const RETRY_COUNT_PER_AP: nat := 1

  function MaxRetries(phase: Phase): nat {
    match phase
    case InitialConnect => RETRY_COUNT_PER_AP
    case FastConnectCyclingAps => RETRY_COUNT_PER_AP
    case ExplicitHidden => RETRY_COUNT_PER_SSID
    case ScanConnecting => RETRY_COUNT_PER_BSSID
    case RetryHidden => RETRY_COUNT_PER_SSID
    case RestartingAdapter => RETRY_COUNT_PER_BSSID
  }

  // ---- Choosing a network ----

  predicate HasSelected(cfg: Config, s: State) { 0 <= s.selected < |cfg.sta| }

  /** Length of the run of hidden networks the configuration starts with. */
  function HiddenPrefix(sta: seq<Ap>): (n: nat)
    ensures n <= |sta|
  {
    if sta == [] || !sta[0].hidden then 0 else 1 + HiddenPrefix(sta[1..])
  }

  lemma {:induction false} HiddenPrefixIsMaximal(sta: seq<Ap>)
    ensures forall k :: 0 <= k < HiddenPrefix(sta) ==> sta[k].hidden
    ensures HiddenPrefix(sta) < |sta| ==> !sta[HiddenPrefix(sta)].hidden
  {
    if sta != [] && sta[0].hidden {
      HiddenPrefixIsMaximal(sta[1..]);
      forall k | 0 <= k < HiddenPrefix(sta) ensures sta[k].hidden {
        if k > 0 { assert sta[k] == sta[1..][k - 1]; }
      }
    }
  }

  predicate ConfiguredHidden(sta: seq<Ap>, ssid: string) {
    exists k :: 0 <= k < |sta| && sta[k].ssid == ssid && sta[k].hidden
  }

  predicate InScan(scan: seq<ScanResult>, ssid: string) {
    exists k :: 0 <= k < |scan| && scan[k].ssid == ssid
  }

  /** An SSID some network marks as hidden never counts as seen. */
  predicate SsidSeen(sta: seq<Ap>, scan: seq<ScanResult>, ssid: string) {
    !ConfiguredHidden(sta, ssid) && InScan(scan, ssid)
  }

  /** Network `i` is tried in the RetryHidden phase. */
  predicate Candidate(cfg: Config, s: State, i: nat)
    requires i < |cfg.sta|
  {
    && !(cfg.HiddenFirst() && i < HiddenPrefix(cfg.sta))
    && (s.mode == BlindRetry || !SsidSeen(cfg.sta, s.scan, cfg.sta[i].ssid))
  }

  function NextCandidate(cfg: Config, s: State, i: nat): (r: Index)
    ensures r == -1 || i <= r < |cfg.sta|
    decreases |cfg.sta| - i
  {
    if i >= |cfg.sta| then -1
    else if Candidate(cfg, s, i) then i
    else NextCandidate(cfg, s, i + 1)
  }

  lemma {:induction false} NextCandidateIsFirst(cfg: Config, s: State, i: nat)
    ensures NextCandidate(cfg, s, i) != -1 ==> Candidate(cfg, s, NextCandidate(cfg, s, i))
    ensures forall k :: i <= k < |cfg.sta| && (NextCandidate(cfg, s, i) == -1 || k < NextCandidate(cfg, s, i))
              ==> !Candidate(cfg, s, k)
    decreases |cfg.sta| - i
  {
    if i < |cfg.sta| && !Candidate(cfg, s, i) {
      NextCandidateIsFirst(cfg, s, i + 1);
    }
  }

  /** The next network after `start` to try in the RetryHidden phase, or -1. */
  function FindNextHidden(cfg: Config, s: State, start: Index): Index
  {
    NextCandidate(cfg, s, start + 1)
  }

  /** Which networks are candidates depends on the scan and the mode alone. */
  lemma {:induction false} NextCandidateFrame(cfg: Config, s: State, t: State, i: nat)
    requires s.scan == t.scan && s.mode == t.mode
    ensures NextCandidate(cfg, s, i) == NextCandidate(cfg, t, i)
    decreases |cfg.sta| - i
  {
    if i < |cfg.sta| {
      NextCandidateFrame(cfg, s, t, i + 1);
    }
  }

  function BuildParams(cfg: Config, s: State): Ap {
    if !HasSelected(cfg, s) then EMPTY_AP
    else
      var config := cfg.sta[s.selected];
      match s.phase
      case ExplicitHidden => config.(bssid := 0, channel := 0)
      case RetryHidden => config.(bssid := 0, channel := 0)
      case ScanConnecting => if s.scan == [] then config else WithScan(config, s.scan[0])
      case _ => config
  }

  function WithScan(config: Ap, r: ScanResult): Ap {
    config.(hidden := false, ssid := r.ssid, bssid := r.bssid, channel := r.channel)
  }

  // ---- Driver calls ----

  function StartScanning(s: State, env: Env): State {
    s.(link := Scanning,
       scanPending := s.scanPending || env.scanStarts,
       scanDone := s.scanDone && !env.scanStarts)
  }

  function StartConnecting(s: State, params: Ap, env: Env): State {
    s.(error := false,
       link := if env.connects then Connecting else Cooldown,
       attempts := s.attempts + [Attempt(s.phase, s.selected, params)])
  }

  // ---- Priorities ----

  datatype MaybeBssid = NoBssid | TheBssid(bssid: Bssid)

  function FailedBssid(cfg: Config, s: State): MaybeBssid {
    if s.phase == ScanConnecting && s.scan != [] then TheBssid(s.scan[0].bssid)
    else if HasSelected(cfg, s) && cfg.sta[s.selected].HasBssid() then TheBssid(cfg.sta[s.selected].bssid)
    else NoBssid
  }

  function GetPriority(table: map<Bssid, Int8>, b: Bssid): Int8 {
    if b in table then table[b] else 0
  }

  function Lowered(p: Int8): Int8 { if p > MIN_PRIORITY then p - 1 else MIN_PRIORITY }

  predicate AllMin(table: map<Bssid, Int8>) {
    forall b :: b in table ==> table[b] == MIN_PRIORITY
  }

  function ClearIfAllMin(table: map<Bssid, Int8>): map<Bssid, Int8> {
    if AllMin(table) then map[] else table
  }

  /** The failed BSSID loses one point on the last attempt the phase allows, and a table of minima is dropped. */
  function Penalise(cfg: Config, s: State): State {
    match FailedBssid(cfg, s)
    case NoBssid => s
    case TheBssid(b) =>
      var table := if s.numRetried + 1 >= MaxRetries(s.phase)
                   then s.priorities[b := Lowered(GetPriority(s.priorities, b))]
                   else s.priorities;
      s.(priorities := ClearIfAllMin(table))
  }

  // ---- Phases ----

  function AfterFastConnect(cfg: Config): Phase {
    if cfg.HiddenFirst() then ExplicitHidden else ScanConnecting
  }

  function DetermineNextPhase(cfg: Config, s: State, env: Env): Phase
  {
    var n := |cfg.sta|;
    match s.phase
    case InitialConnect =>
      if cfg.fastConnect && s.selected < n - 1 then FastConnectCyclingAps else AfterFastConnect(cfg)
    case FastConnectCyclingAps =>
      if cfg.fastConnect && s.selected < n - 1 then FastConnectCyclingAps else AfterFastConnect(cfg)
    case ExplicitHidden =>
      if s.numRetried + 1 < RETRY_COUNT_PER_SSID then ExplicitHidden
      else if s.selected + 1 < n && cfg.sta[s.selected + 1].hidden then ExplicitHidden
      else if HiddenPrefix(cfg.sta) == n then RestartingAdapter
      else ScanConnecting
    case ScanConnecting =>
      if s.scan == [] || !s.scan[0].matches then RetryHidden
      else if s.numRetried + 1 < RETRY_COUNT_PER_BSSID then ScanConnecting
      else if FindNextHidden(cfg, s, -1) >= 0 then RetryHidden
      else RestartingAdapter
    case RetryHidden =>
      if s.selected >= 0 && s.numRetried + 1 < RETRY_COUNT_PER_SSID then RetryHidden
      else if 0 <= s.selected < n - 1 && FindNextHidden(cfg, s, s.selected) != -1 then RetryHidden
      else RestartingAdapter
    case RestartingAdapter =>
      if cfg.HiddenFirst() then ExplicitHidden
      else if env.portal then if s.portalScanned then RetryHidden else ScanConnecting
      else if env.improv then RetryHidden
      else ScanConnecting
  }

  /** The state after entering `next`, and whether the caller has to wait (a scan or a cooldown started). */
  function TransitionToPhase(cfg: Config, s: State, next: Phase, env: Env): (State, bool)
  {
    if next == s.phase then (s, false)
    else
      var t := s.(phase := next, numRetried := 0);
      match next
      case FastConnectCyclingAps => (t.(selected := s.selected + 1, scan := []), false)
      case ExplicitHidden => (t.(selected := 0), false)
      case ScanConnecting =>
        if s.scan == [] || s.phase.ExplicitHidden? || s.phase.RetryHidden? || s.phase.RestartingAdapter?
        then (StartScanning(t.(selected := -1), env), true)
        else (t, false)
      case RetryHidden => (t.(selected := FindNextHidden(cfg, t, -1)), false)
      case RestartingAdapter =>
        (t.(error := s.error && (env.portal || env.improv), mode := BlindRetry, link := Cooldown), true)
      case InitialConnect => (t, false)
  }

  predicate NeedsScanResults(s: State) {
    s.phase == ScanConnecting && (s.scan == [] || !s.scan[0].matches)
  }

  function Advance(cfg: Config, s: State): State
  {
    var next := s.selected + 1;
    if s.phase == FastConnectCyclingAps then s.(selected := next, numRetried := 0)
    else if s.phase == ExplicitHidden && s.numRetried + 1 >= RETRY_COUNT_PER_SSID
            && next < |cfg.sta| && cfg.sta[next].hidden then s.(selected := next, numRetried := 0)
    else if s.phase == RetryHidden && s.numRetried + 1 >= RETRY_COUNT_PER_SSID then
      var candidate := FindNextHidden(cfg, s, s.selected);
      if candidate != -1 then s.(selected := candidate, numRetried := 0) else s.(selected := -1)
    else if NeedsScanResults(s) then s
    else s.(numRetried := s.numRetried + 1)
  }

  /** Moves on after a failure whose penalty has been recorded: next phase, next target, next attempt. */
  function MoveOn(cfg: Config, s: State, env: Env): State {
    var next := DetermineNextPhase(cfg, s, env);
    var (t, waits) := TransitionToPhase(cfg, s, next, env);
    if waits then t
    else
      var u := if next == s.phase then Advance(cfg, t) else t;
      if u.selected >= 0 then StartConnecting(u, BuildParams(cfg, u), env) else u
  }

  /** What a failed or given-up attempt leads to. */
  function RetryConnect(cfg: Config, s: State, env: Env): State {
    MoveOn(cfg, Penalise(cfg, s), env)
  }

  // ---- Finished scans ----

  /** Marks the results that belong to a network and looks up their priority, entering unknown BSSIDs. */
  function Track(sta: seq<Ap>, scan: seq<ScanResult>, table: map<Bssid, Int8>): (r: (seq<ScanResult>, map<Bssid, Int8>))
    ensures |r.0| == |scan|
  {
    if scan == [] then ([], table)
    else
      var n := |scan| - 1;
      var (front, t) := Track(sta, scan[..n], table);
      var res := scan[n];
      var owner := FirstOwner(res, sta);
      if owner == |sta| then (front + [res], t)
      else
        var t' := if res.bssid in t then t else t[res.bssid := sta[owner].priority];
        (front + [res.(matches := true, priority := t'[res.bssid])], t')
  }

  function ScanFinished(cfg: Config, s: State, env: Env): State
  {
    var a := s.(scanDone := false, portalScanned := !env.filtered, mode := ScanBased);
    if a.scan == [] then RetryConnect(cfg, a, env)
    else
      var (marked, table) := Track(cfg.sta, a.scan, a.priorities);
      var b := a.(scan := InsertionSort(marked), priorities := table);
      var owner := FirstOwner(b.scan[0], cfg.sta);
      if b.scan[0].matches && owner < |cfg.sta| then
        var (t, waits) := TransitionToPhase(cfg, b.(selected := owner), ScanConnecting, env);
        if waits then t else StartConnecting(t, BuildParams(cfg, t), env)
      else
        var (t, _) := TransitionToPhase(cfg, b, RetryHidden, env);
        if t.selected == -1 then t else StartConnecting(t, BuildParams(cfg, t), env)
  }

  function CheckScanningFinished(cfg: Config, s: State, timedOut: bool, env: Env): State
  {
    if s.scanDone then ScanFinished(cfg, s, env)
    else if timedOut then RetryConnect(cfg, s, env)
    else s
  }

  // ---- Attempts that end ----

  function Succeeded(s: State): State {
    s.(phase := InitialConnect, numRetried := 0, link := Connected, priorities := map[], scan := [])
  }

  function CheckConnectingFinished(cfg: Config, s: State, status: Status, ssidEmpty: bool, timedOut: bool, env: Env): State
  {
    if status == Up then
      if ssidEmpty then RetryConnect(cfg, s, env) else Succeeded(s)
    else if timedOut || s.error then RetryConnect(cfg, s, env)
    else if status == InProgress then s
    else RetryConnect(cfg, s, env)
  }

  // ---- Start of the component ----

  datatype Saved = NothingSaved | SavedAp(index: nat, bssid: Bssid, channel: nat)

  /** Before the first start: nothing tried, nothing known. */
  const FRESH := State(InitialConnect, 0, -1, BlindRetry, [], false, false, false, false, map[], Off, [])

  function StartInitialConnection(cfg: Config, s: State, env: Env): State {
    if cfg.HiddenFirst() then
      var t := s.(selected := 0, phase := ExplicitHidden);
      StartConnecting(t, BuildParams(cfg, t), env)
    else StartScanning(s, env)
  }

  /**
   * The start after boot, and every later one after the component was disabled. It resets the phase; scan results,
   * flags, mode and priorities stay as they were. Loaded credentials leave their network selected.
   */
  function StartUp(cfg: Config, s: State, loaded: bool, saved: Saved, env: Env): State {
    Begin(cfg, TransitionToPhase(cfg, if loaded then s.(selected := 0) else s, InitialConnect, env).0, saved, env)
  }

  /** The first attempt or scan of a start: the saved network, the first network, or a scan. */
  function Begin(cfg: Config, b: State, saved: Saved, env: Env): State {
    if cfg.fastConnect && saved.SavedAp? && saved.index < |cfg.sta| then
      StartConnecting(b.(selected := saved.index), SavedParams(cfg, saved), env)
    else if cfg.fastConnect && cfg.sta != [] && !cfg.HiddenFirst() then
      var t := b.(selected := 0);
      StartConnecting(t, BuildParams(cfg, t), env)
    else StartInitialConnection(cfg, b, env)
  }

  function SavedParams(cfg: Config, saved: Saved): Ap
    requires saved.SavedAp? && saved.index < |cfg.sta|
  {
    cfg.sta[saved.index].(bssid := saved.bssid, channel := saved.channel, hidden := false)
  }

  // ---- Whole runs ----

  datatype Event =
    /** One pass of the main loop. `quiet` is false when a cooldown is still running. */
    | Tick(env: Env, status: Status, ssidEmpty: bool, timedOut: bool, quiet: bool)
    /** The driver reports the end of a scan. */
    | ScanArrived(results: seq<ScanResult>)
    | Disconnected
    | PortalStarted
    /** The driver moved to another access point without losing the connection. */
    | DriverRoamed
    /** A connected station scans for a better access point, and the outcome is read. */
    | RoamScanStarted(env: Env)
    | RoamScanRead(target: MaybeAp, env: Env)
    | Disabled
    | Enabled(loaded: bool, saved: Saved, env: Env)

  datatype MaybeAp = NoAp | TheAp(ap: Ap)

  function Step(cfg: Config, s: State, ev: Event): State
  {
    match ev
    case Tick(env, status, ssidEmpty, timedOut, quiet) => (
      match s.link
      case Off => s
      case Cooldown => if quiet then CheckConnectingFinished(cfg, s, status, ssidEmpty, timedOut, env) else s
      case Scanning => CheckScanningFinished(cfg, s, timedOut, env)
      case Connecting => CheckConnectingFinished(cfg, s, status, ssidEmpty, timedOut, env)
      case Connected =>
        if status == Up && !s.error then s else RetryConnect(cfg, s.(link := Connecting), env))
    case ScanArrived(results) =>
      s.(scan := Unmarked(results), scanDone := true, scanPending := false)
    case Disconnected => s.(error := true)
    case PortalStarted => s.(portalScanned := false)
    case DriverRoamed => if s.link == Connected then s.(priorities := map[]) else s
    case RoamScanStarted(env) =>
      if s.link == Connected then
        s.(scanPending := s.scanPending || env.scanStarts, scanDone := s.scanDone && !env.scanStarts)
      else s
    case RoamScanRead(target, env) =>
      if s.link == Connected && s.scanDone then
        var r := s.(scanDone := false, scan := []);
        if target.TheAp? then StartConnecting(r, target.ap, env) else r
      else s
    case Disabled => s.(link := Off)
    case Enabled(loaded, saved, env) => if s.link == Off then StartUp(cfg, s, loaded, saved, env) else s
  }

  /** Results as the driver handler constructs them. */
  function Unmarked(results: seq<ScanResult>): (r: seq<ScanResult>)
    ensures |r| == |results|
    ensures forall k :: 0 <= k < |r| ==> r[k] == results[k].(matches := false, priority := 0)
  {
    if results == [] then []
    else Unmarked(results[..|results| - 1]) + [results[|results| - 1].(matches := false, priority := 0)]
  }
}
