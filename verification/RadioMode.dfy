/** The mode of the radio: the access point runs alongside the station and stays up. */
module RadioMode {

  datatype Mode = NoMode | StationOnly | ApOnly | Both {
    predicate HasStation() { this == StationOnly || this == Both }

    predicate HasAp() { this == ApOnly || this == Both }
  }

  /** A wish for one interface: leave it, or turn it off or on. */
  datatype Wish = Keep | Set(on: bool) {
    function Or(current: bool): bool { if this == Keep then current else on }
  }

  /** Which calls into the driver succeed. */
  datatype Driver = Driver(getMode: bool, stop: bool, setMode: bool, start: bool)

  /** The mode the driver is set to, whether it runs, and whether the access point counts as set up. */
  datatype Radio = Radio(mode: Mode, started: bool, apSetup: bool) {
    /** What is on the air. */
    predicate StationUp() { started && mode.HasStation() }

    predicate ApUp() { started && mode.HasAp() }
  }

  function ModeOf(station: bool, ap: bool): Mode {
    if station then if ap then Both else StationOnly else if ap then ApOnly else NoMode
  }

  function ChangeMode(r: Radio, station: Wish, ap: Wish, d: Driver): (Radio, bool) {
    if r.started && !d.getMode then (r, false)
    else
      var current := if r.started then r.mode else NoMode;
      var wanted := ModeOf(station.Or(current.HasStation()), ap.Or(current.HasAp()));
      if current == wanted then (r, true)
      else if wanted == NoMode && r.started then
        if d.stop then (r.(started := false), true) else (r, false)
      else if !d.setMode then (r, false)
      else if wanted != NoMode && !r.started then
        (r.(mode := wanted, started := d.start), d.start)
      else (r.(mode := wanted), true)
  }

  /** A change either takes effect as asked or leaves what is on the air alone. */
  lemma ChangeIsAtomic(r: Radio, station: Wish, ap: Wish, d: Driver)
    ensures
      var (t, ok) := ChangeMode(r, station, ap, d);
      && t.apSetup == r.apSetup
      && t.StationUp() == (if ok then station.Or(r.StationUp()) else r.StationUp())
      && t.ApUp() == (if ok then ap.Or(r.ApUp()) else r.ApUp())
  {
    var current := if r.started then r.mode else NoMode;
    assert ModeOf(current.HasStation(), current.HasAp()) == current;
  }

  function ApStarted(r: Radio, first: Driver, second: Driver, configured: bool): Radio {
    var once := ChangeMode(r, Keep, Set(true), first).0;
    if r.apSetup then once
    else
      var (twice, ok) := ChangeMode(once, Keep, Set(true), second);
      twice.(apSetup := ok && configured)
  }

  // ---- Runs ----

  datatype Action =
    /** A scan, a connection attempt, the setup before either, or the start of provisioning over Bluetooth. */
    | UseStation(d: Driver)
    | RestartAdapter(d: Driver)
    /** The part of the main loop that starts the access point. */
    | FallbackAp(closed: bool, first: Driver, second: Driver, configured: bool)
    | Disable(d: Driver)
    | ProvisioningCloses(d: Driver)

  function Act(r: Radio, a: Action): Radio {
    match a
    case UseStation(d) => ChangeMode(r, Set(true), Keep, d).0
    case RestartAdapter(d) => ChangeMode(r, Set(false), Keep, d).0
    case FallbackAp(closed, first, second, configured) =>
      if r.apSetup || closed then r else ApStarted(r, first, second, configured)
    case Disable(d) => ChangeMode(r, Set(false), Set(false), d).0
    case ProvisioningCloses(d) => if r.apSetup then ChangeMode(r, Keep, Set(false), d).0 else r
  }

  function ActAll(r: Radio, actions: seq<Action>): Radio {
    if actions == [] then r
    else Act(ActAll(r, actions[..|actions| - 1]), actions[|actions| - 1])
  }

  /** The actions that mean to switch the access point off, and whether the driver lets them. */
  predicate SwitchesOff(r: Radio, a: Action) {
    match a
    case Disable(d) => d.getMode && d.stop
    case ProvisioningCloses(d) => r.apSetup && d.getMode && (if r.mode.HasStation() then d.setMode else d.stop)
    case _ => false
  }

  lemma ApStartedKeepsAp(r: Radio, first: Driver, second: Driver, configured: bool)
    requires r.apSetup ==> r.ApUp()
    ensures
      var t := ApStarted(r, first, second, configured);
      (r.ApUp() ==> t.ApUp()) && (t.apSetup ==> t.ApUp())
  {
    var once := ChangeMode(r, Keep, Set(true), first).0;
    ChangeIsAtomic(r, Keep, Set(true), first);
    ChangeIsAtomic(once, Keep, Set(true), second);
  }

  /** The access point goes down exactly in those actions. */
  lemma ApGoesDownExactly(r: Radio, a: Action)
    requires r.ApUp()
    ensures !Act(r, a).ApUp() <==> SwitchesOff(r, a)
  {
    match a
    case UseStation(d) => ChangeIsAtomic(r, Set(true), Keep, d);
    case RestartAdapter(d) => ChangeIsAtomic(r, Set(false), Keep, d);
    case FallbackAp(_, first, second, configured) =>
      if !r.apSetup { ApStartedKeepsAp(r, first, second, configured); }
    case Disable(d) =>
    case ProvisioningCloses(d) =>
  }

  predicate Harmless(a: Action) { !a.Disable? && !a.ProvisioningCloses? }

  /**
   * The access point, once up, stays up through scans, connections, lost connections and adapter restarts; and
   * it is up whenever it counts as set up.
   */
  lemma {:induction false} ApStaysUp(r: Radio, actions: seq<Action>)
    requires r.apSetup ==> r.ApUp()
    requires forall i :: 0 <= i < |actions| ==> Harmless(actions[i])
    ensures
      var t := ActAll(r, actions);
      (r.ApUp() ==> t.ApUp()) && (t.apSetup ==> t.ApUp())
  {
    if actions != [] {
      var n := |actions| - 1;
      ApStaysUp(r, actions[..n]);
      var s := ActAll(r, actions[..n]);
      match actions[n]
      case UseStation(d) => ChangeIsAtomic(s, Set(true), Keep, d);
      case RestartAdapter(d) => ChangeIsAtomic(s, Set(false), Keep, d);
      case FallbackAp(closed, first, second, configured) =>
        if !s.apSetup && !closed { ApStartedKeepsAp(s, first, second, configured); }
    }
  }

  /** An access point that is down but counts as set up never comes back, whatever happens. */
  lemma {:induction false} DownForGood(r: Radio, actions: seq<Action>)
    requires r.apSetup && !r.ApUp()
    ensures ActAll(r, actions).apSetup && !ActAll(r, actions).ApUp()
  {
    if actions != [] {
      var n := |actions| - 1;
      DownForGood(r, actions[..n]);
      var s := ActAll(r, actions[..n]);
      match actions[n]
      case UseStation(d) => ChangeIsAtomic(s, Set(true), Keep, d);
      case RestartAdapter(d) => ChangeIsAtomic(s, Set(false), Keep, d);
      case FallbackAp(_, _, _, _) =>
      case Disable(d) => ChangeIsAtomic(s, Set(false), Set(false), d);
      case ProvisioningCloses(d) => ChangeIsAtomic(s, Keep, Set(false), d);
    }
  }

  predicate AllHarmless(actions: seq<Action>) { forall i :: 0 <= i < |actions| ==> Harmless(actions[i]) }

  const OBEDIENT := Driver(true, true, true, true)

  lemma FallbackBringsUp(r: Radio)
    requires !r.apSetup
    ensures ActAll(r, [FallbackAp(false, OBEDIENT, OBEDIENT, true)]).ApUp()
  {
    var actions := [FallbackAp(false, OBEDIENT, OBEDIENT, true)];
    assert actions[..0] == [];
    ApStartedKeepsAp(r, OBEDIENT, OBEDIENT, true);
  }

  /** Nothing that may follow has the access point on the air. */
  ghost predicate Lost(r: Radio) { forall actions :: !ActAll(r, actions).ApUp() }

  /** An access point that is down is lost exactly if it counts as set up; else harmless actions bring it back. */
  lemma ComesBackExactly(r: Radio)
    requires !r.ApUp()
    ensures Lost(r) <==> r.apSetup
    ensures (exists actions :: AllHarmless(actions) && ActAll(r, actions).ApUp()) <==> !r.apSetup
  {
    if r.apSetup {
      forall actions ensures !ActAll(r, actions).ApUp() {
        DownForGood(r, actions);
      }
    } else {
      FallbackBringsUp(r);
      assert AllHarmless([FallbackAp(false, OBEDIENT, OBEDIENT, true)]);
    }
  }

  /**
   * Disabling loses the access point exactly if it counts as set up and is not kept on the air by a driver that
   * refuses: the flag is not reset.
   */
  lemma DisablingLosesAp(r: Radio, d: Driver)
    ensures Lost(Act(r, Disable(d))) <==> r.apSetup && (!r.ApUp() || (d.getMode && d.stop))
  {
    var t := Act(r, Disable(d));
    ChangeIsAtomic(r, Set(false), Set(false), d);
    if r.ApUp() {
      ApGoesDownExactly(r, Disable(d));
    }
    if t.ApUp() {
      assert ActAll(t, []) == t;
    } else {
      ComesBackExactly(t);
    }
  }

  // ---- The driver's own mode ----

  /**
   * A driver mode that names the access point keeps naming it through all harmless actions exactly when the radio
   * was started; otherwise the next use of the station takes it for off and drops it.
   */
  lemma ModeKeptIffStarted(r: Radio)
    requires r.mode.HasAp()
    ensures r.started <==> forall actions :: AllHarmless(actions) ==> ActAll(r, actions).mode.HasAp()
  {
    if r.started {
      forall actions | AllHarmless(actions) ensures ActAll(r, actions).mode.HasAp() {
        ApStaysUp(r, actions);
      }
    } else {
      var actions := [UseStation(OBEDIENT)];
      assert actions[..0] == [] && AllHarmless(actions);
      assert !ActAll(r, actions).mode.HasAp();
    }
  }

  /** A first start that fails leads to such a mode: it names the access point, and the radio was not started. */
  lemma FailedStartDropsMode(d: Driver)
    requires d.setMode && !d.start
    ensures
      var r := ChangeMode(Radio(NoMode, false, false), Keep, Set(true), d).0;
      r.mode.HasAp() && !r.started && exists actions :: AllHarmless(actions) && !ActAll(r, actions).mode.HasAp()
  {
    ModeKeptIffStarted(ChangeMode(Radio(NoMode, false, false), Keep, Set(true), d).0);
  }

  // ---- In place ----

  /** The component's part in this: one driver mode, two flags. */
  class RadioControl {
    var mode: Mode
    var wifiStarted: bool
    var apSetup: bool

    ghost function View(): Radio
      reads this
    {
      Radio(mode, wifiStarted, apSetup)
    }

    /** The access point is on the air whenever it counts as set up. */
    ghost predicate Valid()
      reads this
    {
      View().apSetup ==> View().ApUp()
    }

    constructor ()
      ensures View() == Radio(NoMode, false, false) && Valid()
    {
      mode, wifiStarted, apSetup := NoMode, false, false;
    }

    /** Whatever the driver does, what is on the air becomes what was asked for, or stays as it was. */
    method WifiMode(station: Wish, ap: Wish, d: Driver) returns (ok: bool)
      modifies `mode, `wifiStarted
      ensures View().StationUp() == if ok then station.Or(old(View().StationUp())) else old(View().StationUp())
      ensures View().ApUp() == if ok then ap.Or(old(View().ApUp())) else old(View().ApUp())
      ensures (View(), ok) == ChangeMode(old(View()), station, ap, d)
    {
      ChangeIsAtomic(View(), station, ap, d);
      var currentMode := NoMode;
      if wifiStarted {
        if !d.getMode { return false; }
        currentMode := mode;
      }
      var setStation := station.Or(currentMode.HasStation());
      var setAp := ap.Or(currentMode.HasAp());
      var setMode :=
        if setStation && setAp then Both
        else if setStation && !setAp then StationOnly
        else if !setStation && setAp then ApOnly
        else NoMode;
      if currentMode == setMode { return true; }
      if setMode == NoMode && wifiStarted {
        if !d.stop { return false; }
        wifiStarted := false;
        return true;
      }
      if !d.setMode { return false; }
      mode := setMode;
      if setMode != NoMode && !wifiStarted {
        if !d.start { return false; }
        wifiStarted := true;
      }
      return true;
    }

    method UseStation(d: Driver)
      modifies `mode, `wifiStarted
      ensures Valid() == old(Valid()) && View().ApUp() == old(View().ApUp())
      ensures View() == Act(old(View()), Action.UseStation(d))
    {
      var _ := WifiMode(Set(true), Keep, d);
    }

    method RestartAdapter(d: Driver)
      modifies `mode, `wifiStarted
      ensures Valid() == old(Valid()) && View().ApUp() == old(View().ApUp())
      ensures View() == Act(old(View()), Action.RestartAdapter(d))
    {
      var _ := WifiMode(Set(false), Keep, d);
    }

    /** Brings the access point up once; `configured` is the outcome of the driver calls after the mode change. */
    method SetupAp(first: Driver, second: Driver, configured: bool)
      modifies this
      ensures old(Valid()) ==> Valid()
      ensures old(View().ApUp()) ==> View().ApUp()
      ensures View() == ApStarted(old(View()), first, second, configured)
    {
      var _ := WifiMode(Keep, Set(true), first);
      if apSetup { return; }
      var ok := WifiMode(Keep, Set(true), second);
      apSetup := ok && configured;
    }

    /** The part of the main loop that starts the access point; one that was lost stays lost. */
    method FallbackAp(closed: bool, first: Driver, second: Driver, configured: bool)
      modifies this
      ensures Valid() == old(Valid())
      ensures old(View().ApUp()) ==> View().ApUp()
      ensures View() == Act(old(View()), Action.FallbackAp(closed, first, second, configured))
    {
      if apSetup || closed { return; }
      SetupAp(first, second, configured);
    }

    method Disable(d: Driver)
      modifies `mode, `wifiStarted
      ensures View().ApUp() == (old(View().ApUp()) && !(d.getMode && d.stop))
      ensures View() == Act(old(View()), Action.Disable(d))
    {
      var _ := WifiMode(Set(false), Set(false), d);
    }

    method CloseProvisioning(d: Driver)
      modifies `mode, `wifiStarted
      ensures View().ApUp() == (old(View().ApUp()) && !SwitchesOff(old(View()), ProvisioningCloses(d)))
      ensures View() == Act(old(View()), ProvisioningCloses(d))
    {
      if !apSetup { return; }
      var _ := WifiMode(Keep, Set(false), d);
    }
  }
}
