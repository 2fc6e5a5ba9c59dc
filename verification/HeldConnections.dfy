/** Accepted connections: each is served, perhaps held open for a while, and closed exactly once. */
module HeldConnections {
  import opened Millis

  /** `closeAt` is what the program stores; `deadline` is the true time it stands for. */
  datatype Held = Held(conn: nat, closeAt: Reading, deadline: nat)

  datatype Why =
    /** it failed before an answer, or connections are not held */
    | Finished
    /** its time was up */
    | Due
    /** the budget was reached and it was the oldest */
    | Evicted

  datatype Closing = Closing(conn: nat, why: Why, at: nat, deadline: nat)

  datatype Phase = Waiting | Accepted(conn: nat) | Serving(conn: nat)

  /** Connections are numbered as they are accepted; the log and the times are history. */
  datatype State = State(
    phase: Phase,
    held: seq<Held>,
    next: nat,
    log: seq<Closing>,
    now: nat,
    lastReap: nat)

  datatype Config = Config(maxConnections: nat, holdTime: nat) {
    predicate Valid() { maxConnections >= 1 && holdTime <= WRAP / 2 }
  }

  datatype Event =
    | AcceptOne
    | MakeRoom
    /** the exchange is over, `elapsed` after the event before */
    | Finish(answered: bool, elapsed: nat)
    | Reap(elapsed: nat)

  /** The comparison the program makes. */
  predicate IsDue(h: Held, now: Reading) { Signed(Elapsed(now, h.closeAt)) >= 0 }

  function Kept(held: seq<Held>, now: Reading): seq<Held> {
    if held == [] then []
    else (if IsDue(held[0], now) then [] else [held[0]]) + Kept(held[1..], now)
  }

  function ClosedOf(held: seq<Held>, now: Reading, at: nat): seq<Closing> {
    if held == [] then []
    else (if IsDue(held[0], now) then [Closing(held[0].conn, Due, at, held[0].deadline)] else []) +
         ClosedOf(held[1..], now, at)
  }

  function Step(cfg: Config, s: State, ev: Event): State {
    match ev
    case AcceptOne =>
      if s.phase != Waiting then s else s.(phase := Accepted(s.next), next := s.next + 1)
    case MakeRoom =>
      if !s.phase.Accepted? then s
      else
        var t := s.(phase := Serving(s.phase.conn));
        if |s.held| >= cfg.maxConnections && s.held != [] then
          t.(held := s.held[1..], log := s.log + [Closing(s.held[0].conn, Evicted, s.now, s.held[0].deadline)])
        else t
    case Finish(answered, elapsed) =>
      if !s.phase.Serving? then s
      else
        var t := s.(phase := Waiting, now := s.now + elapsed);
        if answered && cfg.holdTime != 0 then
          t.(held := s.held + [Held(s.phase.conn, (Shown(t.now) + cfg.holdTime) % WRAP, t.now + cfg.holdTime)])
        else t.(log := s.log + [Closing(s.phase.conn, Finished, t.now, t.now)])
    case Reap(elapsed) =>
      if s.phase != Waiting then s
      else
        var now := s.now + elapsed;
        s.(held := Kept(s.held, Shown(now)), log := s.log + ClosedOf(s.held, Shown(now), now), now := now, lastReap := now)
  }

  const START := State(Waiting, [], 0, [], 0, 0)

  // ---- The list as the program has it ----

  datatype HeldConnection = HeldConnection(fd: nat, closeAt: Reading)

  ghost function HeldView(held: seq<HeldConnection>, deadlines: seq<nat>): (v: seq<Held>)
    requires |held| == |deadlines|
    ensures |v| == |held|
  {
    seq(|held|, i requires 0 <= i < |held| => Held(held[i].fd, held[i].closeAt, deadlines[i]))
  }

  lemma DeadlinesOf(held: seq<HeldConnection>, deadlines: seq<nat>, at: nat)
    requires |held| == |deadlines|
    ensures NoneOverdue(HeldView(held, deadlines), at) <==> forall i :: 0 <= i < |deadlines| ==> deadlines[i] > at
  {
    assert forall i :: 0 <= i < |deadlines| ==> HeldView(held, deadlines)[i].deadline == deadlines[i];
  }

  lemma ViewSplits(held: seq<HeldConnection>, deadlines: seq<nat>, i: nat)
    requires |held| == |deadlines| && i < |held|
    ensures
      var h := Held(held[i].fd, held[i].closeAt, deadlines[i]);
      && HeldView(held[i..], deadlines[i..]) == [h] + HeldView(held[i + 1..], deadlines[i + 1..])
      && HeldView(held[..i + 1], deadlines[..i + 1]) == HeldView(held[..i], deadlines[..i]) + [h]
  {
  }

  lemma ViewDrops(held: seq<HeldConnection>, deadlines: seq<nat>, i: nat)
    requires |held| == |deadlines| && i < |held|
    ensures
      var held', deadlines' := held[..i] + held[i + 1..], deadlines[..i] + deadlines[i + 1..];
      && held'[..i] == held[..i] && deadlines'[..i] == deadlines[..i]
      && held'[i..] == held[i + 1..] && deadlines'[i..] == deadlines[i + 1..]
  {
  }

  /** The sweep of `before` has come to position `i` of what is left of it. */
  ghost predicate SweptUpTo(before: seq<Held>, held: seq<HeldConnection>, deadlines: seq<nat>, i: nat,
                            closed: seq<Closing>, reading: Reading, at: nat) {
    && |held| == |deadlines| && i <= |held|
    && Kept(before, reading) ==
       HeldView(held[..i], deadlines[..i]) + Kept(HeldView(held[i..], deadlines[i..]), reading)
    && ClosedOf(before, reading, at) == closed + ClosedOf(HeldView(held[i..], deadlines[i..]), reading, at)
  }

  lemma SweepOne(before: seq<Held>, held: seq<HeldConnection>, deadlines: seq<nat>, i: nat,
                 closed: seq<Closing>, reading: Reading, at: nat)
    requires SweptUpTo(before, held, deadlines, i, closed, reading, at) && i < |held|
    ensures
      var h := Held(held[i].fd, held[i].closeAt, deadlines[i]);
      if !IsDue(h, reading) then SweptUpTo(before, held, deadlines, i + 1, closed, reading, at)
      else SweptUpTo(before, held[..i] + held[i + 1..], deadlines[..i] + deadlines[i + 1..], i,
                     closed + [Closing(h.conn, Due, at, h.deadline)], reading, at)
  {
    ViewSplits(held, deadlines, i);
    ViewDrops(held, deadlines, i);
  }

  lemma SweptAll(before: seq<Held>, held: seq<HeldConnection>, deadlines: seq<nat>, closed: seq<Closing>,
                 reading: Reading, at: nat)
    requires SweptUpTo(before, held, deadlines, |held|, closed, reading, at)
    ensures Kept(before, reading) == HeldView(held, deadlines) && ClosedOf(before, reading, at) == closed
  {
    assert held[..|held|] == held && deadlines[..|held|] == deadlines;
    assert HeldView(held[|held|..], deadlines[|held|..]) == [];
  }

  lemma ViewTail(held: seq<HeldConnection>, deadlines: seq<nat>)
    requires |held| == |deadlines| && held != []
    ensures HeldView(held[1..], deadlines[1..]) == HeldView(held, deadlines)[1..]
  {
  }

  lemma ViewAppends(held: seq<HeldConnection>, deadlines: seq<nat>, h: HeldConnection, d: nat)
    requires |held| == |deadlines|
    ensures HeldView(held + [h], deadlines + [d]) == HeldView(held, deadlines) + [Held(h.fd, h.closeAt, d)]
  {
  }

  // ---- Conservation ----

  function CountHeld(held: seq<Held>, conn: nat): nat {
    if held == [] then 0 else (if held[0].conn == conn then 1 else 0) + CountHeld(held[1..], conn)
  }

  function CountLog(log: seq<Closing>, conn: nat): nat {
    if log == [] then 0 else CountLog(log[..|log| - 1], conn) + (if log[|log| - 1].conn == conn then 1 else 0)
  }

  /** In how many places a connection is: held, being served, or closed. */
  function Places(s: State, conn: nat): nat {
    CountHeld(s.held, conn) + CountLog(s.log, conn) +
    (if s.phase != Waiting && s.phase.conn == conn then 1 else 0)
  }

  lemma {:induction false} CountHeldAppend(a: seq<Held>, b: seq<Held>, conn: nat)
    ensures CountHeld(a + b, conn) == CountHeld(a, conn) + CountHeld(b, conn)
  {
    if a == [] {
      assert a + b == b;
    } else {
      assert (a + b)[1..] == a[1..] + b;
      CountHeldAppend(a[1..], b, conn);
    }
  }

  lemma {:induction false} CountLogAppend(a: seq<Closing>, b: seq<Closing>, conn: nat)
    ensures CountLog(a + b, conn) == CountLog(a, conn) + CountLog(b, conn)
  {
    if b == [] {
      assert a + b == a;
    } else {
      assert (a + b)[..|a + b| - 1] == a + b[..|b| - 1];
      CountLogAppend(a, b[..|b| - 1], conn);
    }
  }

  lemma CountOne(conn: nat, c: Closing, h: Held)
    ensures CountLog([c], conn) == (if c.conn == conn then 1 else 0)
    ensures CountHeld([h], conn) == (if h.conn == conn then 1 else 0)
  {
    assert [c][..0] == [];
  }

  /** What the sweep does not keep it closes, and the other way round. */
  lemma {:induction false} SweepConserves(held: seq<Held>, now: Reading, at: nat, conn: nat)
    ensures CountHeld(Kept(held, now), conn) + CountLog(ClosedOf(held, now, at), conn) == CountHeld(held, conn)
  {
    if held != [] {
      SweepConserves(held[1..], now, at, conn);
      var c := Closing(held[0].conn, Due, at, held[0].deadline);
      CountOne(conn, c, held[0]);
      if IsDue(held[0], now) {
        CountLogAppend([c], ClosedOf(held[1..], now, at), conn);
        assert Kept(held, now) == Kept(held[1..], now);
      } else {
        CountHeldAppend([held[0]], Kept(held[1..], now), conn);
        assert ClosedOf(held, now, at) == ClosedOf(held[1..], now, at);
      }
    }
  }

  lemma MakeRoomConserves(cfg: Config, s: State, conn: nat)
    ensures Places(Step(cfg, s, MakeRoom), conn) == Places(s, conn)
  {
    if s.phase.Accepted? && |s.held| >= cfg.maxConnections && s.held != [] {
      var c := Closing(s.held[0].conn, Evicted, s.now, s.held[0].deadline);
      CountOne(conn, c, s.held[0]);
      CountLogAppend(s.log, [c], conn);
    }
  }

  lemma FinishConserves(cfg: Config, s: State, answered: bool, elapsed: nat, conn: nat)
    ensures Places(Step(cfg, s, Finish(answered, elapsed)), conn) == Places(s, conn)
  {
    if s.phase.Serving? {
      var now := s.now + elapsed;
      var c := Closing(s.phase.conn, Finished, now, now);
      var h := Held(s.phase.conn, (Shown(now) + cfg.holdTime) % WRAP, now + cfg.holdTime);
      CountOne(conn, c, h);
      CountLogAppend(s.log, [c], conn);
      CountHeldAppend(s.held, [h], conn);
    }
  }

  lemma ReapConserves(cfg: Config, s: State, elapsed: nat, conn: nat)
    ensures Places(Step(cfg, s, Reap(elapsed)), conn) == Places(s, conn)
  {
    if s.phase == Waiting {
      var now := s.now + elapsed;
      SweepConserves(s.held, Shown(now), now, conn);
      CountLogAppend(s.log, ClosedOf(s.held, Shown(now), now), conn);
    }
  }

  lemma StepConserves(cfg: Config, s: State, ev: Event, conn: nat)
    requires Places(s, conn) == if conn < s.next then 1 else 0
    ensures Places(Step(cfg, s, ev), conn) == if conn < Step(cfg, s, ev).next then 1 else 0
  {
    match ev
    case AcceptOne =>
    case MakeRoom => MakeRoomConserves(cfg, s, conn);
    case Finish(answered, elapsed) => FinishConserves(cfg, s, answered, elapsed, conn);
    case Reap(elapsed) => ReapConserves(cfg, s, elapsed, conn);
  }

  function Run(cfg: Config, evs: seq<Event>): State {
    if evs == [] then START else Step(cfg, Run(cfg, evs[..|evs| - 1]), evs[|evs| - 1])
  }

  /** Every accepted connection is in exactly one place: held, being served, or closed once. */
  lemma {:induction false} EveryConnectionAccounted(cfg: Config, evs: seq<Event>, conn: nat)
    ensures Places(Run(cfg, evs), conn) == if conn < Run(cfg, evs).next then 1 else 0
  {
    if evs != [] {
      EveryConnectionAccounted(cfg, evs[..|evs| - 1], conn);
      StepConserves(cfg, Run(cfg, evs[..|evs| - 1]), evs[|evs| - 1], conn);
    }
  }

  // ---- Budget and deadlines ----

  function OpenSockets(s: State): nat { |s.held| + (if s.phase == Waiting then 0 else 1) }

  predicate Above(held: seq<Held>, conn: nat) { forall i :: 0 <= i < |held| ==> conn < held[i].conn }

  predicate Below(held: seq<Held>, conn: nat) { forall i :: 0 <= i < |held| ==> held[i].conn < conn }

  predicate OldestFirst(held: seq<Held>) {
    held == [] || (Above(held[1..], held[0].conn) && OldestFirst(held[1..]))
  }

  /** The stored deadline stands for a time after the last sweep and at most the hold time ahead. */
  predicate Timed(cfg: Config, h: Held, lastReap: nat, now: nat) {
    h.closeAt == Shown(h.deadline) && lastReap < h.deadline <= now + cfg.holdTime
  }

  predicate AllTimed(cfg: Config, held: seq<Held>, lastReap: nat, now: nat) {
    forall i :: 0 <= i < |held| ==> Timed(cfg, held[i], lastReap, now)
  }

  predicate InOrder(cfg: Config, s: State) {
    && OldestFirst(s.held)
    && Below(s.held, if s.phase == Waiting then s.next else s.phase.conn)
    && (s.phase != Waiting ==> s.phase.conn < s.next)
    && s.lastReap <= s.now
    && AllTimed(cfg, s.held, s.lastReap, s.now)
  }

  predicate WithinBudget(cfg: Config, s: State) {
    |s.held| <= cfg.maxConnections && (s.phase.Serving? ==> |s.held| < cfg.maxConnections)
  }

  /** Sweeps are less than 2^31 ms apart. */
  predicate Timely(s: State, ev: Event) { ev.Reap? ==> s.now + ev.elapsed - s.lastReap < WRAP / 2 }

  /** The program's comparison is right about the deadline. */
  lemma DueIsTrue(cfg: Config, h: Held, lastReap: nat, now: nat, at: nat)
    requires cfg.Valid() && Timed(cfg, h, lastReap, now) && lastReap <= now <= at && at - lastReap < WRAP / 2
    ensures IsDue(h, Shown(at)) <==> at >= h.deadline
  {
    SignedIsTrue(at, h.deadline);
  }

  lemma {:induction false} KeptStaysBetween(held: seq<Held>, now: Reading, low: nat, high: nat)
    ensures |Kept(held, now)| <= |held|
    ensures Above(held, low) ==> Above(Kept(held, now), low)
    ensures Below(held, high) ==> Below(Kept(held, now), high)
  {
    if held != [] {
      KeptStaysBetween(held[1..], now, low, high);
    }
  }

  lemma {:induction false} KeptStaysInOrder(held: seq<Held>, now: Reading)
    requires OldestFirst(held)
    ensures OldestFirst(Kept(held, now))
  {
    if held != [] {
      var rest := Kept(held[1..], now);
      KeptStaysInOrder(held[1..], now);
      KeptStaysBetween(held[1..], now, held[0].conn, 0);
      assert ([held[0]] + rest)[1..] == rest;
      assert Kept(held, now) == if IsDue(held[0], now) then rest else [held[0]] + rest;
    }
  }

  predicate AllDue(closed: seq<Closing>) {
    forall i :: 0 <= i < |closed| ==> closed[i].why == Due && closed[i].deadline <= closed[i].at
  }

  /** The sweep keeps exactly what is still before its deadline. */
  lemma {:induction false} SweepIsRight(cfg: Config, held: seq<Held>, lastReap: nat, now: nat, at: nat)
    requires cfg.Valid() && lastReap <= now <= at && at - lastReap < WRAP / 2 && AllTimed(cfg, held, lastReap, now)
    ensures AllTimed(cfg, Kept(held, Shown(at)), at, at) && AllDue(ClosedOf(held, Shown(at), at))
  {
    if held != [] {
      var h, reading := held[0], Shown(at);
      assert Timed(cfg, h, lastReap, now);
      DueIsTrue(cfg, h, lastReap, now, at);
      SweepIsRight(cfg, held[1..], lastReap, now, at);
      if IsDue(h, reading) {
        assert Kept(held, reading) == Kept(held[1..], reading);
      } else {
        assert ClosedOf(held, reading, at) == ClosedOf(held[1..], reading, at);
        assert Timed(cfg, h, at, at);
      }
    }
  }

  lemma {:induction false} NewestLast(held: seq<Held>, h: Held)
    requires OldestFirst(held) && Below(held, h.conn)
    ensures OldestFirst(held + [h])
  {
    if held == [] {
      assert [h][1..] == [];
    } else {
      NewestLast(held[1..], h);
      assert (held + [h])[1..] == held[1..] + [h];
    }
  }

  lemma ShownAdds(t: nat, d: nat)
    requires d < WRAP
    ensures (Shown(t) + d) % WRAP == Shown(t + d)
  {
  }

  lemma FinishKeepsOrder(cfg: Config, s: State, answered: bool, elapsed: nat)
    requires cfg.Valid() && InOrder(cfg, s) && WithinBudget(cfg, s)
    ensures InOrder(cfg, Step(cfg, s, Finish(answered, elapsed)))
    ensures WithinBudget(cfg, Step(cfg, s, Finish(answered, elapsed)))
  {
    if s.phase.Serving? {
      var now := s.now + elapsed;
      var h := Held(s.phase.conn, (Shown(now) + cfg.holdTime) % WRAP, now + cfg.holdTime);
      ShownAdds(now, cfg.holdTime);
      NewestLast(s.held, h);
      assert cfg.holdTime != 0 ==> Timed(cfg, h, s.lastReap, now);
      assert AllTimed(cfg, s.held, s.lastReap, now);
    }
  }

  lemma ReapKeepsOrder(cfg: Config, s: State, elapsed: nat)
    requires cfg.Valid() && InOrder(cfg, s) && WithinBudget(cfg, s) && Timely(s, Reap(elapsed))
    ensures InOrder(cfg, Step(cfg, s, Reap(elapsed))) && WithinBudget(cfg, Step(cfg, s, Reap(elapsed)))
  {
    if s.phase == Waiting {
      SweepIsRight(cfg, s.held, s.lastReap, s.now, s.now + elapsed);
      KeptStaysInOrder(s.held, Shown(s.now + elapsed));
      KeptStaysBetween(s.held, Shown(s.now + elapsed), 0, s.next);
    }
  }

  lemma StepKeepsOrder(cfg: Config, s: State, ev: Event)
    requires cfg.Valid() && InOrder(cfg, s) && WithinBudget(cfg, s) && Timely(s, ev)
    ensures InOrder(cfg, Step(cfg, s, ev)) && WithinBudget(cfg, Step(cfg, s, ev))
  {
    match ev
    case AcceptOne =>
    case MakeRoom =>
    case Finish(answered, elapsed) => FinishKeepsOrder(cfg, s, answered, elapsed);
    case Reap(elapsed) => ReapKeepsOrder(cfg, s, elapsed);
  }

  /** A closing before the deadline is an eviction. */
  predicate Justified(c: Closing) { c.at < c.deadline ==> c.why == Evicted }

  /** The log grows by justified closings only. */
  predicate GrowsJustified(log: seq<Closing>, log': seq<Closing>) {
    && |log| <= |log'| && log'[..|log|] == log
    && forall i :: |log| <= i < |log'| ==> Justified(log'[i])
  }

  lemma StepJustifies(cfg: Config, s: State, ev: Event)
    requires cfg.Valid() && InOrder(cfg, s) && Timely(s, ev)
    ensures GrowsJustified(s.log, Step(cfg, s, ev).log)
  {
    if ev.Reap? && s.phase == Waiting {
      SweepIsRight(cfg, s.held, s.lastReap, s.now, s.now + ev.elapsed);
    }
  }

  predicate NoneOverdue(held: seq<Held>, at: nat) { forall i :: 0 <= i < |held| ==> held[i].deadline > at }

  lemma ReapInTime(cfg: Config, s: State, at: nat)
    requires cfg.Valid() && InOrder(cfg, s) && WithinBudget(cfg, s)
    requires s.phase == Waiting && at >= s.now && at - s.lastReap < WRAP / 2
    ensures
      var t := Step(cfg, s, Reap(at - s.now));
      InOrder(cfg, t) && WithinBudget(cfg, t) && GrowsJustified(s.log, t.log) && NoneOverdue(t.held, at)
  {
    StepKeepsOrder(cfg, s, Reap(at - s.now));
    StepJustifies(cfg, s, Reap(at - s.now));
    var t := Step(cfg, s, Reap(at - s.now));
    forall i | 0 <= i < |t.held| ensures t.held[i].deadline > at {
      assert Timed(cfg, t.held[i], at, at);
    }
  }

  /** Only the oldest held connection is evicted, and only with the budget used up. */
  lemma EvictsTheOldest(cfg: Config, s: State, ev: Event, i: nat)
    requires cfg.Valid() && InOrder(cfg, s) && WithinBudget(cfg, s) && Timely(s, ev)
    requires |s.log| <= i < |Step(cfg, s, ev).log| && Step(cfg, s, ev).log[i].why == Evicted
    ensures |s.held| == cfg.maxConnections && Step(cfg, s, ev).log[i].conn == s.held[0].conn
    ensures forall k :: 0 < k < |s.held| ==> s.held[0].conn < s.held[k].conn
  {
    if ev.Reap? && s.phase == Waiting {
      SweepIsRight(cfg, s.held, s.lastReap, s.now, s.now + ev.elapsed);
    }
    forall k | 0 < k < |s.held| ensures s.held[0].conn < s.held[k].conn {
      assert s.held[k] == s.held[1..][k - 1];
    }
  }

  lemma LongHoldWraps(at: nat, holdTime: nat)
    requires WRAP / 2 < holdTime < WRAP
    ensures Signed(Elapsed(Shown(at), Shown(at + holdTime))) == WRAP - holdTime
  {
    SignedIsTrue(at + WRAP, at + holdTime);
    ShownRepeats(at);
  }

  /**
   * The bound on the hold time is exact: a connection held for longer than 2^31 ms already looks due in the sweep
   * right after its answer.
   */
  lemma LongHoldsEndAtOnce(conn: nat, at: nat, holdTime: nat)
    requires holdTime < WRAP
    ensures IsDue(Held(conn, Shown(at + holdTime), at + holdTime), Shown(at)) <==>
            holdTime == 0 || holdTime > WRAP / 2
  {
    if 0 < holdTime <= WRAP / 2 {
      SignedIsTrue(at, at + holdTime);
    } else if holdTime == 0 {
      SignedIsTrue(at, at);
    } else {
      LongHoldWraps(at, holdTime);
    }
  }

  ghost predicate TimelyRun(cfg: Config, evs: seq<Event>) {
    forall i :: 0 <= i < |evs| ==> Timely(Run(cfg, evs[..i]), evs[i])
  }

  /**
   * On every run whose sweeps are close enough together: the budgets hold, no connection is closed before its
   * deadline unless it is evicted, and after a sweep none is held past its deadline, across wraps of the clock.
   */
  lemma {:induction false} HeldToTheDeadline(cfg: Config, evs: seq<Event>)
    requires cfg.Valid() && TimelyRun(cfg, evs)
    ensures
      var s := Run(cfg, evs);
      && InOrder(cfg, s) && WithinBudget(cfg, s)
      && |s.held| <= cfg.maxConnections && OpenSockets(s) <= cfg.maxConnections + 1
      && (forall i :: 0 <= i < |s.log| ==> Justified(s.log[i]))
      && (forall i :: 0 <= i < |s.held| ==> s.held[i].deadline > s.lastReap)
  {
    if evs != [] {
      var front, ev := evs[..|evs| - 1], evs[|evs| - 1];
      assert forall i :: 0 <= i < |front| ==> front[..i] == evs[..i] && front[i] == evs[i];
      HeldToTheDeadline(cfg, front);
      var s := Run(cfg, front);
      StepKeepsOrder(cfg, s, ev);
      StepJustifies(cfg, s, ev);
      var t := Step(cfg, s, ev);
      forall i | 0 <= i < |t.log| ensures Justified(t.log[i]) {
        if i < |s.log| { assert t.log[..|s.log|][i] == s.log[i]; }
      }
      forall i | 0 <= i < |t.held| ensures t.held[i].deadline > t.lastReap {
        assert Timed(cfg, t.held[i], t.lastReap, t.now);
      }
    }
  }

  // ---- In place ----

  class Connections {
    const cfg: Config
    var held: seq<HeldConnection>
    ghost var deadlines: seq<nat>
    ghost var log: seq<Closing>
    ghost var next: nat
    ghost var phase: Phase
    ghost var now: nat
    ghost var lastReap: nat
    /** The hold time is short enough, and all sweeps so far came in time. */
    ghost var timely: bool

    ghost predicate Shaped()
      reads this
    {
      |deadlines| == |held|
    }

    ghost function View(): State
      requires Shaped()
      reads this
    {
      State(phase, HeldView(held, deadlines), next, log, now, lastReap)
    }

    /** The list is in the order of the connections, their stored times are right, and the budget is kept. */
    ghost predicate Valid()
      reads this
    {
      Shaped() && cfg.maxConnections >= 1 && (timely ==> cfg.Valid() && InOrder(cfg, View()) && WithinBudget(cfg, View()))
    }

    constructor (cfg: Config)
      requires cfg.maxConnections >= 1
      ensures this.cfg == cfg && Valid() && View() == START && timely == (cfg.holdTime <= 0x8000_0000)
    {
      this.cfg, timely := cfg, cfg.Valid();
      held, deadlines, log, next, phase, now, lastReap := [], [], [], 0, Waiting, 0, 0;
    }

    /** A new connection; its number stands for its socket. */
    method Accept(fd: nat)
      requires Valid() && phase == Waiting && fd == next
      modifies `phase, `next
      ensures Valid() && phase == Accepted(fd) && View() == Step(cfg, old(View()), AcceptOne)
    {
      if timely { StepKeepsOrder(cfg, View(), AcceptOne); }
      phase, next := Accepted(fd), next + 1;
    }

    /** Walks the list, closes what is due and erases it on the way. */
    method SweepHeld(at: nat)
      requires Shaped()
      modifies `held, `deadlines, `log
      ensures Shaped()
      ensures HeldView(held, deadlines) == Kept(old(HeldView(held, deadlines)), Shown(at))
      ensures log == old(log) + ClosedOf(old(HeldView(held, deadlines)), Shown(at), at)
    {
      var i := 0;
      ghost var before, closed := HeldView(held, deadlines), [];
      var reading := Shown(at);
      while i < |held|
        invariant i <= |held| && Shaped() && log == old(log) + closed
        invariant SweptUpTo(before, held, deadlines, i, closed, reading, at)
        decreases |held| - i
      {
        SweepOne(before, held, deadlines, i, closed, reading, at);
        if Signed(Elapsed(reading, held[i].closeAt)) < 0 {
          i := i + 1;
        } else {
          closed := closed + [Closing(held[i].fd, Due, at, deadlines[i])];
          log := log + [Closing(held[i].fd, Due, at, deadlines[i])];
          held := held[..i] + held[i + 1..];
          deadlines := deadlines[..i] + deadlines[i + 1..];
        }
      }
      SweptAll(before, held, deadlines, closed, reading, at);
    }

    /** After a sweep in time none is held past its deadline, and none was closed before it. */
    method ReapHeld(at: nat)
      requires Valid() && phase == Waiting && at >= now
      modifies `held, `deadlines, `log, `now, `lastReap, `timely
      ensures Valid() && View() == Step(cfg, old(View()), Reap(at - old(now)))
      ensures timely == (old(timely) && at - old(lastReap) < WRAP / 2)
      ensures timely ==> GrowsJustified(old(log), log) && forall i :: 0 <= i < |deadlines| ==> deadlines[i] > at
    {
      ghost var before, after := View(), Step(cfg, View(), Reap(at - now));
      timely := timely && at - lastReap < WRAP / 2;
      if timely {
        ReapInTime(cfg, before, at);
      }
      SweepHeld(at);
      now, lastReap := at, at;
      assert View() == after;
      assert timely ==> NoneOverdue(View().held, at);
      DeadlinesOf(held, deadlines, at);
    }

    /** An accepted connection takes the place of the oldest held one if there is no room. */
    method EvictOldest()
      requires Valid() && phase.Accepted?
      modifies `held, `deadlines, `log, `phase
      ensures Valid() && (timely ==> |held| < cfg.maxConnections) && View() == Step(cfg, old(View()), MakeRoom)
    {
      if timely { StepKeepsOrder(cfg, View(), MakeRoom); }
      phase := Serving(phase.conn);
      if |held| >= cfg.maxConnections {
        log := log + [Closing(held[0].fd, Evicted, now, deadlines[0])];
        ViewTail(held, deadlines);
        held := held[1..];
        deadlines := deadlines[1..];
      }
    }

    /** Ends an exchange that was answered, or was given up at any earlier point. */
    method HoldOrClose(fd: nat, answered: bool, at: nat)
      requires Valid() && phase == Serving(fd) && at >= now
      modifies `held, `deadlines, `log, `phase, `now
      ensures Valid() && View() == Step(cfg, old(View()), Finish(answered, at - old(now)))
    {
      ghost var after := Step(cfg, View(), Finish(answered, at - now));
      if timely { StepKeepsOrder(cfg, View(), Finish(answered, at - now)); }
      phase, now := Waiting, at;
      if !answered || cfg.holdTime == 0 {
        log := log + [Closing(fd, Finished, at, at)];
        assert View() == after;
        return;
      }
      var connection := HeldConnection(fd, (Shown(at) + cfg.holdTime) % WRAP);
      ViewAppends(held, deadlines, connection, at + cfg.holdTime);
      held := held + [connection];
      deadlines := deadlines + [at + cfg.holdTime];
      assert View() == after;
    }
  }
}
