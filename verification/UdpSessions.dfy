/** The proxy's table of clients, and the history of activity it stands for. */
module UdpSessions {
  import opened Millis

  const CLEANUP_INTERVAL: nat := 5000
  const START_RETRY_MIN: nat := 5000
  const START_RETRY_MAX: nat := 60000

  type Address = a: int | 0 <= a < 0x1_0000_0000

  type Port = p: int | 0 <= p < 0x1_0000

  datatype Client = Client(ip: Address, port: Port)

  datatype Session = Session(client: Client, lastActivity: Reading)

  /** A 64-bit key. */
  type PackedKey = k: int | 0 <= k < 0x1_0000_0000_0000_0000

  type Table = map<PackedKey, Session>

  /** The address shifted left by sixteen bits, with the port in the bits that became free. */
  function Key(c: Client): PackedKey { c.ip * 0x1_0000 + c.port }

  lemma KeyIsInjective(a: Client, b: Client)
    ensures Key(a) == Key(b) <==> a == b
  {
    assert Key(a) % 0x1_0000 == a.port && Key(b) % 0x1_0000 == b.port;
  }

  /**
   * `now`, `cleanedAt` and `history` are true times and do not exist in the program: `history` is when each client
   * last sent a request or was last sent an answer.
   */
  datatype State = State(
    sessions: Table,
    lastCleanup: Reading,
    passStart: nat,
    history: map<Client, nat>,
    now: nat,
    cleanedAt: nat)

  datatype Event =
    | BeginPass(elapsed: nat)
    /** A request arrived; the ones from the meter's own side are ignored. */
    | Request(client: Client, fromMeterSide: bool, elapsed: nat)
    /** An answer arrived and was sent to all clients, which failed for some. */
    | Answer(accepted: bool, failed: set<Client>, elapsed: nat)
    | EndPass(elapsed: nat)

  predicate Expired(s: Session, now: Reading, timeout: nat) { Elapsed(now, s.lastActivity) > timeout }

  function Renewed(table: Table, failed: set<Client>, now: Reading): Table {
    map k | k in table :: if table[k].client in failed then table[k] else table[k].(lastActivity := now)
  }

  function Unexpired(table: Table, now: Reading, timeout: nat): Table {
    map k | k in table && !Expired(table[k], now, timeout) :: table[k]
  }

  /** The clients an answer is delivered to. */
  ghost predicate Delivered(table: Table, failed: set<Client>, c: Client) {
    c !in failed && exists k :: k in table && table[k].client == c
  }

  ghost function Answered(history: map<Client, nat>, table: Table, failed: set<Client>, now: nat): map<Client, nat> {
    map c | c in history :: if Delivered(table, failed, c) then now else history[c]
  }

  ghost function Step(timeout: nat, s: State, ev: Event): State {
    var now := s.now + ev.elapsed;
    var t := s.(now := now);
    match ev
    case BeginPass(_) => t.(passStart := now)
    case Request(c, fromMeterSide, _) =>
      if fromMeterSide then t
      else t.(sessions := s.sessions[Key(c) := Session(c, Shown(now))], history := s.history[c := now])
    case Answer(accepted, failed, _) =>
      if !accepted || s.sessions == map[] then t
      else t.(sessions := Renewed(s.sessions, failed, Shown(now)),
              history := Answered(s.history, s.sessions, failed, now))
    case EndPass(_) =>
      if Elapsed(Shown(s.passStart), s.lastCleanup) > CLEANUP_INTERVAL then
        t.(sessions := Unexpired(s.sessions, Shown(now), timeout), lastCleanup := Shown(s.passStart), cleanedAt := now)
      else t
  }

  predicate Cleans(s: State, ev: Event) {
    ev.EndPass? && Elapsed(Shown(s.passStart), s.lastCleanup) > 5000
  }

  const START := State(map[], 0, 0, map[], 0, 0)

  // ---- The table refines the history ----

  predicate InTable(s: State, c: Client) { Key(c) in s.sessions && s.sessions[Key(c)].client == c }

  predicate FiledRight(s: State, k: PackedKey)
    requires k in s.sessions
  {
    var e := s.sessions[k];
    && k == Key(e.client) && e.client in s.history
    && e.lastActivity == Shown(s.history[e.client])
  }

  /** A client missing from the table was idle for too long at the last cleanup; one in it was not. */
  predicate Agrees(timeout: nat, s: State, c: Client)
    requires c in s.history
  {
    && s.history[c] <= s.now
    && (InTable(s, c) <==> s.history[c] + timeout >= s.cleanedAt)
  }

  ghost predicate Refines(timeout: nat, s: State) {
    && s.cleanedAt <= s.now
    && (forall k :: k in s.sessions ==> FiledRight(s, k))
    && (forall c :: c in s.history ==> Agrees(timeout, s, c))
  }

  /** Cleanups are close enough for the ages of all sessions to stay below 2^32 ms. */
  predicate Timely(timeout: nat, s: State, ev: Event) {
    Cleans(s, ev) ==> s.now + ev.elapsed - s.cleanedAt + timeout < WRAP
  }

  lemma ExpiryIsTrue(timeout: nat, s: State, k: PackedKey, now: nat)
    requires k in s.sessions && FiledRight(s, k) && Agrees(timeout, s, s.sessions[k].client)
    requires s.now <= now && now - s.cleanedAt + timeout < WRAP
    ensures Expired(s.sessions[k], Shown(now), timeout) <==> s.history[s.sessions[k].client] + timeout < now
  {
    var last := s.history[s.sessions[k].client];
    assert InTable(s, s.sessions[k].client);
    ElapsedIsTrue(now, last);
  }

  lemma RequestRefines(timeout: nat, s: State, c: Client, elapsed: nat)
    requires Refines(timeout, s)
    ensures Refines(timeout, Step(timeout, s, Request(c, false, elapsed)))
  {
    var t := Step(timeout, s, Request(c, false, elapsed));
    forall k | k in t.sessions ensures FiledRight(t, k) {
      if k != Key(c) { assert FiledRight(s, k); }
    }
    forall d | d in t.history ensures Agrees(timeout, t, d) {
      if d != c {
        assert Agrees(timeout, s, d);
        if Key(d) == Key(c) { KeyIsInjective(d, c); }
      }
    }
  }

  lemma DeliveredIffInTable(s: State, failed: set<Client>, c: Client)
    requires forall k :: k in s.sessions ==> FiledRight(s, k)
    ensures Delivered(s.sessions, failed, c) <==> c !in failed && InTable(s, c)
  {
    if k :| k in s.sessions && s.sessions[k].client == c { assert FiledRight(s, k); }
  }

  lemma AnswerRefines(timeout: nat, s: State, failed: set<Client>, elapsed: nat)
    requires Refines(timeout, s)
    ensures Refines(timeout, Step(timeout, s, Answer(true, failed, elapsed)))
  {
    var t := Step(timeout, s, Answer(true, failed, elapsed));
    forall k | k in t.sessions ensures FiledRight(t, k) {
      assert FiledRight(s, k);
      DeliveredIffInTable(s, failed, s.sessions[k].client);
    }
    forall c | c in t.history ensures Agrees(timeout, t, c) {
      assert Agrees(timeout, s, c);
      DeliveredIffInTable(s, failed, c);
    }
  }

  lemma CleanupRefines(timeout: nat, s: State, elapsed: nat)
    requires Refines(timeout, s) && Cleans(s, EndPass(elapsed)) && Timely(timeout, s, EndPass(elapsed))
    ensures Refines(timeout, Step(timeout, s, EndPass(elapsed)))
  {
    var t := Step(timeout, s, EndPass(elapsed));
    forall k | k in t.sessions ensures FiledRight(t, k) {
      assert FiledRight(s, k);
    }
    forall c | c in t.history ensures Agrees(timeout, t, c) {
      assert Agrees(timeout, s, c);
      if InTable(s, c) {
        assert FiledRight(s, Key(c));
        ExpiryIsTrue(timeout, s, Key(c), t.now);
      }
    }
  }

  lemma TimeRefines(timeout: nat, s: State, t: State)
    requires Refines(timeout, s) && t == s.(now := t.now, passStart := t.passStart) && s.now <= t.now
    ensures Refines(timeout, t)
  {
    forall k | k in t.sessions ensures FiledRight(t, k) { assert FiledRight(s, k); }
    forall c | c in t.history ensures Agrees(timeout, t, c) { assert Agrees(timeout, s, c); }
  }

  lemma StepRefines(timeout: nat, s: State, ev: Event)
    requires Refines(timeout, s) && Timely(timeout, s, ev)
    ensures Refines(timeout, Step(timeout, s, ev))
  {
    if ev.Request? && !ev.fromMeterSide {
      RequestRefines(timeout, s, ev.client, ev.elapsed);
    } else if ev.Answer? && ev.accepted && s.sessions != map[] {
      AnswerRefines(timeout, s, ev.failed, ev.elapsed);
    } else if Cleans(s, ev) {
      CleanupRefines(timeout, s, ev.elapsed);
    } else {
      TimeRefines(timeout, s, Step(timeout, s, ev));
    }
  }

  ghost function Run(timeout: nat, evs: seq<Event>): State {
    if evs == [] then START else Step(timeout, Run(timeout, evs[..|evs| - 1]), evs[|evs| - 1])
  }

  ghost predicate TimelyRun(timeout: nat, evs: seq<Event>) {
    forall i :: 0 <= i < |evs| ==> Timely(timeout, Run(timeout, evs[..i]), evs[i])
  }

  lemma {:induction false} RunRefines(timeout: nat, evs: seq<Event>)
    requires TimelyRun(timeout, evs)
    ensures Refines(timeout, Run(timeout, evs))
  {
    if evs != [] {
      var front, ev := evs[..|evs| - 1], evs[|evs| - 1];
      assert forall i :: 0 <= i < |front| ==> front[..i] == evs[..i] && front[i] == evs[i];
      RunRefines(timeout, front);
      StepRefines(timeout, Run(timeout, front), ev);
    }
  }

  /** The table holds exactly the clients whose last activity is at most the session timeout old. */
  ghost predicate IsRecent(timeout: nat, s: State) {
    forall c :: InTable(s, c) <==> c in s.history && s.now - s.history[c] <= timeout
  }

  lemma CleanIsRecent(timeout: nat, s: State, elapsed: nat)
    requires Refines(timeout, s) && Timely(timeout, s, EndPass(elapsed))
    ensures Cleans(s, EndPass(elapsed)) ==> IsRecent(timeout, Step(timeout, s, EndPass(elapsed)))
  {
    var t := Step(timeout, s, EndPass(elapsed));
    StepRefines(timeout, s, EndPass(elapsed));
    if Cleans(s, EndPass(elapsed)) {
      forall c ensures InTable(t, c) <==> c in t.history && t.now - t.history[c] <= timeout {
        if InTable(t, c) { assert FiledRight(t, Key(c)); }
        if c in t.history { assert Agrees(timeout, t, c); }
      }
    }
  }

  /**
   * After every cleanup the table holds exactly the clients whose last request or last delivered answer is at most
   * the session timeout old, whatever the clock wrapped in between.
   */
  lemma CleanTableIsRecentHistory(timeout: nat, evs: seq<Event>, c: Client)
    requires evs != [] && TimelyRun(timeout, evs)
    requires Cleans(Run(timeout, evs[..|evs| - 1]), evs[|evs| - 1])
    ensures
      var s := Run(timeout, evs);
      InTable(s, c) <==> c in s.history && s.now - s.history[c] <= timeout
  {
    var front, ev := evs[..|evs| - 1], evs[|evs| - 1];
    assert forall i :: 0 <= i < |front| ==> front[..i] == evs[..i] && front[i] == evs[i];
    RunRefines(timeout, front);
    CleanIsRecent(timeout, Run(timeout, front), ev.elapsed);
  }

  /** At any time no recent client is missing, and no client is kept that was idle too long at the last cleanup. */
  lemma TableBetweenCleanups(timeout: nat, evs: seq<Event>, c: Client)
    requires TimelyRun(timeout, evs)
    ensures
      var s := Run(timeout, evs);
      && (c in s.history && s.now - s.history[c] <= timeout ==> InTable(s, c))
      && (InTable(s, c) ==> c in s.history && s.history[c] + timeout >= s.cleanedAt)
  {
    RunRefines(timeout, evs);
    var s := Run(timeout, evs);
    if InTable(s, c) { assert FiledRight(s, Key(c)); }
    if c in s.history { assert Agrees(timeout, s, c); }
  }

  // ---- Starting again ----

  function NextDelay(delay: nat, works: bool): nat {
    if works then START_RETRY_MIN
    else if delay * 2 < START_RETRY_MAX then delay * 2
    else START_RETRY_MAX
  }

  function DelayAfter(failures: nat): nat {
    if failures == 0 then START_RETRY_MIN else NextDelay(DelayAfter(failures - 1), false)
  }

  function Power(n: nat): nat { if n == 0 then 1 else 2 * Power(n - 1) }

  /** The delay doubles with every failure in a row up to a minute. */
  lemma {:induction false} DelayDoubles(failures: nat)
    ensures DelayAfter(failures) ==
            if 5000 * Power(failures) < 60000 then 5000 * Power(failures) else 60000
  {
    if failures > 0 {
      DelayDoubles(failures - 1);
    }
  }

  // ---- In place ----

  /** A delay that looks over is truly over, and it looks over as soon as it is, unless the clock wrapped meanwhile. */
  lemma OverIsTrue(now: nat, then_: nat, delay: nat)
    requires then_ <= now
    ensures Elapsed(Shown(now), Shown(then_)) >= delay ==> now - then_ >= delay
    ensures delay <= now - then_ < WRAP ==> Elapsed(Shown(now), Shown(then_)) >= delay
  {
    if now < then_ + WRAP {
      ElapsedIsTrue(now, then_);
    }
  }

  lemma AnswerRenews(timeout: nat, s: State, accepted: bool, failed: set<Client>, elapsed: nat, now: Reading)
    requires now == Shown(s.now + elapsed)
    ensures
      var t := Step(timeout, s, Answer(accepted, failed, elapsed));
      && t == s.(now := t.now, history := t.history, sessions := t.sessions) && t.now == s.now + elapsed
      && t.sessions == if accepted && s.sessions != map[] then Renewed(s.sessions, failed, now) else s.sessions
  {
  }

  /** The proxy's fields, with ghosts for what only the outside knows: true times, and the history of activity. */
  class UdpProxy {
    const sessionTimeout: nat
    var sessions: Table
    var lastCleanup: Reading
    var passStart: Reading
    var active: bool
    var lastStartAttempt: Reading
    var startRetryDelay: nat

    /** All cleanups so far came in time. */
    ghost var timely: bool
    ghost var trueNow: nat
    ghost var passBegan: nat
    ghost var cleanedAt: nat
    ghost var history: map<Client, nat>
    ghost var attemptedAt: nat
    ghost var failures: nat

    ghost function View(): State
      reads this
    {
      State(sessions, lastCleanup, passBegan, history, trueNow, cleanedAt)
    }

    /** The readings are those of the true times, and the delay is the one that the failures in a row ask for. */
    ghost predicate Paced()
      reads this
    {
      && passStart == Shown(passBegan)
      && attemptedAt <= trueNow && lastStartAttempt == Shown(attemptedAt)
      && startRetryDelay == DelayAfter(failures)
    }

    /** The table refines the history, as long as cleanups come in time. */
    ghost predicate Valid()
      reads this
    {
      Paced() && (timely ==> Refines(sessionTimeout, View()))
    }

    constructor (sessionTimeout: nat)
      ensures this.sessionTimeout == sessionTimeout && Valid() && View() == START && !active && timely
    {
      this.sessionTimeout, timely := sessionTimeout, true;
      sessions, lastCleanup, passStart, active, lastStartAttempt := map[], 0, 0, false, 0;
      startRetryDelay := START_RETRY_MIN;
      trueNow, passBegan, cleanedAt, history, attemptedAt, failures := 0, 0, 0, map[], 0, 0;
    }

    /** A pass of the main loop reads the clock. */
    method BeginPass(now: Reading, ghost elapsed: nat)
      requires Valid() && now == Shown(trueNow + elapsed)
      modifies `passStart, `passBegan, `trueNow
      ensures Valid() && View() == Step(sessionTimeout, old(View()), Event.BeginPass(elapsed))
    {
      if timely { StepRefines(sessionTimeout, View(), Event.BeginPass(elapsed)); }
      passStart := now;
      trueNow := trueNow + elapsed;
      passBegan := trueNow;
    }

    /** A client of the right side is in the table from its request on. */
    method ProcessRequest(client: Client, fromMeterSide: bool, now: Reading, ghost elapsed: nat)
      requires Valid() && now == Shown(trueNow + elapsed)
      modifies `sessions, `history, `trueNow
      ensures Valid() && (!fromMeterSide ==> InTable(View(), client) && client in history && history[client] == trueNow)
      ensures View() == Step(sessionTimeout, old(View()), Request(client, fromMeterSide, elapsed))
    {
      if timely { StepRefines(sessionTimeout, View(), Request(client, fromMeterSide, elapsed)); }
      trueNow := trueNow + elapsed;
      if fromMeterSide { return; }
      sessions := sessions[Key(client) := Session(client, now)];
      history := history[client := trueNow];
    }

    /** Sends an answer to every client and notes the activity of those it reached. */
    method RenewSessions(failed: set<Client>, now: Reading)
      modifies `sessions
      ensures sessions == Renewed(old(sessions), failed, now)
    {
      var keys := sessions.Keys;
      while keys != {}
        invariant keys <= sessions.Keys == old(sessions).Keys
        invariant forall k :: k in sessions ==>
                    sessions[k] == if k in keys then old(sessions)[k] else Renewed(old(sessions), failed, now)[k]
      {
        var k :| k in keys;
        if sessions[k].client !in failed {
          sessions := sessions[k := sessions[k].(lastActivity := now)];
        }
        keys := keys - {k};
      }
    }

    method ProcessResponse(accepted: bool, failed: set<Client>, now: Reading, ghost elapsed: nat)
      requires Valid() && now == Shown(trueNow + elapsed)
      modifies `sessions, `history, `trueNow
      ensures Valid()
      ensures View() == Step(sessionTimeout, old(View()), Answer(accepted, failed, elapsed))
    {
      ghost var next := Step(sessionTimeout, View(), Answer(accepted, failed, elapsed));
      if timely { StepRefines(sessionTimeout, View(), Answer(accepted, failed, elapsed)); }
      AnswerRenews(sessionTimeout, View(), accepted, failed, elapsed, now);
      trueNow, history := next.now, next.history;
      if accepted && sessions != map[] {
        RenewSessions(failed, now);
      }
      assert View() == next;
    }

    /** Walks the table and erases what has expired. */
    method CleanupExpiredSessions(now: Reading)
      modifies `sessions
      ensures sessions == Unexpired(old(sessions), now, sessionTimeout)
    {
      var keys := sessions.Keys;
      while keys != {}
        invariant keys <= sessions.Keys <= old(sessions).Keys
        invariant forall k :: k in sessions ==> sessions[k] == old(sessions)[k]
        invariant forall k :: k in old(sessions) && k !in keys ==>
                    (k in sessions <==> !Expired(old(sessions)[k], now, sessionTimeout))
      {
        var k :| k in keys;
        if Elapsed(now, sessions[k].lastActivity) > sessionTimeout {
          sessions := sessions - {k};
        }
        keys := keys - {k};
      }
    }

    /** The end of a pass: after a cleanup in time the table is the recent history. */
    method EndPass(now: Reading, ghost elapsed: nat)
      requires Valid() && now == Shown(trueNow + elapsed)
      modifies `sessions, `lastCleanup, `cleanedAt, `trueNow, `timely
      ensures Valid() && View() == Step(sessionTimeout, old(View()), Event.EndPass(elapsed))
      ensures timely == (old(timely) && old(Timely(sessionTimeout, View(), Event.EndPass(elapsed))))
      ensures timely && old(Cleans(View(), Event.EndPass(elapsed))) ==> IsRecent(sessionTimeout, View())
    {
      ghost var next := Step(sessionTimeout, View(), Event.EndPass(elapsed));
      timely := timely && Timely(sessionTimeout, View(), Event.EndPass(elapsed));
      if timely {
        StepRefines(sessionTimeout, View(), Event.EndPass(elapsed));
        CleanIsRecent(sessionTimeout, View(), elapsed);
      }
      trueNow, cleanedAt := next.now, next.cleanedAt;
      if Elapsed(passStart, lastCleanup) > CLEANUP_INTERVAL {
        CleanupExpiredSessions(now);
        lastCleanup := passStart;
      }
      assert View() == next;
    }

    /**
     * Tries to start again once the delay is over; `works` is the outcome of binding the sockets. Attempts are truly
     * that far apart, however often the clock wrapped, and one is made as soon as the delay is over, unless the clock
     * wrapped in between.
     */
    method RetryStart(now: Reading, works: bool, ghost elapsed: nat) returns (ghost tried: bool)
      requires Valid() && !active && now == Shown(trueNow + elapsed)
      modifies `active, `lastStartAttempt, `startRetryDelay, `attemptedAt, `failures, `trueNow
      ensures Valid() && trueNow == old(trueNow) + elapsed
      ensures tried ==> trueNow - old(attemptedAt) >= DelayAfter(old(failures))
      ensures DelayAfter(old(failures)) <= trueNow - old(attemptedAt) < WRAP ==> tried
      ensures attemptedAt == if tried then trueNow else old(attemptedAt)
      ensures active == (tried && works)
      ensures failures == if active then 0 else if tried then old(failures) + 1 else old(failures)
    {
      ghost var next := View().(now := trueNow + elapsed);
      OverIsTrue(next.now, attemptedAt, startRetryDelay);
      if timely { TimeRefines(sessionTimeout, View(), next); }
      trueNow := next.now;
      assert View() == next;
      tried := Elapsed(now, lastStartAttempt) >= startRetryDelay;
      if Elapsed(now, lastStartAttempt) < startRetryDelay { return; }
      lastStartAttempt := now;
      attemptedAt := trueNow;
      active := works;
      if active {
        startRetryDelay := START_RETRY_MIN;
        failures := 0;
      } else {
        startRetryDelay := if startRetryDelay * 2 < START_RETRY_MAX then startRetryDelay * 2 else START_RETRY_MAX;
        failures := failures + 1;
      }
      assert View() == next;
    }
  }
}
