/**
 * The TLS task hands each request to the main loop and waits for the response, over two queues of length one that
 * carry pointers to the frame the request lives in. The steps of the two tasks interleave in any order.
 */
module Handoff {

  const QUEUE_LENGTH: nat := 1

  /** The stack frame that serves one connection; dead once the function has returned. */
  datatype Frame<Q, R> = Frame(request: Q, response: MaybeResponse<R>, alive: bool)

  datatype MaybeResponse<R> = Unanswered | Answered(response: R)

  datatype TlsPoint =
    /** no request at hand */
    | Idle
    /** about to put its frame into the request queue */
    | Sending
    /** waiting on the response queue */
    | Awaiting
    /** has taken this pointer out of the response queue */
    | Resumed(pointer: nat)

  datatype MainPoint =
    /** about to look into the request queue */
    | Polling
    /** about to dispatch the request of this frame */
    | Dispatching(pointer: nat)
    /** about to put it into the response queue */
    | Returning(pointer: nat)

  datatype State<Q, R> = State(
    tls: TlsPoint,
    main: MainPoint,
    requests: seq<nat>,
    responses: seq<nat>,
    frames: seq<Frame<Q, R>>)

  function Start<Q, R>(): State<Q, R> { State(Idle, Polling, [], [], []) }

  /** The task can take its next step: it does not block on a queue. */
  predicate TlsCanStep<Q, R>(s: State<Q, R>) {
    match s.tls
    case Sending => |s.requests| < QUEUE_LENGTH
    case Awaiting => s.responses != []
    case _ => true
  }

  predicate MainCanStep<Q, R>(s: State<Q, R>) { s.main.Returning? ==> |s.responses| < QUEUE_LENGTH }

  /** `incoming` is the request read when the task is idle. */
  function TlsStep<Q, R>(s: State<Q, R>, incoming: Q): State<Q, R> {
    if !TlsCanStep(s) then s
    else
      match s.tls
      case Idle => s.(tls := Sending, frames := s.frames + [Frame(incoming, Unanswered, true)])
      case Sending =>
        if s.frames == [] then s else s.(tls := Awaiting, requests := s.requests + [|s.frames| - 1])
      case Awaiting => s.(tls := Resumed(s.responses[0]), responses := s.responses[1..])
      case Resumed(p) =>
        if s.frames == [] then s
        else
          var n := |s.frames| - 1;
          s.(tls := Idle, frames := s.frames[n := s.frames[n].(alive := false)])
  }

  function MainStep<Q, R>(s: State<Q, R>, dispatch: Q -> R): State<Q, R> {
    if !MainCanStep(s) then s
    else
      match s.main
      case Polling =>
        if s.requests == [] then s else s.(main := Dispatching(s.requests[0]), requests := s.requests[1..])
      case Dispatching(p) =>
        if p >= |s.frames| then s
        else
          s.(main := Returning(p),
             frames := s.frames[p := s.frames[p].(response := Answered(dispatch(s.frames[p].request)))])
      case Returning(p) => s.(main := Polling, responses := s.responses + [p])
  }

  datatype Event<Q> = Tls(incoming: Q) | Main

  function Step<Q, R>(s: State<Q, R>, dispatch: Q -> R, ev: Event<Q>): State<Q, R> {
    match ev
    case Tls(incoming) => TlsStep(s, incoming)
    case Main => MainStep(s, dispatch)
  }

  function Run<Q, R>(dispatch: Q -> R, evs: seq<Event<Q>>): State<Q, R> {
    if evs == [] then Start() else Step(Run(dispatch, evs[..|evs| - 1]), dispatch, evs[|evs| - 1])
  }

  // ---- What every interleaving keeps ----

  /** The pointers under way, from the request queue through the main loop to the response queue. */
  function UnderWay<Q, R>(s: State<Q, R>): seq<nat> {
    s.requests + (if s.main.Polling? then [] else [s.main.pointer]) + s.responses
  }

  ghost predicate AnsweredFor<Q, R>(f: Frame<Q, R>, dispatch: Q -> R) { f.response == Answered(dispatch(f.request)) }

  /** The pointer is in one of the queues or in the main loop, alone. */
  predicate InOnePlace<Q, R>(s: State<Q, R>, p: nat) {
    || (s.requests == [p] && s.main == Polling && s.responses == [])
    || (s.requests == [] && s.main == Dispatching(p) && s.responses == [])
    || (s.requests == [] && s.main == Returning(p) && s.responses == [])
    || (s.requests == [] && s.main == Polling && s.responses == [p])
  }

  /** While the task waits, its newest frame is the only one alive and the only one under way; otherwise none is. */
  ghost predicate Inv<Q, R>(s: State<Q, R>, dispatch: Q -> R) {
    var n := |s.frames| - 1;
    && (forall i :: 0 <= i < n ==> !s.frames[i].alive)
    && (s.tls == Idle ==> n >= 0 ==> !s.frames[n].alive)
    && (s.tls != Idle ==> n >= 0 && s.frames[n].alive)
    && (s.tls == Sending ==> s.frames[n].response == Unanswered)
    && |s.requests| <= QUEUE_LENGTH && |s.responses| <= QUEUE_LENGTH
    && (if s.tls == Awaiting then n >= 0 && InOnePlace(s, n)
        else s.main == Polling && s.requests == [] && s.responses == [])
    && (s.tls.Resumed? ==> s.tls.pointer == n)
    && (s.tls.Resumed? || s.main.Returning? || s.responses != [] ==> n >= 0 && AnsweredFor(s.frames[n], dispatch))
  }

  lemma TlsStepKeeps<Q, R>(s: State<Q, R>, dispatch: Q -> R, incoming: Q)
    requires Inv(s, dispatch)
    ensures Inv(TlsStep(s, incoming), dispatch)
  {
  }

  lemma MainStepKeeps<Q, R>(s: State<Q, R>, dispatch: Q -> R)
    requires Inv(s, dispatch)
    ensures Inv(MainStep(s, dispatch), dispatch)
  {
  }

  lemma {:induction false} RunKeeps<Q, R>(dispatch: Q -> R, evs: seq<Event<Q>>)
    ensures Inv(Run(dispatch, evs), dispatch)
  {
    if evs != [] {
      RunKeeps(dispatch, evs[..|evs| - 1]);
      var s := Run(dispatch, evs[..|evs| - 1]);
      match evs[|evs| - 1]
      case Tls(incoming) => TlsStepKeeps(s, dispatch, incoming);
      case Main => MainStepKeeps(s, dispatch);
    }
  }

  /** At most one request is under way, and every pointer to it is to a live frame. */
  predicate Safe<Q, R>(s: State<Q, R>) {
    && |UnderWay(s)| <= 1
    && (forall i :: 0 <= i < |UnderWay(s)| ==> UnderWay(s)[i] < |s.frames| && s.frames[UnderWay(s)[i]].alive)
  }

  lemma InvIsSafe<Q, R>(s: State<Q, R>, dispatch: Q -> R)
    requires Inv(s, dispatch)
    ensures Safe(s)
  {
  }

  /**
   * On every interleaving: at most one request is under way; every pointer in a queue or in the main loop is to a
   * live frame; and the task resumes only with its own frame, which holds the response to its own request.
   */
  lemma OwnResponseAndNoDeadFrames<Q, R>(dispatch: Q -> R, evs: seq<Event<Q>>)
    ensures
      var s := Run(dispatch, evs);
      && Safe(s)
      && (s.tls.Resumed? ==> s.tls.pointer == |s.frames| - 1 && s.tls.pointer >= 0)
      && (s.tls.Resumed? ==> AnsweredFor(s.frames[s.tls.pointer], dispatch))
  {
    RunKeeps(dispatch, evs);
    InvIsSafe(Run(dispatch, evs), dispatch);
  }

  // ---- No deadlock ----

  /** Steps of the main loop until the response queue has something. */
  function Remaining<Q, R>(s: State<Q, R>): nat {
    if s.responses != [] then 0
    else
      match s.main
      case Polling => 3
      case Dispatching(_) => 2
      case Returning(_) => 1
  }

  /** Neither task ever blocks when it sends, and the wait for a response comes closer with every step of the loop. */
  lemma NeverStuck<Q, R>(dispatch: Q -> R, evs: seq<Event<Q>>)
    ensures
      var s := Run(dispatch, evs);
      && MainCanStep(s)
      && (s.tls == Sending ==> TlsCanStep(s))
      && (s.tls == Awaiting && !TlsCanStep(s) ==>
            MainStep(s, dispatch).tls == Awaiting && Remaining(MainStep(s, dispatch)) == Remaining(s) - 1)
  {
    RunKeeps(dispatch, evs);
  }

  function MainSteps<Q, R>(s: State<Q, R>, dispatch: Q -> R, k: nat): State<Q, R> {
    if k == 0 then s else MainStep(MainSteps(s, dispatch, k - 1), dispatch)
  }

  /** So a waiting task can go on after at most three steps of the main loop. */
  lemma {:induction false} ThreeStepsSuffice<Q, R>(s: State<Q, R>, dispatch: Q -> R, k: nat)
    requires Inv(s, dispatch) && s.tls == Awaiting
    ensures
      var t := MainSteps(s, dispatch, k);
      Inv(t, dispatch) && t.tls == Awaiting && (t.responses != [] || Remaining(t) + k <= Remaining(s)) &&
      (k >= 3 ==> TlsCanStep(t))
  {
    if k > 0 {
      ThreeStepsSuffice(s, dispatch, k - 1);
      MainStepKeeps(MainSteps(s, dispatch, k - 1), dispatch);
    }
  }

  // ---- In place ----

  ghost predicate OwnResponse<Q, R>(s: State<Q, R>, dispatch: Q -> R) {
    s.tls.Resumed? ==>
      s.tls.pointer == |s.frames| - 1 && s.tls.pointer >= 0 && AnsweredFor(s.frames[s.tls.pointer], dispatch)
  }

  /** Frames that die between the two states have their own answer. */
  ghost predicate DieAnswered<Q, R>(s: State<Q, R>, t: State<Q, R>, dispatch: Q -> R) {
    |s.frames| <= |t.frames| &&
    forall i :: 0 <= i < |s.frames| && s.frames[i].alive && !t.frames[i].alive ==> AnsweredFor(t.frames[i], dispatch)
  }

  /** The only frames written to are live ones, and what is written is their own answer. */
  ghost predicate AnswersLive<Q, R>(s: State<Q, R>, t: State<Q, R>, dispatch: Q -> R) {
    |s.frames| == |t.frames| &&
    forall i :: 0 <= i < |s.frames| && t.frames[i] != s.frames[i] ==>
      s.frames[i].alive && t.frames[i] == s.frames[i].(response := Answered(dispatch(s.frames[i].request)))
  }

  lemma TlsStepIsSafe<Q, R>(s: State<Q, R>, dispatch: Q -> R, incoming: Q)
    requires Inv(s, dispatch)
    ensures
      var t := TlsStep(s, incoming);
      Inv(t, dispatch) && Safe(t) && OwnResponse(t, dispatch) && DieAnswered(s, t, dispatch)
  {
    TlsStepKeeps(s, dispatch, incoming);
    InvIsSafe(TlsStep(s, incoming), dispatch);
  }

  lemma MainWritesLive<Q, R>(s: State<Q, R>, dispatch: Q -> R)
    requires Inv(s, dispatch)
    ensures AnswersLive(s, MainStep(s, dispatch), dispatch)
  {
  }

  lemma MainStepIsSafe<Q, R>(s: State<Q, R>, dispatch: Q -> R)
    requires Inv(s, dispatch)
    ensures
      var t := MainStep(s, dispatch);
      Inv(t, dispatch) && Safe(t) && AnswersLive(s, t, dispatch) && MainCanStep(s)
  {
    MainStepKeeps(s, dispatch);
    MainWritesLive(s, dispatch);
    InvIsSafe(MainStep(s, dispatch), dispatch);
  }

  class Handoffs<Q, R> {
    const dispatch: Q -> R
    var tlsPoint: TlsPoint
    var mainPoint: MainPoint
    var requestQueue: seq<nat>
    var responseQueue: seq<nat>
    var frames: seq<Frame<Q, R>>

    ghost function View(): State<Q, R>
      reads this
    {
      State(tlsPoint, mainPoint, requestQueue, responseQueue, frames)
    }

    /** What every interleaving keeps: the pointers followed below are then all to live frames. */
    ghost predicate Valid()
      reads this
    {
      Inv(View(), dispatch)
    }

    constructor (dispatch: Q -> R)
      ensures this.dispatch == dispatch && View() == Start() && Valid()
    {
      this.dispatch := dispatch;
      tlsPoint, mainPoint, requestQueue, responseQueue, frames := Idle, Polling, [], [], [];
    }

    /**
     * The next section of serving a connection; one that has to wait leaves everything as it is. The task goes on
     * only with its own frame, answered, and lets it die only after that.
     */
    method ServeConnection(incoming: Q)
      requires Valid()
      modifies this
      ensures Valid() && Safe(View()) && OwnResponse(View(), dispatch) && DieAnswered(old(View()), View(), dispatch)
      ensures View() == TlsStep(old(View()), incoming)
    {
      ghost var next := TlsStep(View(), incoming);
      TlsStepIsSafe(View(), dispatch, incoming);
      match tlsPoint {
        case Idle =>
          frames := frames + [Frame(incoming, Unanswered, true)];
          tlsPoint := Sending;
        case Sending =>
          if |requestQueue| < QUEUE_LENGTH {
            requestQueue := requestQueue + [|frames| - 1];
            tlsPoint := Awaiting;
          }
        case Awaiting =>
          if responseQueue != [] {
            tlsPoint := Resumed(responseQueue[0]);
            responseQueue := responseQueue[1..];
          }
        case Resumed(_) =>
          var n := |frames| - 1;
          frames := frames[n := frames[n].(alive := false)];
          tlsPoint := Idle;
      }
      assert View() == next;
    }

    /** The next section of the main loop, which never waits: only a live frame is written to, with its own answer. */
    method Loop()
      requires Valid()
      modifies this
      ensures Valid() && Safe(View()) && AnswersLive(old(View()), View(), dispatch)
      ensures View() == MainStep(old(View()), dispatch)
    {
      ghost var next := MainStep(View(), dispatch);
      MainStepIsSafe(View(), dispatch);
      match mainPoint {
        case Polling =>
          if requestQueue != [] {
            mainPoint := Dispatching(requestQueue[0]);
            requestQueue := requestQueue[1..];
          }
        case Dispatching(p) =>
          frames := frames[p := frames[p].(response := Answered(dispatch(frames[p].request)))];
          mainPoint := Returning(p);
        case Returning(p) =>
          if |responseQueue| < QUEUE_LENGTH {
            responseQueue := responseQueue + [p];
            mainPoint := Polling;
          }
      }
      assert View() == next;
    }
  }
}
