/**
 All interleavings of tool calls, answers, time-outs and disconnects. A response reaches at most
 one call, the one that issued its wire id; the memory of side effects is written once per call
 id, and a call that begins after that is answered from it without reaching the channel.
 */
module ToolRuns {
  import opened Wrappers
  import opened ToolSession

  /** Where the thread that talks to the channel stands. */
  datatype Phase = Off | Submitted | Waiting | Answered

  /** One gateway call; `future` and `answer` belong to the channel thread, `result` to the caller. */
  datatype Call = Call(
    callId: string,
    tool: string,
    actorType: string,
    phase: Phase,
    wire: Option<string>,
    future: Option<Response>,
    answer: Option<Response>,
    result: Option<Response>)

  /** `issued`, `arrived` and `delivering` record wire ids, messages, and answers on their way. */
  datatype World = World(
    calls: map<nat, Call>,
    open: bool,
    pending: map<string, nat>,
    issued: set<string>,
    sent: set<string>,
    arrived: map<nat, string>,
    delivering: map<nat, nat>,
    cache: map<string, Response>)

  const START := World(map[], false, map[], {}, {}, map[], map[], map[])

  /** Steps of the caller's thread, of the thread that talks to the channel, and of the stream. */
  datatype Action =
    | Gateway(i: nat, caller: CallerStep)
    | Channel(i: nat, channel: ChannelStep)
    | Stream(stream: StreamStep)

  datatype CallerStep = Start(callId: string, tool: string, actorType: string) | Return | TimeOut | BreakOff

  datatype ChannelStep = FindClosed | Issue(wire: string) | SendRequest | Collect | GiveUp(origin: Origin)

  datatype StreamStep =
    | AttachStream | CloseStream | FailOne(wire: string) | ForgetAll
    | Arrive(m: nat, wire: string) | Deliver(m: nat)

  function WithCall(w: World, i: nat, c: Call): World { w.(calls := w.calls[i := c]) }

  function Remember(w: World, c: Call, r: Response): World {
    if HasSideEffects(c.tool) then w.(cache := PutIfAbsent(w.cache, c.callId, r)) else w
  }

  /** Sets the result of a call that has none. */
  function Finish(w: World, i: nat, r: Response): World
    requires i in w.calls
  {
    WithCall(w, i, w.calls[i].(result := Some(r)))
  }

  function CallerNext(w: World, i: nat, step: CallerStep): World {
    match step
    case Start(callId, tool, actorType) =>
      if i in w.calls then w
      else
        var known := Known(w.cache, callId, tool, actorType);
        var phase := if known.Some? then Off else Submitted;
        WithCall(w, i, Call(callId, tool, actorType, phase, None, None, None, known))
    case Return =>
      if i in w.calls && w.calls[i].result == None && w.calls[i].answer.Some? then
        var r := Correlated(w.calls[i].answer.value, w.calls[i].callId);
        Remember(Finish(w, i, r), w.calls[i], r)
      else w
    case TimeOut =>
      if i in w.calls && w.calls[i].result == None then
        var r := Response(w.calls[i].callId, TimedOut, "");
        Remember(Finish(w, i, r), w.calls[i], r)
      else w
    case BreakOff =>
      if i in w.calls && w.calls[i].result == None then Finish(w, i, Response(w.calls[i].callId, Interrupted, ""))
          else w
  }

  function ChannelNext(w: World, i: nat, step: ChannelStep): World {
    if i !in w.calls then w
    else
      var c := w.calls[i];
      match step
      case FindClosed =>
        if c.phase == Submitted && !w.open then
          WithCall(w, i, c.(phase := Answered, answer := Some(Response(c.callId, NotConnected, ""))))
        else w
      case Issue(wire) =>
        if c.phase == Submitted && wire !in w.issued then
          WithCall(w.(pending := w.pending[wire := i], issued := w.issued + {wire}), i,
              c.(phase := Waiting, wire := Some(wire)))
        else w
      case SendRequest =>
        if c.phase == Waiting && c.wire.Some? && w.open then w.(sent := w.sent + {c.wire.value}) else w
      case Collect =>
        if c.phase == Waiting && c.future.Some? then
          WithCall(w, i, c.(phase := Answered, answer := Some(Correlated(c.future.value, c.callId))))
        else w
      case GiveUp(origin) =>
        if c.phase == Waiting && c.wire.Some? && (origin == Interrupted || origin == Failed) then
          WithCall(w.(pending := w.pending - {c.wire.value}), i,
                   c.(phase := Answered, answer := Some(Response(c.callId, origin, ""))))
        else w
  }

  function Complete(w: World, i: nat, r: Response): World {
    if i in w.calls then WithCall(w, i, w.calls[i].(future := SetOnce(w.calls[i].future, r))) else w
  }

  /** A response takes its call out of the table when it arrives and reaches it in a later step. */
  function StreamNext(w: World, step: StreamStep): World {
    match step
    case AttachStream => w.(open := true)
    case CloseStream => w.(open := false)
    case FailOne(wire) => if wire in w.pending then Complete(w, w.pending[wire], Response(wire, Disconnected, ""))
        else w
    case ForgetAll => w.(pending := map[])
    case Arrive(m, wire) =>
      if m in w.arrived then w
      else if wire in w.pending && wire != "" then
        w.(arrived := w.arrived[m := wire], pending := w.pending - {wire},
            delivering := w.delivering[m := w.pending[wire]])
      else w.(arrived := w.arrived[m := wire])
    case Deliver(m) =>
      if m in w.delivering && m in w.arrived then
        Complete(w.(delivering := w.delivering - {m}), w.delivering[m], Response(w.arrived[m], Agent(m), ""))
      else w
  }

  /** One step of some thread; a step that is not possible leaves the world as it is. */
  function Next(w: World, a: Action): World {
    match a
    case Gateway(i, step) => CallerNext(w, i, step)
    case Channel(i, step) => ChannelNext(w, i, step)
    case Stream(step) => StreamNext(w, step)
  }

  function After(actions: seq<Action>): World {
    if actions == [] then START else Next(After(actions[..|actions| - 1]), actions[|actions| - 1])
  }

  // ----- The invariant -----

  ghost predicate From(r: Option<Response>, m: nat) { r.Some? && r.value.origin == Agent(m) }

  /** What a call holds belongs to it: answers came under its wire id, results under its call id. */
  ghost predicate CallOk(w: World, c: Call) {
    && (c.wire.Some? ==> c.wire.value in w.issued)
    && (c.phase == Off || c.phase == Submitted ==> c.wire == None && c.future == None && c.answer == None)
    && (c.phase == Waiting ==> c.wire.Some?)
    && (c.result.Some? ==> c.result.value.callId == c.callId)
    && (c.answer.Some? ==> c.answer.value.callId == c.callId)
    && (forall m :: From(c.future, m) || From(c.answer, m) ==>
          m in w.arrived && c.wire == Some(w.arrived[m]) && m !in w.delivering)
  }

  ghost predicate CallsOk(w: World) { forall i :: i in w.calls ==> CallOk(w, w.calls[i]) }

  /** Wire ids are not shared. */
  ghost predicate WiresOk(w: World) {
    forall i, j :: i in w.calls && j in w.calls && w.calls[i].wire.Some? && w.calls[i].wire == w.calls[j].wire ==>
        i == j
  }

  ghost predicate PendingOk(w: World) {
    forall wire :: wire in w.pending ==> w.pending[wire] in w.calls && w.calls[w.pending[wire]].wire == Some(wire)
  }

  ghost predicate DeliveringOk(w: World) {
    forall m :: m in w.delivering ==>
      m in w.arrived && w.delivering[m] in w.calls && w.calls[w.delivering[m]].wire == Some(w.arrived[m])
  }

  ghost predicate CacheOk(w: World) { forall id :: id in w.cache ==> w.cache[id].callId == id }

  ghost predicate WorldOk(w: World) { CallsOk(w) && WiresOk(w) && PendingOk(w) && DeliveringOk(w) && CacheOk(w) }

  /** Changing one call keeps the world in order if that call is, and keeps its wire id. */
  lemma OneCallChanges(w: World, v: World, i: nat)
    requires WorldOk(w) && i in w.calls && i in v.calls && v.calls == w.calls[i := v.calls[i]]
    requires v.calls[i].wire == w.calls[i].wire && CallOk(w, v.calls[i])
    requires v.issued == w.issued && v.arrived == w.arrived && v.delivering == w.delivering
    requires forall x :: x in v.pending ==> x in w.pending && v.pending[x] == w.pending[x]
    requires CacheOk(v)
    ensures WorldOk(v)
  {
    forall j | j in v.calls ensures CallOk(v, v.calls[j]) {
      assert j != i ==> CallOk(w, w.calls[j]);
    }
  }

  lemma WithResult(w: World, c: Call, r: Response)
    requires CallOk(w, c) && r.callId == c.callId
    ensures CallOk(w, c.(result := Some(r)))
  {
  }

  /** An answer of the channel thread's own, or the one its future holds. */
  lemma WithAnswer(w: World, c: Call, r: Response)
    requires CallOk(w, c) && r.callId == c.callId && (c.phase == Submitted || c.phase == Waiting)
    requires forall m :: r.origin == Agent(m) ==> From(c.future, m)
    ensures CallOk(w, c.(phase := Answered, answer := Some(r)))
  {
  }

  lemma RememberKeeps(w: World, c: Call, r: Response)
    requires WorldOk(w) && r.callId == c.callId
    ensures WorldOk(Remember(w, c, r))
  {
    var v := Remember(w, c, r);
    assert CacheOk(v);
    forall j | j in v.calls ensures CallOk(v, v.calls[j]) {
      assert CallOk(w, w.calls[j]);
    }
  }

  lemma FinishKeeps(w: World, i: nat, r: Response)
    requires WorldOk(w) && i in w.calls && r.callId == w.calls[i].callId
    ensures WorldOk(Finish(w, i, r)) && WorldOk(Remember(Finish(w, i, r), w.calls[i], r))
  {
    hide CallOk, WiresOk, PendingOk, DeliveringOk, Remember;
    WithResult(w, w.calls[i], r);
    OneCallChanges(w, Finish(w, i, r), i);
    RememberKeeps(Finish(w, i, r), w.calls[i], r);
  }

  lemma StartKeeps(w: World, i: nat, callId: string, tool: string, actorType: string)
    requires WorldOk(w) && i !in w.calls
    ensures WorldOk(CallerNext(w, i, Start(callId, tool, actorType)))
  {
    hide HasSideEffects, IsDenied;
    var v := CallerNext(w, i, Start(callId, tool, actorType));
    forall j | j in v.calls ensures CallOk(v, v.calls[j]) {
      assert j != i ==> CallOk(w, w.calls[j]);
    }
  }

  lemma CallerKeeps(w: World, i: nat, step: CallerStep)
    requires WorldOk(w)
    ensures WorldOk(CallerNext(w, i, step))
  {
    hide WorldOk, Known, Remember, Finish;
    match step
    case Start(callId, tool, actorType) =>
      if i !in w.calls { StartKeeps(w, i, callId, tool, actorType); }
    case Return =>
      if i in w.calls && w.calls[i].result == None && w.calls[i].answer.Some? {
        FinishKeeps(w, i, Correlated(w.calls[i].answer.value, w.calls[i].callId));
      }
    case TimeOut =>
      if i in w.calls { FinishKeeps(w, i, Response(w.calls[i].callId, TimedOut, "")); }
    case BreakOff =>
      if i in w.calls { FinishKeeps(w, i, Response(w.calls[i].callId, Interrupted, "")); }
  }

  lemma IssueKeeps(w: World, i: nat, wire: string)
    requires WorldOk(w)
    ensures WorldOk(ChannelNext(w, i, Issue(wire)))
  {
    var v := ChannelNext(w, i, Issue(wire));
    if v != w {
      assert CallOk(w, w.calls[i]);
      forall j | j in v.calls ensures CallOk(v, v.calls[j]) {
        assert j != i ==> CallOk(w, w.calls[j]);
      }
      assert WiresOk(v) by {
        assert forall j :: j in w.calls && w.calls[j].wire.Some? ==> CallOk(w, w.calls[j]);
      }
    }
  }

  lemma AnsweredKeeps(w: World, i: nat, step: ChannelStep)
    requires WorldOk(w) && !step.Issue?
    ensures WorldOk(ChannelNext(w, i, step))
  {
    hide CallOk, WiresOk, PendingOk, DeliveringOk;
    var v := ChannelNext(w, i, step);
    if i in w.calls && v.calls != w.calls {
      WithAnswer(w, w.calls[i], v.calls[i].answer.value);
      OneCallChanges(w, v, i);
    } else {
      FewerKeeps(w, v);
    }
  }

  lemma ChannelKeeps(w: World, i: nat, step: ChannelStep)
    requires WorldOk(w)
    ensures WorldOk(ChannelNext(w, i, step))
  {
    hide WorldOk, ChannelNext;
    if step.Issue? {
      IssueKeeps(w, i, step.wire);
    } else {
      AnsweredKeeps(w, i, step);
    }
  }

  /** Setting the future of the call a response is meant for; the response is not on its way any more. */
  lemma CompleteKeeps(w: World, i: nat, r: Response)
    requires WorldOk(w)
    requires forall m :: r.origin == Agent(m) && i in w.calls ==>
               m in w.arrived && w.calls[i].wire == Some(w.arrived[m]) && m !in w.delivering
    requires i in w.calls ==> w.calls[i].wire.Some?
    ensures WorldOk(Complete(w, i, r))
  {
    var v := Complete(w, i, r);
    forall j | j in v.calls ensures CallOk(v, v.calls[j]) {
      assert CallOk(w, w.calls[j]);
    }
  }

  /** Fewer waiting calls and fewer responses on their way are in order if more were. */
  lemma FewerKeeps(w: World, v: World)
    requires WorldOk(w) && v.calls == w.calls && v.issued == w.issued && v.arrived == w.arrived && v.cache == w.cache
    requires forall x :: x in v.pending ==> x in w.pending && v.pending[x] == w.pending[x]
    requires forall m :: m in v.delivering ==> m in w.delivering && v.delivering[m] == w.delivering[m]
    ensures WorldOk(v)
  {
    forall j | j in v.calls ensures CallOk(v, v.calls[j]) {
      assert CallOk(w, w.calls[j]);
    }
  }

  lemma ArriveKeeps(w: World, m: nat, wire: string)
    requires WorldOk(w) && m !in w.arrived
    ensures WorldOk(StreamNext(w, Arrive(m, wire)))
  {
    hide CallsOk, PendingOk, DeliveringOk, WiresOk, CacheOk;
    var v := StreamNext(w, Arrive(m, wire));
    SameCalls(w, v);
    ArrivedCalls(w, v, m);
    if v.pending == w.pending {
      ArrivedTables(w, v, m, None);
    } else {
      ArrivedTables(w, v, m, Some(wire));
    }
  }

  lemma ArrivedTables(w: World, v: World, m: nat, taken: Option<string>)
    requires PendingOk(w) && DeliveringOk(w) && m !in w.arrived && v.calls == w.calls
    requires m in v.arrived && v.arrived == w.arrived[m := v.arrived[m]]
    requires match taken
             case None => v.pending == w.pending && v.delivering == w.delivering
             case Some(wire) =>
               && wire in w.pending && v.arrived[m] == wire
               && v.pending == w.pending - {wire} && v.delivering == w.delivering[m := w.pending[wire]]
    ensures PendingOk(v) && DeliveringOk(v)
  {
  }

  lemma SameCalls(w: World, v: World)
    requires WiresOk(w) && CacheOk(w) && v.calls == w.calls && v.cache == w.cache
    ensures WiresOk(v) && CacheOk(v)
  {
  }

  /** No call can hold a response that has only just arrived. */
  lemma ArrivedCalls(w: World, v: World, m: nat)
    requires CallsOk(w) && m !in w.arrived && v.calls == w.calls && v.issued == w.issued
    requires m in v.arrived && v.arrived == w.arrived[m := v.arrived[m]]
    requires forall k :: k in v.delivering && k != m ==> k in w.delivering
    ensures CallsOk(v)
  {
    forall j | j in v.calls ensures CallOk(v, v.calls[j]) {
      assert CallOk(w, w.calls[j]);
    }
  }

  lemma StreamKeeps(w: World, step: StreamStep)
    requires WorldOk(w)
    ensures WorldOk(StreamNext(w, step))
  {
    hide CallsOk, WiresOk, CacheOk;
    match step
    case AttachStream => FewerKeeps(w, StreamNext(w, step));
    case CloseStream => FewerKeeps(w, StreamNext(w, step));
    case ForgetAll => FewerKeeps(w, StreamNext(w, step));
    case FailOne(wire) =>
      if wire in w.pending {
        CompleteKeeps(w, w.pending[wire], Response(wire, Disconnected, ""));
      }
    case Arrive(m, wire) =>
      if m !in w.arrived { ArriveKeeps(w, m, wire); }
    case Deliver(m) =>
      if m in w.delivering && m in w.arrived {
        FewerKeeps(w, w.(delivering := w.delivering - {m}));
        CompleteKeeps(w.(delivering := w.delivering - {m}), w.delivering[m], Response(w.arrived[m], Agent(m), ""));
      }
  }

  lemma StepKeeps(w: World, a: Action)
    requires WorldOk(w)
    ensures WorldOk(Next(w, a))
  {
    hide WorldOk, CallerNext, ChannelNext, StreamNext;
    match a
    case Gateway(i, step) => CallerKeeps(w, i, step);
    case Channel(i, step) => ChannelKeeps(w, i, step);
    case Stream(step) => StreamKeeps(w, step);
  }

  lemma {:induction false} RunsAreOk(actions: seq<Action>)
    ensures WorldOk(After(actions))
  {
    if actions != [] {
      RunsAreOk(actions[..|actions| - 1]);
      StepKeeps(After(actions[..|actions| - 1]), actions[|actions| - 1]);
    }
  }

  // ----- What every run guarantees -----

  /** A response reaches at most one call, and that is the one that issued its wire id. */
  lemma OneCallPerResponse(actions: seq<Action>, i: nat, j: nat, m: nat)
    requires var w := After(actions);
             && i in w.calls && (From(w.calls[i].future, m) || From(w.calls[i].answer, m))
             && j in w.calls && (From(w.calls[j].future, m) || From(w.calls[j].answer, m))
    ensures i == j && m in After(actions).arrived && After(actions).calls[i].wire == Some(After(actions).arrived[m])
  {
    RunsAreOk(actions);
    assert CallOk(After(actions), After(actions).calls[i]) && CallOk(After(actions), After(actions).calls[j]);
  }

  /** Whatever comes back carries the call id the caller gave. */
  lemma ResultsKeepTheirCallId(actions: seq<Action>, i: nat)
    requires i in After(actions).calls && After(actions).calls[i].result.Some?
    ensures After(actions).calls[i].result.value.callId == After(actions).calls[i].callId
  {
    RunsAreOk(actions);
    assert CallOk(After(actions), After(actions).calls[i]);
  }

  /** A remembered result is written once and never replaced. */
  lemma {:induction false} RememberedForever(actions: seq<Action>, more: seq<Action>, callId: string)
    requires actions <= more && callId in After(actions).cache
    ensures callId in After(more).cache && After(more).cache[callId] == After(actions).cache[callId]
    decreases |more|
  {
    if |actions| == |more| {
      assert actions == more;
    } else {
      RememberedForever(actions, more[..|more| - 1], callId);
      CacheGrows(After(more[..|more| - 1]), more[|more| - 1], callId);
    }
  }

  lemma CacheGrows(w: World, a: Action, callId: string)
    requires callId in w.cache
    ensures callId in Next(w, a).cache && Next(w, a).cache[callId] == w.cache[callId]
  {
    hide CallerNext, StreamNext;
    match a
    case Gateway(i, step) => CallerCaches(w, i, step, callId);
    case Channel(i, step) => assert ChannelNext(w, i, step).cache == w.cache;
    case Stream(step) => StreamCachesNothing(w, step);
  }

  lemma CallerCaches(w: World, i: nat, step: CallerStep, callId: string)
    requires callId in w.cache
    ensures callId in CallerNext(w, i, step).cache && CallerNext(w, i, step).cache[callId] == w.cache[callId]
  {
    hide HasSideEffects, IsDenied;
  }

  lemma StreamCachesNothing(w: World, step: StreamStep)
    ensures StreamNext(w, step).cache == w.cache
  {
  }

  /** The call has its result, and its channel thread never ran. */
  ghost predicate AnsweredFromMemory(w: World, i: nat, r: Response) {
    && i in w.calls && w.calls[i].result == Some(r)
    && w.calls[i].phase == Off && w.calls[i].wire == None && w.calls[i].future == None && w.calls[i].answer == None
  }

  lemma CallerLeavesFinished(w: World, j: nat, step: CallerStep, i: nat)
    requires i in w.calls && w.calls[i].result.Some?
    ensures i in CallerNext(w, j, step).calls && CallerNext(w, j, step).calls[i] == w.calls[i]
  {
    hide HasSideEffects, IsDenied;
  }

  lemma ChannelLeavesOff(w: World, j: nat, step: ChannelStep, i: nat)
    requires i in w.calls && w.calls[i].phase == Off
    ensures i in ChannelNext(w, j, step).calls && ChannelNext(w, j, step).calls[i] == w.calls[i]
  {
  }

  lemma StreamLeavesUnwired(w: World, step: StreamStep, i: nat)
    requires PendingOk(w) && DeliveringOk(w) && i in w.calls && w.calls[i].wire == None
    ensures i in StreamNext(w, step).calls && StreamNext(w, step).calls[i] == w.calls[i]
  {
  }

  lemma StaysFromMemory(w: World, a: Action, i: nat, r: Response)
    requires PendingOk(w) && DeliveringOk(w) && AnsweredFromMemory(w, i, r)
    ensures AnsweredFromMemory(Next(w, a), i, r)
  {
    hide CallerNext, ChannelNext, StreamNext;
    match a
    case Gateway(j, step) => CallerLeavesFinished(w, j, step, i);
    case Channel(j, step) => ChannelLeavesOff(w, j, step, i);
    case Stream(step) => StreamLeavesUnwired(w, step, i);
  }

  /** A call that begins once its result is remembered returns exactly that, and never reaches the channel. */
  lemma {:induction false} RememberedCallsSkipTheChannel(
    actions: seq<Action>, more: seq<Action>, i: nat, callId: string, tool: string, actorType: string)
    requires i !in After(actions).calls && HasSideEffects(tool) && !IsDenied(actorType, tool)
    requires callId in After(actions).cache && actions + [Gateway(i, Start(callId, tool, actorType))] <= more
    ensures AnsweredFromMemory(After(more), i, After(actions).cache[callId])
    decreases |more|
  {
    var began := actions + [Gateway(i, Start(callId, tool, actorType))];
    if |began| == |more| {
      assert began == more && more[..|more| - 1] == actions;
    } else {
      hide Next;
      RememberedCallsSkipTheChannel(actions, more[..|more| - 1], i, callId, tool, actorType);
      RunsAreOk(more[..|more| - 1]);
      StaysFromMemory(After(more[..|more| - 1]), more[|more| - 1], i, After(actions).cache[callId]);
    }
  }

  // ----- Calls that are refused -----

  /** An agent that asks to apply changes. */
  predicate AgentApplies(c: Call) { c.actorType == "AGENT" && c.tool == "workspace.apply_changes" }

  /** The refusal is the result, and nothing was ever sent for the call. */
  ghost predicate Refused(w: World, i: nat) {
    && i in w.calls
    && AnsweredFromMemory(w, i, Response(w.calls[i].callId, Denied, ""))
  }

  /** What is sent went out under the wire id of some call. */
  ghost predicate SentOk(w: World) {
    forall wire :: wire in w.sent ==> exists i :: i in w.calls && w.calls[i].wire == Some(wire)
  }

  /** What a call is about never changes, and neither does a wire id or a result it has. */
  ghost predicate Kept(c: Call, d: Call) {
    && d.callId == c.callId && d.tool == c.tool && d.actorType == c.actorType
    && (c.wire.Some? ==> d.wire == c.wire) && (c.result.Some? ==> d.result == c.result)
  }

  lemma FinishTouchesOne(w: World, i: nat, r: Response)
    requires i in w.calls
    ensures var v := Remember(Finish(w, i, r), w.calls[i], r);
            v.sent == w.sent && v.calls == w.calls[i := w.calls[i].(result := Some(r))]
  {
  }

  lemma CallerTouchesOne(w: World, i: nat, step: CallerStep)
    ensures var v := CallerNext(w, i, step);
            && v.sent == w.sent
            && (v.calls == w.calls || (i in v.calls && v.calls == w.calls[i := v.calls[i]]))
            && (i in w.calls ==> Kept(w.calls[i], v.calls[i]))
  {
    hide HasSideEffects, IsDenied, Remember;
    if i in w.calls {
      FinishTouchesOne(w, i, Response(w.calls[i].callId, TimedOut, ""));
      if w.calls[i].answer.Some? {
        FinishTouchesOne(w, i, Correlated(w.calls[i].answer.value, w.calls[i].callId));
      }
    }
  }

  lemma CallerShape(w: World, i: nat, step: CallerStep)
    ensures CallerNext(w, i, step).sent == w.sent
    ensures forall j :: j in w.calls ==>
              j in CallerNext(w, i, step).calls && Kept(w.calls[j], CallerNext(w, i, step).calls[j])
  {
    CallerTouchesOne(w, i, step);
    hide CallerNext;
  }

  lemma ChannelShape(w: World, i: nat, step: ChannelStep)
    requires CallsOk(w)
    ensures ChannelNext(w, i, step).calls.Keys == w.calls.Keys && ChannelNext(w, i, step).cache == w.cache
    ensures forall j :: j in w.calls ==>
              && Kept(w.calls[j], ChannelNext(w, i, step).calls[j])
              && ChannelNext(w, i, step).calls[j].result == w.calls[j].result
    ensures forall wire :: wire in ChannelNext(w, i, step).sent && wire !in w.sent ==>
              i in w.calls && w.calls[i].wire == Some(wire)
  {
    hide CallOk;
    if i in w.calls {
      UnwiredBefore(w, i);
      ChannelTouchesOne(w, i, step);
    }
  }

  lemma ChannelTouchesOne(w: World, i: nat, step: ChannelStep)
    requires i in w.calls && (w.calls[i].phase == Submitted ==> w.calls[i].wire == None)
    ensures var v := ChannelNext(w, i, step);
            && v.cache == w.cache && i in v.calls && v.calls == w.calls[i := v.calls[i]]
            && Kept(w.calls[i], v.calls[i]) && v.calls[i].result == w.calls[i].result
            && (v.sent == w.sent || (w.calls[i].wire.Some? && v.sent == w.sent + {w.calls[i].wire.value}))
  {
    assert w.calls[i := w.calls[i]] == w.calls;
  }

  lemma UnwiredBefore(w: World, i: nat)
    requires CallsOk(w) && i in w.calls
    ensures w.calls[i].phase == Submitted ==> w.calls[i].wire == None
  {
    assert CallOk(w, w.calls[i]);
  }

  lemma CompleteTouchesOne(w: World, i: nat, r: Response)
    ensures var v := Complete(w, i, r);
            && v == w.(calls := v.calls) && v.calls.Keys == w.calls.Keys
            && (v.calls == w.calls || (i in w.calls && i in v.calls && v.calls == w.calls[i := v.calls[i]]))
            && (i in w.calls && i in v.calls ==>
                  Kept(w.calls[i], v.calls[i]) && v.calls[i].result == w.calls[i].result)
  {
  }

  lemma StreamShape(w: World, step: StreamStep)
    ensures StreamNext(w, step).sent == w.sent && StreamNext(w, step).cache == w.cache
    ensures StreamNext(w, step).calls.Keys == w.calls.Keys
    ensures forall j :: j in w.calls ==>
              && Kept(w.calls[j], StreamNext(w, step).calls[j])
              && StreamNext(w, step).calls[j].result == w.calls[j].result
  {
    hide Complete;
    match step
    case FailOne(wire) =>
      if wire in w.pending {
        CompleteTouchesOne(w, w.pending[wire], Response(wire, Disconnected, ""));
      }
    case Deliver(m) =>
      if m in w.delivering && m in w.arrived {
        CompleteTouchesOne(w.(delivering := w.delivering - {m}), w.delivering[m], Response(w.arrived[m], Agent(m), ""));
      }
    case _ =>
  }

  lemma CallsAreKept(w: World, a: Action, i: nat)
    requires CallsOk(w) && i in w.calls
    ensures i in Next(w, a).calls && Kept(w.calls[i], Next(w, a).calls[i])
  {
    hide CallerNext, ChannelNext, StreamNext, Kept, CallsOk;
    match a
    case Gateway(j, step) => CallerShape(w, j, step);
    case Channel(j, step) => ChannelShape(w, j, step);
    case Stream(step) => StreamShape(w, step);
  }

  lemma SentStep(w: World, a: Action)
    requires CallsOk(w) && SentOk(w)
    ensures SentOk(Next(w, a))
  {
    hide CallerNext, ChannelNext, StreamNext, CallsOk;
    match a
    case Gateway(j, step) => CallerShape(w, j, step);
    case Channel(j, step) => ChannelShape(w, j, step);
    case Stream(step) => StreamShape(w, step);
  }

  lemma {:induction false} SentIsWired(actions: seq<Action>)
    ensures SentOk(After(actions))
  {
    if actions != [] {
      var before := actions[..|actions| - 1];
      SentIsWired(before);
      RunsAreOk(before);
      SentStep(After(before), actions[|actions| - 1]);
    }
  }

  /**
   In every run an agent's call to apply changes has the refusal as its result and no wire id, and
   whatever was sent belongs to another call.
   */
  lemma {:induction false} AgentsNeverApply(actions: seq<Action>, i: nat)
    requires i in After(actions).calls && AgentApplies(After(actions).calls[i])
    ensures Refused(After(actions), i)
    ensures forall wire :: wire in After(actions).sent ==>
              exists j :: j in After(actions).calls && j != i && After(actions).calls[j].wire == Some(wire)
  {
    var before, a := actions[..|actions| - 1], actions[|actions| - 1];
    var w := After(before);
    RunsAreOk(before);
    SentIsWired(actions);
    hide Next;
    if i in w.calls {
      CallsAreKept(w, a, i);
      AgentsNeverApply(before, i);
      StaysFromMemory(w, a, i, Response(w.calls[i].callId, Denied, ""));
    } else {
      RefusedAtStart(w, a, i);
    }
  }

  lemma RefusedAtStart(w: World, a: Action, i: nat)
    requires CallsOk(w) && i !in w.calls && i in Next(w, a).calls && AgentApplies(Next(w, a).calls[i])
    ensures Refused(Next(w, a), i)
  {
    hide ChannelNext, StreamNext, CallsOk;
    match a
    case Gateway(j, step) => StartRefuses(w, j, step, i);
    case Channel(j, step) => ChannelShape(w, j, step);
    case Stream(step) => StreamShape(w, step);
  }

  lemma StartRefuses(w: World, j: nat, step: CallerStep, i: nat)
    requires i !in w.calls && i in CallerNext(w, j, step).calls && AgentApplies(CallerNext(w, j, step).calls[i])
    ensures Refused(CallerNext(w, j, step), i)
  {
    hide HasSideEffects;
  }

  // ----- Calls that are remembered -----

  predicate ChangesSomething(tool: string) {
    tool in {"workspace.propose_changes", "workspace.apply_changes", "build.run", "test.run"}
  }

  /** A call that is through: neither refused nor broken off. */
  ghost predicate Through(c: Call) {
    ChangesSomething(c.tool) && c.result.Some? && c.result.value.origin != Denied &&
        c.result.value.origin != Interrupted
  }

  ghost predicate ThroughIsCached(w: World) {
    forall i :: i in w.calls && Through(w.calls[i]) ==> w.calls[i].callId in w.cache
  }

  /** Every remembered result is that of a call with the same id. */
  ghost predicate CacheIsFromCalls(w: World) {
    forall id :: id in w.cache ==> exists i :: i in w.calls && w.calls[i].callId == id
                                               && w.calls[i].result == Some(w.cache[id])
  }

  /** When a call with side effects returns or times out its result is remembered, if it is the first. */
  lemma ReturnRemembers(w: World, i: nat, step: CallerStep)
    requires i in w.calls && w.calls[i].result == None && ChangesSomething(w.calls[i].tool)
    requires step.TimeOut? || (step.Return? && w.calls[i].answer.Some?)
    ensures var v, id := CallerNext(w, i, step), w.calls[i].callId;
            && id in v.cache && i in v.calls && v.calls[i].result.Some?
            && v.cache[id] == if id in w.cache then w.cache[id] else v.calls[i].result.value
  {
  }

  lemma CallerRemembers(w: World, j: nat, step: CallerStep, i: nat)
    requires i in CallerNext(w, j, step).calls && Through(CallerNext(w, j, step).calls[i])
    requires i !in w.calls || w.calls[i].result == None
    ensures CallerNext(w, j, step).calls[i].callId in CallerNext(w, j, step).cache
  {
  }

  lemma NewResult(w: World, a: Action, i: nat)
    requires CallsOk(w) && i in Next(w, a).calls && Through(Next(w, a).calls[i])
    requires i !in w.calls || w.calls[i].result == None
    ensures Next(w, a).calls[i].callId in Next(w, a).cache
  {
    hide CallerNext, ChannelNext, StreamNext, CallsOk;
    match a
    case Gateway(j, step) => CallerRemembers(w, j, step, i);
    case Channel(j, step) => ChannelShape(w, j, step);
    case Stream(step) => StreamShape(w, step);
  }

  lemma CallerEntry(w: World, j: nat, step: CallerStep, id: string)
    requires id in CallerNext(w, j, step).cache && id !in w.cache
    ensures var v := CallerNext(w, j, step);
            j in v.calls && v.calls[j].callId == id && v.calls[j].result == Some(v.cache[id])
  {
    hide HasSideEffects, IsDenied;
  }

  lemma NewEntry(w: World, a: Action, id: string)
    requires CallsOk(w) && id in Next(w, a).cache && id !in w.cache
    ensures exists i :: i in Next(w, a).calls && Next(w, a).calls[i].callId == id
                        && Next(w, a).calls[i].result == Some(Next(w, a).cache[id])
  {
    hide CallerNext, ChannelNext, StreamNext, CallsOk;
    match a
    case Gateway(j, step) => CallerEntry(w, j, step, id);
    case Channel(j, step) => ChannelShape(w, j, step);
    case Stream(step) => StreamShape(w, step);
  }

  lemma MemoryStep(w: World, a: Action)
    requires CallsOk(w) && ThroughIsCached(w) && CacheIsFromCalls(w)
    ensures ThroughIsCached(Next(w, a)) && CacheIsFromCalls(Next(w, a))
  {
    hide Next, Through, CallsOk;
    var v := Next(w, a);
    forall i | i in v.calls && Through(v.calls[i]) ensures v.calls[i].callId in v.cache {
      if i in w.calls && w.calls[i].result.Some? {
        CallsAreKept(w, a, i);
        SameThrough(w.calls[i], v.calls[i]);
        CacheGrows(w, a, w.calls[i].callId);
      } else {
        NewResult(w, a, i);
      }
    }
    forall id | id in v.cache
      ensures exists i :: i in v.calls && v.calls[i].callId == id && v.calls[i].result == Some(v.cache[id])
    {
      if id in w.cache {
        var i :| i in w.calls && w.calls[i].callId == id && w.calls[i].result == Some(w.cache[id]);
        CallsAreKept(w, a, i);
        CacheGrows(w, a, id);
      } else {
        NewEntry(w, a, id);
      }
    }
  }

  lemma SameThrough(c: Call, d: Call)
    requires d.result == c.result && d.tool == c.tool
    ensures Through(c) <==> Through(d)
  {
  }

  lemma {:induction false} MemoryOfRuns(actions: seq<Action>)
    ensures ThroughIsCached(After(actions)) && CacheIsFromCalls(After(actions))
  {
    if actions != [] {
      MemoryOfRuns(actions[..|actions| - 1]);
      RunsAreOk(actions[..|actions| - 1]);
      MemoryStep(After(actions[..|actions| - 1]), actions[|actions| - 1]);
    }
  }

  /**
   A call with side effects that is through makes every later call of its id harmless: that one
   returns, in every continuation, the result of a call with this id, and never reaches the channel.
   */
  lemma RetriesAreAnsweredFromMemory(
    actions: seq<Action>, more: seq<Action>, i: nat, j: nat, tool: string, actorType: string)
    returns (first: nat, result: Response)
    requires i in After(actions).calls && Through(After(actions).calls[i])
    requires j !in After(actions).calls && ChangesSomething(tool)
    requires !(actorType == "AGENT" && tool == "workspace.apply_changes")
    requires actions + [Gateway(j, Start(After(actions).calls[i].callId, tool, actorType))] <= more
    ensures first in After(actions).calls && After(actions).calls[first].callId == After(actions).calls[i].callId
    ensures After(actions).calls[first].result == Some(result) && AnsweredFromMemory(After(more), j, result)
  {
    MemoryOfRuns(actions);
    var w := After(actions);
    var id := w.calls[i].callId;
    hide After, Through;
    first :| first in w.calls && w.calls[first].callId == id && w.calls[first].result == Some(w.cache[id]);
    result := w.cache[id];
    RememberedCallsSkipTheChannel(actions, more, j, id, tool, actorType);
  }

  // ----- Calls that are answered -----

  /** The call waits under this wire id, and nothing has come for it. */
  ghost predicate WaitsUnder(w: World, i: nat, wire: string) {
    && i in w.calls && w.calls[i].phase == Waiting && w.calls[i].wire == Some(wire)
    && w.calls[i].future == None && w.calls[i].result == None
    && wire != "" && wire in w.pending && w.pending[wire] == i
  }

  /** A call that gave up is not waited for any more: what comes under its wire id reaches nobody. */
  lemma GivenUpGetsNothing(w: World, i: nat, wire: string, origin: Origin, m: nat)
    requires WaitsUnder(w, i, wire) && m !in w.arrived && (origin == Interrupted || origin == Failed)
    ensures var w1 := Next(w, Channel(i, GiveUp(origin)));
            var w2 := Next(w1, Stream(Arrive(m, wire)));
            && wire !in w1.pending && i in w1.calls
            && w1.calls[i].answer == Some(Response(w.calls[i].callId, origin, ""))
            && w2.delivering == w.delivering && w2.calls == w1.calls
  {
  }

  /** Without a stream a call comes back at once, and nothing is sent. */
  lemma UnconnectedComesBack(w: World, i: nat)
    requires i in w.calls && w.calls[i].phase == Submitted && w.calls[i].result == None && !w.open
    ensures var w2 := Next(Next(w, Channel(i, FindClosed)), Gateway(i, Return));
            && i in w2.calls && w2.calls[i].result == Some(Response(w.calls[i].callId, NotConnected, ""))
            && w2.sent == w.sent
  {
    hide HasSideEffects, IsDenied;
    var w1 := Next(w, Channel(i, FindClosed));
    assert w1.calls[i].answer == Some(Response(w.calls[i].callId, NotConnected, "")) && w1.calls[i].result == None;
  }

  /** A call that is broken off, or that only begins, leaves the memory as it is. */
  lemma OnlyThroughCallsAreRemembered(w: World, i: nat, step: CallerStep)
    requires step.BreakOff? || step.Start?
    ensures CallerNext(w, i, step).cache == w.cache
  {
    hide HasSideEffects, IsDenied;
  }

  /** The answer of the agent to a waiting call comes back to its caller, under the caller's id. */
  lemma AnswerReachesTheCaller(w: World, i: nat, wire: string, m: nat)
    requires WaitsUnder(w, i, wire) && m !in w.arrived && m !in w.delivering
    ensures var w1 := Next(Next(w, Stream(Arrive(m, wire))), Stream(Deliver(m)));
            var w2 := Next(Next(w1, Channel(i, Collect)), Gateway(i, Return));
            i in w2.calls && w2.calls[i].result == Some(Response(w.calls[i].callId, Agent(m), ""))
  {
    hide HasSideEffects, IsDenied;
    var w0 := Next(w, Stream(Arrive(m, wire)));
    assert w0.calls == w.calls && m in w0.delivering && w0.delivering[m] == i && w0.arrived[m] == wire;
    var w1 := Next(w0, Stream(Deliver(m)));
    assert w1.calls[i] == w.calls[i].(future := Some(Response(wire, Agent(m), "")));
    var w2 := Next(w1, Channel(i, Collect));
    assert w2.calls[i].answer == Some(Response(w.calls[i].callId, Agent(m), "")) && w2.calls[i].result == None;
  }

  /** When the stream ends a waiting call comes back with that, instead of waiting for ever. */
  lemma DisconnectReachesTheCaller(w: World, i: nat, wire: string)
    requires WaitsUnder(w, i, wire)
    ensures var w1 := Next(Next(w, Stream(CloseStream)), Stream(FailOne(wire)));
            var w2 := Next(Next(w1, Channel(i, Collect)), Gateway(i, Return));
            i in w2.calls && w2.calls[i].result == Some(Response(w.calls[i].callId, Disconnected, "")) && !w2.open
  {
    hide HasSideEffects, IsDenied;
    var w1 := Next(Next(w, Stream(CloseStream)), Stream(FailOne(wire)));
    assert w1.calls[i] == w.calls[i].(future := Some(Response(wire, Disconnected, "")));
    var w2 := Next(w1, Channel(i, Collect));
    assert w2.calls[i].answer == Some(Response(w.calls[i].callId, Disconnected, "")) && w2.calls[i].result == None;
  }

  lemma AfterOneMore(actions: seq<Action>, a: Action)
    ensures After(actions + [a]) == Next(After(actions), a)
  {
    assert (actions + [a])[..|actions|] == actions;
  }

  /** The memory helps only calls that begin later: of two at once with one call id both are sent. */
  lemma TwinCallsAreBothSent(callId: string, tool: string, actorType: string)
    requires !IsDenied(actorType, tool)
    ensures exists actions ::
              var w := After(actions);
              && 0 in w.calls && 1 in w.calls && w.calls[0].callId == w.calls[1].callId == callId
              && w.calls[0].wire == Some("x") && w.calls[1].wire == Some("y") && "x" in w.sent && "y" in w.sent
  {
    assert After([]) == START;
    hide IsDenied, HasSideEffects, After;
    var start := Start(callId, tool, actorType);
    var a1 := [] + [Gateway(0, start)];
    AfterOneMore([], Gateway(0, start));
    var a2 := a1 + [Gateway(1, start)];
    AfterOneMore(a1, Gateway(1, start));
    var a3 := a2 + [Channel(0, Issue("x"))];
    AfterOneMore(a2, Channel(0, Issue("x")));
    var a4 := a3 + [Channel(1, Issue("y"))];
    AfterOneMore(a3, Channel(1, Issue("y")));
    var w4 := After(a4);
    assert w4.calls[0].wire == Some("x") && w4.calls[1].wire == Some("y");
    var a5 := a4 + [Stream(AttachStream)];
    AfterOneMore(a4, Stream(AttachStream));
    var a6 := a5 + [Channel(0, SendRequest)];
    AfterOneMore(a5, Channel(0, SendRequest));
    var a7 := a6 + [Channel(1, SendRequest)];
    AfterOneMore(a6, Channel(1, SendRequest));
    var w := After(a7);
    assert w.calls == w4.calls && "x" in w.sent && "y" in w.sent;
  }
}
