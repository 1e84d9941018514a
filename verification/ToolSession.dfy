/**
 Tool calls from the server to the Local Agent: the stream session that matches answers to
 requests (`server/.../api/grpc/GrpcToolSession.java`) and the gateway's memory of side effects
 (`server/.../toolgateway/DefaultToolGateway.java`). Each method is one step of a thread; `ToolRuns`
 interleaves the steps.
 */
module ToolSession {
  import opened Wrappers

  /** Where a response comes from; `Agent(m)` is the m-th message that came in on the stream. */
  datatype Origin = Agent(m: nat) | NotConnected | Disconnected | Interrupted | Failed | TimedOut | Denied

  datatype Response = Response(callId: string, origin: Origin, body: string)

  function SetOnce(value: Option<Response>, r: Response): Option<Response> {
    if value == None then Some(r) else value
  }

  function PutIfAbsent(cache: map<string, Response>, callId: string, r: Response): map<string, Response> {
    if callId in cache then cache else cache[callId := r]
  }

  /** The answer as its caller sees it: under the gateway's call id. */
  function Correlated(r: Response, callId: string): Response { r.(callId := callId) }

  const SIDE_EFFECT_TOOLS := {"workspace.propose_changes", "workspace.apply_changes", "build.run", "test.run"}

  predicate HasSideEffects(tool: string) { tool in SIDE_EFFECT_TOOLS }

  predicate IsDenied(actorType: string, tool: string) { actorType == "AGENT" && tool == "workspace.apply_changes" }

  /** The answer that needs no channel: a refusal, or the remembered result of the same call. */
  function Known(cache: map<string, Response>, callId: string, tool: string, actorType: string): Option<Response> {
    if IsDenied(actorType, tool) then Some(Response(callId, Denied, ""))
    else if HasSideEffects(tool) && callId in cache then Some(cache[callId])
    else None
  }

  /** A value that is set at most once. */
  class Future {
    var value: Option<Response>

    constructor ()
      ensures value == None
    {
      value := None;
    }

    method Complete(r: Response) returns (first: bool)
      modifies this
      ensures value == SetOnce(old(value), r)
      ensures first <==> old(value) == None
    {
      first := value == None;
      if first {
        value := Some(r);
      }
    }
  }

  class Session {
    var open: bool
    var pending: map<string, Future>

    constructor ()
      ensures Valid() && !open && pending == map[]
    {
      open, pending := false, map[];
    }

    /** No two calls wait for the same future. */
    ghost predicate Valid()
      reads this
    {
      forall a, b | a in pending && b in pending :: pending[a] == pending[b] ==> a == b
    }

    method Attach(stream: bool)
      requires Valid()
      modifies this`open
      ensures Valid() && open == (old(open) || stream)
    {
      if stream {
        open := true;
      }
    }

    /** Every waiting call fails, whatever already has a value keeps it, and nobody waits any more. */
    method Detach()
      requires Valid()
      modifies this, pending.Values
      ensures Valid() && !open && pending == map[]
      ensures forall id :: id in old(pending) ==>
                old(pending)[id].value == SetOnce(old(pending[id].value), Response(id, Disconnected, ""))
    {
      open := false;
      var left := pending.Keys;
      while left != {}
        invariant !open && left <= old(pending).Keys && pending == old(pending)
        invariant forall id :: id in old(pending) && id in left ==> old(pending)[id].value == old(pending[id].value)
        invariant forall id :: id in old(pending) && id !in left ==>
                    old(pending)[id].value == SetOnce(old(pending[id].value), Response(id, Disconnected, ""))
      {
        var id :| id in left;
        var first := pending[id].Complete(Response(id, Disconnected, ""));
        left := left - {id};
      }
      pending := map[];
    }

    /** Begins to wait under a wire call id that nobody has used. */
    method Register(wire: string) returns (f: Future)
      requires Valid() && wire !in pending
      modifies this`pending
      ensures Valid() && fresh(f) && f.value == None && pending == old(pending)[wire := f]
    {
      f := new Future();
      pending := pending[wire := f];
    }

    /** Stops waiting, after an interrupt or a failure. */
    method Withdraw(wire: string)
      requires Valid()
      modifies this`pending
      ensures Valid() && pending == old(pending) - {wire}
    {
      pending := pending - {wire};
    }

    /** Hands a response to the call that waits for its wire id, and to no other. */
    method Complete(wire: string, r: Response) returns (handled: bool)
      requires Valid()
      modifies this`pending, pending.Values
      ensures Valid() && pending == if wire == "" then old(pending) else old(pending) - {wire}
      ensures handled <==> wire in old(pending) && wire != ""
      ensures forall id :: id in old(pending) ==>
                old(pending)[id].value
                == if id == wire && handled then SetOnce(old(pending[id].value), r) else old(pending[id].value)
    {
      if wire == "" {
        return false;
      }
      if wire !in pending {
        assert pending - {wire} == pending;
        return false;
      }
      var f := pending[wire];
      pending := pending - {wire};
      var first := f.Complete(r);
      return true;
    }
  }

  /** The gateway's memory of calls with side effects. */
  class Gateway {
    var sideEffectResults: map<string, Response>

    constructor ()
      ensures sideEffectResults == map[]
    {
      sideEffectResults := map[];
    }

    method Begin(callId: string, tool: string, actorType: string) returns (known: Option<Response>)
      ensures known == Known(sideEffectResults, callId, tool, actorType)
      ensures actorType == "AGENT" && tool == "workspace.apply_changes" ==> known == Some(Response(callId, Denied, ""))
      ensures known.Some? && known.value.origin != Denied ==>
                callId in sideEffectResults && known.value == sideEffectResults[callId]
    {
      if IsDenied(actorType, tool) {
        return Some(Response(callId, Denied, ""));
      }
      if HasSideEffects(tool) {
        if callId in sideEffectResults {
          return Some(sideEffectResults[callId]);
        }
      }
      return None;
    }

    method RememberSideEffect(callId: string, tool: string, r: Response)
      modifies this
      ensures sideEffectResults
              == if HasSideEffects(tool) then PutIfAbsent(old(sideEffectResults), callId, r) else old(sideEffectResults)
      ensures HasSideEffects(tool) ==>
                && callId in sideEffectResults
                && sideEffectResults[callId]
                   == if callId in old(sideEffectResults) then old(sideEffectResults)[callId] else r
      ensures sideEffectResults - {callId} == old(sideEffectResults) - {callId}
    {
      if HasSideEffects(tool) && callId !in sideEffectResults {
        sideEffectResults := sideEffectResults[callId := r];
      }
    }
  }
}
