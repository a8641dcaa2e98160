/** Running a registered method and rendering its result, locally and through
    the relay (internal/rpc/stub_manager.go, relay_handlers.go, stub_server.go). */
module Stubs {
  import opened Basics
  import opened Futures

  /** A handler's return value, as far as the renderer looks at it. An object
      is known by its JSON text. */
  datatype GoValue = Nil | Text(text: string) | Object(json: string)

  datatype HandlerResult = Returned(value: GoValue) | Failed(error: string) | Panicked(reason: string)

  /** json.RawMessage: uninterpreted JSON text. */
  datatype RawMessage = RawMessage(text: string)

  type Handler = seq<RawMessage> -> HandlerResult

  datatype RpcRequest = RpcRequest(from: string, to: string, uid: Uid, packetId: int, args: seq<string>)

  datatype RpcResponse = RpcResponse(uid: Uid, packetId: int, errorFlag: bool, errorMsg: string, resultText: string)

  // ---------------------------------------------------------------------
  // Invoke

  function NotRegistered(packetId: int): string {
    "方法未注册: packetId=" + SignedDecimal(packetId)
  }

  function PanicText(packetId: int, reason: string): string {
    "RPC 执行异常: packetId=" + SignedDecimal(packetId) + " panic=" + reason
  }

  /** A panic becomes an error, so a caller only ever sees a value or an error. */
  function Settle(packetId: int, r: HandlerResult): Result<GoValue, string> {
    match r
    case Returned(v) => Ok(v)
    case Failed(e) => Err(e)
    case Panicked(reason) => Err(PanicText(packetId, reason))
  }

  function Invoked(handlers: map<int, Handler>, packetId: int, args: seq<RawMessage>): Result<GoValue, string> {
    if packetId in handlers then Settle(packetId, handlers[packetId](args)) else Err(NotRegistered(packetId))
  }

  function Render(v: GoValue): string {
    match v
    case Nil => ""
    case Text(s) => s
    case Object(json) => json
  }

  function Rendered(r: Result<GoValue, string>): Outcome {
    match r
    case Ok(v) => Value(Render(v))
    case Err(e) => Failure(e)
  }

  class StubManager {
    var handlers: map<int, Handler>
    var initialized: bool

    constructor ()
      ensures handlers == map[] && !initialized
    {
      handlers, initialized := map[], false;
    }

    method RegisterStub(packetId: int, handler: Handler)
      modifies this
      ensures handlers == old(handlers)[packetId := handler] && initialized
    {
      handlers := handlers[packetId := handler];
      initialized := true;
    }

    method Reset()
      modifies this
      ensures handlers == map[] && !initialized
    {
      handlers, initialized := map[], false;
    }

    method Invoke(packetId: int, args: seq<RawMessage>) returns (r: Result<GoValue, string>)
      ensures r.Ok? <==> packetId in handlers && handlers[packetId](args).Returned?
      ensures r.Ok? ==> handlers[packetId](args) == Returned(r.value)
      ensures r == Invoked(handlers, packetId, args)
    {
      if packetId !in handlers {
        return Err(NotRegistered(packetId));
      }
      match handlers[packetId](args)
      case Returned(v) => r := Ok(v);
      case Failed(e) => r := Err(e);
      case Panicked(reason) => r := Err(PanicText(packetId, reason));
    }
  }

  // ---------------------------------------------------------------------
  // Argument lists

  method RawToStringList(args: seq<RawMessage>) returns (list: seq<string>)
    ensures |list| == |args| && forall i :: 0 <= i < |args| ==> RawMessage(list[i]) == args[i]
  {
    list := [];
    for i := 0 to |args|
      invariant |list| == i && forall j :: 0 <= j < i ==> RawMessage(list[j]) == args[j]
    {
      list := list + [args[i].text];
    }
  }

  function RawArgs(args: seq<string>): (raw: seq<RawMessage>)
    ensures |raw| == |args| && forall i :: 0 <= i < |args| ==> raw[i].text == args[i]
  {
    seq(|args|, i requires 0 <= i < |args| => RawMessage(args[i]))
  }

  method RawToJsonArgs(args: seq<string>) returns (list: seq<RawMessage>)
    ensures list == RawArgs(args)
  {
    list := [];
    for i := 0 to |args|
      invariant |list| == i && forall j :: 0 <= j < i ==> list[j] == RawMessage(args[j])
    {
      list := list + [RawMessage(args[i])];
    }
  }

  // ---------------------------------------------------------------------
  // The relay's two handlers

  function Respond(req: RpcRequest, r: Result<GoValue, string>): RpcResponse {
    match r
    case Ok(v) => RpcResponse(req.uid, req.packetId, false, "", Render(v))
    case Err(e) => RpcResponse(req.uid, req.packetId, true, e, "")
  }

  function CarriedOutcome(resp: RpcResponse): Outcome {
    if resp.errorFlag then Failure(resp.errorMsg) else Value(resp.resultText)
  }

  /** What the callee answers, case by case, and what a local call gives: a
      string as it is, nothing as the empty text, an object as its JSON text;
      otherwise the error's own text, or one that names the packet id. */
  lemma AnswersExactly(handlers: map<int, Handler>, req: RpcRequest)
    ensures var resp := Respond(req, Invoked(handlers, req.packetId, RawArgs(req.args)));
            resp.uid == req.uid && resp.packetId == req.packetId
    ensures req.packetId !in handlers ==>
              Fails(handlers, req, "方法未注册: packetId=" + SignedDecimal(req.packetId))
    ensures req.packetId in handlers ==>
              var result := handlers[req.packetId](RawArgs(req.args));
              && (result == Returned(Nil) ==> Gives(handlers, req, ""))
              && (forall t :: result == Returned(Text(t)) ==> Gives(handlers, req, t))
              && (forall j :: result == Returned(Object(j)) ==> Gives(handlers, req, j))
              && (forall e :: result == Failed(e) ==> Fails(handlers, req, e))
              && (forall p :: result == Panicked(p) ==>
                    Fails(handlers, req, "RPC 执行异常: packetId=" + SignedDecimal(req.packetId) + " panic=" + p))
  {
  }

  /** The response carries this text as the result, and the local call gives it. */
  ghost predicate Gives(handlers: map<int, Handler>, req: RpcRequest, text: string) {
    var resp := Respond(req, Invoked(handlers, req.packetId, RawArgs(req.args)));
    && !resp.errorFlag && resp.resultText == text && resp.errorMsg == ""
    && InvokeLocal(handlers, req.packetId, RawArgs(req.args)) == Value(text)
  }

  /** The same for the text of an error. */
  ghost predicate Fails(handlers: map<int, Handler>, req: RpcRequest, text: string) {
    var resp := Respond(req, Invoked(handlers, req.packetId, RawArgs(req.args)));
    && resp.errorFlag && resp.errorMsg == text && resp.resultText == ""
    && InvokeLocal(handlers, req.packetId, RawArgs(req.args)) == Failure(text)
  }

  /** A response carries exactly what the caller would have seen locally. */
  lemma ResponseCarriesOutcome(req: RpcRequest, r: Result<GoValue, string>)
    ensures CarriedOutcome(Respond(req, r)) == Rendered(r)
  {
  }

  method HandleRelayRpcRequest(data: Option<RpcRequest>, stubs: StubManager) returns (resp: Option<RpcResponse>)
    ensures resp == if data.None? then None
                    else Some(Respond(data.value, Invoked(stubs.handlers, data.value.packetId, RawArgs(data.value.args))))
    ensures data.Some? ==>
              resp.Some? && resp.value.uid == data.value.uid && resp.value.packetId == data.value.packetId
  {
    if data.None? {
      return None;
    }
    var req := data.value;
    var args := RawToJsonArgs(req.args);
    var result := stubs.Invoke(req.packetId, args);
    if result.Err? {
      resp := Some(RpcResponse(req.uid, req.packetId, true, result.error, ""));
    } else {
      resp := Some(RpcResponse(req.uid, req.packetId, false, "", Render(result.value)));
    }
  }

  method HandleRelayRpcResponse(data: Option<RpcResponse>, manager: FutureManager)
    requires manager.Valid()
    modifies manager`m, manager`slot, manager.futures
    ensures manager.Valid()
    ensures manager.View() == if data.None? then old(manager.View())
                              else Complete(old(manager.View()), data.value.uid, CarriedOutcome(data.value))
  {
    if data.Some? {
      if data.value.errorFlag {
        manager.SetError(data.value.uid, data.value.errorMsg);
      } else {
        manager.SetSuccess(data.value.uid, data.value.resultText);
      }
    }
  }

  function InvokeLocal(handlers: map<int, Handler>, packetId: int, args: seq<RawMessage>): Outcome {
    Rendered(Invoked(handlers, packetId, args))
  }

  /** The local shortcut gives what the round trip would: in any ledger,
      register a future for the request, let the request handler run on the
      arguments as they travel, hand its response to the response handler, and
      the future holds what the local call returns. This covers unregistered
      ids, handler errors and panics. */
  lemma LocalEqualsRoundTrip(handlers: map<int, Handler>, l: Ledger, req: RpcRequest, args: seq<RawMessage>)
    requires |req.args| == |args| && forall i :: 0 <= i < |args| ==> RawMessage(req.args[i]) == args[i]
    ensures var resp := Respond(req, Invoked(handlers, req.packetId, RawArgs(req.args)));
            var after := Complete(Enter(l, req.uid), resp.uid, CarriedOutcome(resp));
            && |after.entries| == |l.entries| + 1
            && after.entries[|l.entries|] == Entry(req.uid, Some(InvokeLocal(handlers, req.packetId, args)))
  {
    assert RawArgs(req.args) == args;
    ResponseCarriesOutcome(req, Invoked(handlers, req.packetId, args));
  }
}
