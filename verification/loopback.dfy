/**
 The loopback connection: an in-process stand-in for a butlerd connection,
 which dispatches notifications and calls by method name to handlers
 registered on it, instead of sending them over the wire.

 Handlers are Go closures; here they are total function values. The
 parameter and result payloads (`interface{}` in the Go code) are the type
 parameters `P` and `R`. A call handler fills in the caller's result object
 by reference; here it returns the result it wants the caller to see,
 next to its error.
 */
module LoopbackConn {
  import opened Errors

  /** Handles a notification: the method name and its parameters to an error or nil. */
  type NotificationHandler<!P> = (string, P) -> Outcome

  /** What a call produces: its error or nil, and the result object as the caller sees it afterwards. */
  datatype Reply<R> = Reply(outcome: Outcome, result: R)

  /** Handles a call: the method name, its parameters and the caller's result object. */
  type CallHandler<!P, !R> = (string, P, R) -> Reply<R>

  /** The two handler tables, keyed by method name. */
  datatype Conn<!P, !R> = Conn(
    notificationHandlers: map<string, NotificationHandler<P>>,
    callHandlers: map<string, CallHandler<P, R>>)

  /** The method whose notifications `New` handles from the start. */
  const LogMethod := "Log"

  /** The handler that accepts any notification and does nothing. */
  function NoopNotificationHandler<P>(name: string, params: P): (r: Outcome)
    ensures r.Pass?
  {
    Pass
  }

  /**
   The handler `New` installs for "Log": it forwards the log line to the
   consumer, which is outside this model, and reports success.
   */
  function LogHandler<P>(name: string, params: P): (r: Outcome)
    ensures r.Pass?
  {
    Pass
  }

  /** A fresh connection: "Log" notifications are handled, nothing else is. */
  function New<P, R>(): (c: Conn<P, R>)
    ensures c.notificationHandlers.Keys == {LogMethod}
    ensures c.callHandlers.Keys == {}
  {
    OnNotification(Conn(map[], map[]), LogMethod, LogHandler)
  }

  /** Register `handler` for notifications of `name`, replacing any earlier one. */
  function OnNotification<P, R>(c: Conn<P, R>, name: string, handler: NotificationHandler<P>): (c': Conn<P, R>)
    ensures c'.notificationHandlers.Keys == c.notificationHandlers.Keys + {name}
    ensures c'.notificationHandlers[name] == handler
    ensures forall m :: m in c.notificationHandlers && m != name ==>
      c'.notificationHandlers[m] == c.notificationHandlers[m]
    ensures c'.callHandlers == c.callHandlers
  {
    c.(notificationHandlers := c.notificationHandlers[name := handler])
  }

  /** Register `handler` for calls of `name`, replacing any earlier one. */
  function OnCall<P, R>(c: Conn<P, R>, name: string, handler: CallHandler<P, R>): (c': Conn<P, R>)
    ensures c'.callHandlers.Keys == c.callHandlers.Keys + {name}
    ensures c'.callHandlers[name] == handler
    ensures forall m :: m in c.callHandlers && m != name ==>
      c'.callHandlers[m] == c.callHandlers[m]
    ensures c'.notificationHandlers == c.notificationHandlers
  {
    c.(callHandlers := c.callHandlers[name := handler])
  }

  /** Deliver a notification: to its handler if one is registered, otherwise silently dropped. */
  function Notify<P, R>(c: Conn<P, R>, name: string, params: P): (r: Outcome)
    ensures name !in c.notificationHandlers ==> r.Pass?
  {
    if name in c.notificationHandlers then c.notificationHandlers[name](name, params) else Pass
  }

  /** The text of the error a call to an unregistered method fails with. */
  function NoHandlerMessage(name: string): (s: string)
    ensures |s| == |NoHandlerPrefix| + |name| + 1
    ensures s[..|NoHandlerPrefix|] == NoHandlerPrefix
    ensures s[|NoHandlerPrefix|..|s| - 1] == name
    ensures s[|s| - 1] == ')'
  {
    NoHandlerPrefix + name + ")"
  }

  const NoHandlerPrefix := "No handler registered for method ("

  /**
   Make a call: its handler's reply if one is registered; otherwise an
   error naming the method, with the result object untouched.
   */
  function Call<P, R>(c: Conn<P, R>, name: string, params: P, result: R): (r: Reply<R>)
    ensures name !in c.callHandlers ==>
      r.outcome == Fail(Plain(NoHandlerMessage(name))) && r.result == result
    ensures r.outcome.Pass? ==> name in c.callHandlers
  {
    if name in c.callHandlers then c.callHandlers[name](name, params, result)
    else Reply(Fail(Plain(NoHandlerMessage(name))), result)
  }

  /** Closing does nothing: it succeeds and every registration stays in place. */
  function Close<P, R>(c: Conn<P, R>): (r: (Outcome, Conn<P, R>))
    ensures r.0.Pass?
    ensures r.1 == c
  {
    (Pass, c)
  }
}
