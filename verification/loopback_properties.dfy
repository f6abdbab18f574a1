/**
 How registration and dispatch on a loopback connection relate: a handler
 registered for a method is the one that method reaches, until it is
 replaced, and registering never disturbs other methods or the other table.
 */
module LoopbackProperties {
  import opened Errors
  import opened LoopbackConn

  // ---------------------------------------------------------------------------
  // One registration
  // ---------------------------------------------------------------------------

  /** A notification reaches the handler registered for its method, and other methods are as before. */
  lemma NotifyDispatchesToLatestHandler<P, R>(c: Conn<P, R>, name: string, h: NotificationHandler<P>, other: string, params: P)
    ensures Notify(OnNotification(c, name, h), name, params) == h(name, params)
    ensures other != name ==> Notify(OnNotification(c, name, h), other, params) == Notify(c, other, params)
  {
  }

  /** A call reaches the handler registered for its method, and other methods are as before. */
  lemma CallDispatchesToLatestHandler<P, R>(c: Conn<P, R>, name: string, h: CallHandler<P, R>, other: string, params: P, result: R)
    ensures Call(OnCall(c, name, h), name, params, result) == h(name, params, result)
    ensures other != name ==> Call(OnCall(c, name, h), other, params, result) == Call(c, other, params, result)
  {
  }

  /** The two tables are independent: registering in one never changes how the other dispatches. */
  lemma TablesAreIndependent<P, R>(c: Conn<P, R>, name: string, nh: NotificationHandler<P>, ch: CallHandler<P, R>,
                                   other: string, params: P, result: R)
    ensures Call(OnNotification(c, name, nh), other, params, result) == Call(c, other, params, result)
    ensures Notify(OnCall(c, name, ch), other, params) == Notify(c, other, params)
  {
  }

  /** Registering twice for a method is the same as registering only the second handler. */
  lemma ReRegistrationReplaces<P, R>(c: Conn<P, R>, name: string,
                                     n1: NotificationHandler<P>, n2: NotificationHandler<P>,
                                     c1: CallHandler<P, R>, c2: CallHandler<P, R>)
    ensures OnNotification(OnNotification(c, name, n1), name, n2) == OnNotification(c, name, n2)
    ensures OnCall(OnCall(c, name, c1), name, c2) == OnCall(c, name, c2)
  {
  }

  /** The no-op handler silences a method: its notifications succeed exactly as an unregistered one's do. */
  lemma NoopHandlerSilences<P, R>(c: Conn<P, R>, name: string, other: string, params: P)
    ensures Notify(OnNotification(c, name, NoopNotificationHandler), other, params)
         == (if other == name then Pass else Notify(c, other, params))
    ensures Notify(OnNotification(c, name, NoopNotificationHandler), name, params)
         == Notify(c.(notificationHandlers := c.notificationHandlers - {name}), name, params)
  {
  }

  /** On a fresh connection every notification succeeds and every call fails, naming its method. */
  lemma FreshConnection<P, R>(name: string, params: P, result: R)
    ensures Notify(New<P, R>(), name, params).Pass?
    ensures Call(New<P, R>(), name, params, result) == Reply(Fail(Plain(NoHandlerMessage(name))), result)
  {
  }

  /** The error of an unregistered call identifies the method: different methods, different messages. */
  lemma NoHandlerMessageIdentifiesMethod(a: string, b: string)
    ensures NoHandlerMessage(a) == NoHandlerMessage(b) <==> a == b
  {
    if NoHandlerMessage(a) == NoHandlerMessage(b) {
      var s := NoHandlerMessage(a);
      assert a == s[|NoHandlerPrefix|..|s| - 1] == b;
    }
  }

  /** Closing leaves every dispatch as it was. */
  lemma CloseKeepsDispatch<P, R>(c: Conn<P, R>, name: string, params: P, result: R)
    ensures Notify(Close(c).1, name, params) == Notify(c, name, params)
    ensures Call(Close(c).1, name, params, result) == Call(c, name, params, result)
  {
  }

  // ---------------------------------------------------------------------------
  // A history of registrations
  // ---------------------------------------------------------------------------

  /** One registration a user of the connection makes. */
  datatype Registration<!P, !R> =
    | NotificationRegistration(name: string, notification: NotificationHandler<P>)
    | CallRegistration(name: string, call: CallHandler<P, R>)

  function Register<P, R>(c: Conn<P, R>, op: Registration<P, R>): Conn<P, R> {
    match op
    case NotificationRegistration(name, h) => OnNotification(c, name, h)
    case CallRegistration(name, h) => OnCall(c, name, h)
  }

  /** The connection after the registrations of `ops`, in order. */
  function Replay<P, R>(c: Conn<P, R>, ops: seq<Registration<P, R>>): Conn<P, R>
    decreases |ops|
  {
    if ops == [] then c else Register(Replay(c, ops[..|ops| - 1]), ops[|ops| - 1])
  }

  /** The last notification handler `ops` registers for `name`, if any: an independent reference for `Replay`. */
  function LatestNotification<P, R>(ops: seq<Registration<P, R>>, name: string): Option<NotificationHandler<P>>
    decreases |ops|
  {
    if ops == [] then None
    else
      var op := ops[|ops| - 1];
      if op.NotificationRegistration? && op.name == name then Some(op.notification)
      else LatestNotification(ops[..|ops| - 1], name)
  }

  /** The last call handler `ops` registers for `name`, if any. */
  function LatestCall<P, R>(ops: seq<Registration<P, R>>, name: string): Option<CallHandler<P, R>>
    decreases |ops|
  {
    if ops == [] then None
    else
      var op := ops[|ops| - 1];
      if op.CallRegistration? && op.name == name then Some(op.call)
      else LatestCall(ops[..|ops| - 1], name)
  }

  /**
   After any sequence of registrations, a notification reaches the last
   handler registered for its method, or is handled as before when none was.
   */
  lemma {:induction false} ReplayNotify<P, R>(c: Conn<P, R>, ops: seq<Registration<P, R>>, name: string, params: P)
    ensures Notify(Replay(c, ops), name, params) ==
      match LatestNotification(ops, name)
      case Some(h) => h(name, params)
      case None => Notify(c, name, params)
    decreases |ops|
  {
    if ops != [] {
      ReplayNotify(c, ops[..|ops| - 1], name, params);
    }
  }

  /**
   After any sequence of registrations, a call reaches the last handler
   registered for its method, or is handled as before when none was.
   */
  lemma {:induction false} ReplayCall<P, R>(c: Conn<P, R>, ops: seq<Registration<P, R>>, name: string, params: P, result: R)
    ensures Call(Replay(c, ops), name, params, result) ==
      match LatestCall(ops, name)
      case Some(h) => h(name, params, result)
      case None => Call(c, name, params, result)
    decreases |ops|
  {
    if ops != [] {
      ReplayCall(c, ops[..|ops| - 1], name, params, result);
    }
  }

  /**
   The methods a replayed connection handles are the ones it handled before
   plus the ones the history registers, in each table separately.
   */
  lemma {:induction false} ReplayRegisters<P, R>(c: Conn<P, R>, ops: seq<Registration<P, R>>, name: string)
    ensures name in Replay(c, ops).notificationHandlers <==>
      name in c.notificationHandlers || LatestNotification(ops, name).Some?
    ensures name in Replay(c, ops).callHandlers <==>
      name in c.callHandlers || LatestCall(ops, name).Some?
    decreases |ops|
  {
    if ops != [] {
      ReplayRegisters(c, ops[..|ops| - 1], name);
    }
  }

  /**
   A connection built from `New` by any history still handles "Log"
   notifications, whatever else was registered.
   */
  lemma {:induction false} LogAlwaysHandled<P, R>(ops: seq<Registration<P, R>>)
    ensures LogMethod in Replay(New<P, R>(), ops).notificationHandlers
  {
    ReplayRegisters(New<P, R>(), ops, LogMethod);
  }
}
