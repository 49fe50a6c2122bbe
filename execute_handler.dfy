/**
 * Running an action's handler in-process (`executeSyncHandler`) and the
 * argument object a queue worker's wrapped handler passes (`getWrapperHandler`).
 * A handler is foreign code: calling it is the parameter `invoke`, whose
 * result is whatever the handler returned or threw.
 */
module SyncHandlers {
  import opened Wrappers
  import opened JsValues
  import opened AppErrors
  import opened ActionModules
  import opened ActionCacheKeys
  import opened Runtimes

  /** How a call ends: a returned value or a thrown one. */
  datatype Completion<E> = Returned(value: Js) | Threw(error: E)

  /** What `executeSyncHandler` can throw. */
  datatype Thrown =
    | NoHandler(e: AppError)           // no handler registered for the action
    | InvalidActionName(action: string) // `new ActionCacheKey(action)` rejects the name
    | HandlerThrew(value: Js)          // the handler's own exception

  /**
   * The per-action values `getActionProps` makes: a logger and a bound
   * `makeError`, both foreign objects, and a cache key whose prefix is the
   * action name with colons for dots.
   */
  datatype ActionProps = ActionProps(logger: Js, makeError: Js, cacheKeyPrefix: string)

  /** `getActionProps(action)`; the cache key's constructor throws on a name that is not dot-separated words. */
  function GetActionProps(action: string, logger: Js, makeError: Js): (r: Result<ActionProps, string>)
    ensures r.Ok? <==> ValidAction(action)
    ensures r.Err? ==> r.error == action
    ensures r.Ok? ==> r.value.logger == logger && r.value.makeError == makeError
    ensures r.Ok? ==> r.value.cacheKeyPrefix == DotToColon(action) && '.' !in r.value.cacheKeyPrefix
  {
    if ValidAction(action) then Ok(ActionProps(logger, makeError, DotToColon(action))) else Err(action)
  }

  /** The props object, as the three properties the handler sees. */
  function PropFields(p: ActionProps): seq<Field> {
    [("logger", p.logger), ("makeError", p.makeError), ("cacheKey", Obj([("prefix", Str(p.cacheKeyPrefix))]))]
  }

  lemma {:induction false} PropFieldsUnique(p: ActionProps)
    ensures UniqueKeys(PropFields(p)) && KeysOf(PropFields(p)) == ["logger", "makeError", "cacheKey"]
  {
    assert "logger"[0] != "makeError"[0] && "logger"[0] != "cacheKey"[0] && "makeError"[0] != "cacheKey"[0];
  }

  /** The own enumerable properties `...v` copies: an object's fields, an array's or a string's indices; nothing otherwise. */
  function OwnFields(v: Js): (r: seq<Field>) {
    match v
    case Obj(fs) => fs
    case Arr(items) => seq(|items|, i requires 0 <= i < |items| => (NatString(i), items[i]))
    case Str(s) => seq(|s|, i requires 0 <= i < |s| => (NatString(i), Str([s[i]])))
    case _ => []
  }

  /** `{...data, ...getActionProps(action)}`: the handler's argument. */
  function HandlerArgs(data: Js, p: ActionProps): Js {
    Obj(Spread(OwnFields(data), PropFields(p)))
  }

  /** The handler sees `logger`, `makeError` and `cacheKey` from the props, and every other property from the data. */
  lemma {:induction false} HandlerArgsSpec(data: Js, p: ActionProps, k: string)
    ensures k in ["logger", "makeError", "cacheKey"] ==> Get(HandlerArgs(data, p), k) == Get(Obj(PropFields(p)), k)
    ensures k !in ["logger", "makeError", "cacheKey"] ==> Get(HandlerArgs(data, p), k) == Get(Obj(OwnFields(data)), k)
  {
    PropFieldsUnique(p);
    SpreadLookup(OwnFields(data), PropFields(p), k);
  }

  /** The options of the error thrown when no handler is registered. */
  function NoHandlerOptions(action: string, data: Js): Js {
    Obj([("message", Str("No handler found for action: " + action)), ("action", Str(action)), ("type", Str(TypeName(Internal))), ("data", data)])
  }

  /** The error thrown when no handler is registered: INTERNAL with its code, naming the action and carrying the data (`{}` when nullish). */
  function NoHandlerError(action: string, data: Js): AppError {
    AppError(Str(TypeName(Internal)), Str("No handler found for action: " + action), Str(action), Coalesce(data, Obj([])), Num(TypeCode(Internal)))
  }

  /** The properties the constructor reads from the options: message, action, type and data as given; no code. */
  lemma {:induction false} NoHandlerOptionsGets(action: string, data: Js)
    ensures var opts := NoHandlerOptions(action, data);
      Get(opts, "message") == Str("No handler found for action: " + action) && Get(opts, "action") == Str(action) &&
      Get(opts, "type") == Str(TypeName(Internal)) && Get(opts, "data") == data && Get(opts, "code") == Undefined
  {
    var m, a, t, d := ("message", Str("No handler found for action: " + action)), ("action", Str(action)), ("type", Str(TypeName(Internal))), ("data", data);
    assert NoHandlerOptions(action, data).fields == [m] + ([a] + ([t] + [d]));
    assert "message"[0] != "action"[0] && "message"[0] != "type"[0] && "message"[0] != "data"[0] && "message"[0] != "code"[0];
    assert "action"[0] != "type"[0] && "action"[0] != "data"[0] && "action"[0] != "code"[0];
    assert "type"[0] != "data"[0] && "type"[0] != "code"[0] && "data"[0] != "code"[0];
    LookupCons(m, [a] + ([t] + [d]), "action");
    LookupCons(m, [a] + ([t] + [d]), "type");
    LookupCons(m, [a] + ([t] + [d]), "data");
    LookupCons(m, [a] + ([t] + [d]), "code");
    LookupCons(a, [t] + [d], "type");
    LookupCons(a, [t] + [d], "data");
    LookupCons(a, [t] + [d], "code");
    LookupCons(t, [d], "data");
    LookupCons(t, [d], "code");
    LookupCons(d, [], "code");
  }

  /** `new AppError(NoHandlerOptions(action, data))` builds exactly `NoHandlerError(action, data)`. */
  lemma {:induction false} NoHandlerErrorSpec(action: string, data: Js)
    ensures NewAppError(NoHandlerOptions(action, data)) == Some(NoHandlerError(action, data))
  {
    NoHandlerOptionsGets(action, data);
    TypedOptions(NoHandlerOptions(action, data), Internal);
  }

  /**
   * `executeSyncHandler(action, data)` against the runtime `rt`, with
   * `invoke` standing for calling the handler; `logger` and `makeError`
   * are the objects `getActionProps` would make.
   */
  function ExecuteSyncHandler(rt: Runtime, action: string, data: Js, logger: Js, makeError: Js,
                              invoke: (Handler, Js) -> Completion<Js>): (r: Completion<Thrown>)
    reads rt
  {
    match rt.GetHandler(action)
    case None => Threw(NoHandler(NoHandlerError(action, data)))
    case Some(h) =>
      match GetActionProps(action, logger, makeError)
      case Err(_) => Threw(InvalidActionName(action))
      case Ok(props) =>
        match invoke(h, HandlerArgs(data, props))
        case Returned(v) => Returned(v)
        case Threw(e) => Threw(HandlerThrew(e))
  }

  /**
   * Without a registered handler the call throws the INTERNAL error for the
   * action; with one, an invalid action name throws before the handler
   * runs; otherwise the handler's result, value or exception, passes
   * through unchanged.
   */
  lemma {:induction false} ExecuteSyncHandlerSpec(rt: Runtime, action: string, data: Js, logger: Js, makeError: Js,
                               invoke: (Handler, Js) -> Completion<Js>)
    ensures var r := ExecuteSyncHandler(rt, action, data, logger, makeError, invoke);
      (rt.GetHandler(action).None? ==>
        r == Threw(NoHandler(NoHandlerError(action, data))) &&
        Some(r.error.e) == NewAppError(NoHandlerOptions(action, data))) &&
      (rt.GetHandler(action).Some? && !ValidAction(action) ==> r == Threw(InvalidActionName(action))) &&
      (rt.GetHandler(action).Some? && ValidAction(action) ==>
        var c := invoke(rt.GetHandler(action).value, HandlerArgs(data, ActionProps(logger, makeError, DotToColon(action))));
        (c.Returned? ==> r == Returned(c.value)) && (c.Threw? ==> r == Threw(HandlerThrew(c.error))))
  {
    NoHandlerErrorSpec(action, data);
  }

  /** `getWrapperHandler(action, fn)`'s argument for a job payload: the props, then the payload's `context` and `input`. */
  function WrapperArgs(p: ActionProps, payload: Js): Js {
    Obj(Spread(PropFields(p), [("context", Get(payload, "context")), ("input", Get(payload, "input"))]))
  }

  /** A worker's wrapped handler sees exactly the context and input the job was scheduled with, beside the props. */
  lemma {:induction false} WrapperArgsSpec(p: ActionProps, context: Js, input: Js)
    ensures var a := WrapperArgs(p, Payload(context, input));
      Get(a, "context") == context && Get(a, "input") == input &&
      Get(a, "logger") == p.logger && Get(a, "makeError") == p.makeError
  {
    var over := [("context", context), ("input", input)];
    assert "context"[0] != "input"[0];
    assert UniqueKeys(over);
    PropFieldsUnique(p);
    assert "logger"[0] != "context"[0] && "logger"[0] != "input"[0];
    assert "makeError"[0] != "context"[0] && "makeError"[0] != "input"[0];
    SpreadLookup(PropFields(p), over, "context");
    SpreadLookup(PropFields(p), over, "input");
    SpreadLookup(PropFields(p), over, "logger");
    SpreadLookup(PropFields(p), over, "makeError");
  }
}
