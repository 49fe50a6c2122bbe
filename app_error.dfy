/**
 * The application error envelope: `AppError`, its JSON forms, and the way an
 * action failure travels as JSON inside an `Error` message and is rebuilt.
 *
 * The constructor receives whatever `JSON.parse` produced, so every field is
 * an untyped `Js` value; `stack` is not modelled.
 */
module AppErrors {
  import opened Wrappers
  import opened JsValues
  import opened Json

  datatype ErrorType = NotFound | Unauthorized | Forbidden | BadRequest | Conflict | Internal | TooManyRequests

  const AllTypes: seq<ErrorType> :=
    [NotFound, Unauthorized, Forbidden, BadRequest, Conflict, Internal, TooManyRequests]

  /** The key of the type in the type table. */
  function TypeName(t: ErrorType): string {
    match t
    case NotFound => "NOT_FOUND"
    case Unauthorized => "UNAUTHORIZED"
    case Forbidden => "FORBIDDEN"
    case BadRequest => "BAD_REQUEST"
    case Conflict => "CONFLICT"
    case Internal => "INTERNAL"
    case TooManyRequests => "TOO_MANY_REQUESTS"
  }

  /** The HTTP status code the type table gives each type. */
  function TypeCode(t: ErrorType): int {
    match t
    case NotFound => 404
    case Unauthorized => 401
    case Forbidden => 403
    case BadRequest => 400
    case Conflict => 409
    case Internal => 500
    case TooManyRequests => 429
  }

  /** The table entry for a key, if the key is one of the table's own. */
  function TypeOfName(s: string): (r: Option<ErrorType>)
    ensures r.Some? ==> TypeName(r.value) == s
    ensures r.None? ==> forall t :: TypeName(t) != s
  {
    if s == "NOT_FOUND" then Some(NotFound)
    else if s == "UNAUTHORIZED" then Some(Unauthorized)
    else if s == "FORBIDDEN" then Some(Forbidden)
    else if s == "BAD_REQUEST" then Some(BadRequest)
    else if s == "CONFLICT" then Some(Conflict)
    else if s == "INTERNAL" then Some(Internal)
    else if s == "TOO_MANY_REQUESTS" then Some(TooManyRequests)
    else None
  }

  lemma {:induction false} TypeNameInjective(t: ErrorType)
    ensures TypeOfName(TypeName(t)) == Some(t)
  {
  }

  /**
   * `AppErrorTypeDef[key].code`. A table key gives its code; an inherited
   * property has no `code` (undefined); any other key reads `.code` off
   * undefined, which throws (None).
   */
  function DefCode(key: string): (r: Option<Js>)
    ensures TypeOfName(key).Some? ==> r == Some(Num(TypeCode(TypeOfName(key).value)))
    ensures r.None? <==> TypeOfName(key).None? && key !in ObjectPrototypeKeys
  {
    match TypeOfName(key)
    case Some(t) => Some(Num(TypeCode(t)))
    case None => if key in ObjectPrototypeKeys then Some(Undefined) else None
  }

  datatype AppError = AppError(typ: Js, message: Js, action: Js, data: Js, code: Js)

  /**
   * `new AppError(opts)`; None where the constructor throws a TypeError
   * (destructuring a nullish `opts`, or an unknown truthy `type` with no `code`).
   */
  function NewAppError(opts: Js): (r: Option<AppError>)
    ensures Nullish(opts) ==> r.None?
    ensures r.Some? ==> r.value.message == Get(opts, "message")
    ensures r.Some? ==> !Nullish(r.value.typ) && !Nullish(r.value.data) && !r.value.action.Null?
    ensures !Nullish(opts) && !Nullish(Get(opts, "code")) ==> r.Some? && r.value.code == Get(opts, "code")
    ensures !Nullish(opts) && Nullish(Get(opts, "type")) && Nullish(Get(opts, "code")) ==>
              r.Some? && r.value.typ == Str("INTERNAL") && r.value.code == Num(500)
  {
    if Nullish(opts) then None
    else
      var typ := Coalesce(Get(opts, "type"), Str("INTERNAL"));
      var data := Coalesce(Get(opts, "data"), Obj([]));
      var action := Coalesce(Get(opts, "action"), Undefined);
      var code := Get(opts, "code");
      var make := (c: Js) => AppError(typ, Get(opts, "message"), action, data, c);
      if !Nullish(code) then Some(make(code))
      else if !Truthy(typ) then Some(make(Num(500)))
      else
        match DefCode(ToStr(typ))
        case None => None
        case Some(c) => Some(make(c))
  }

  /** The options object a typed `makeError({type, message})` call passes. */
  function Options(t: ErrorType, message: string): Js {
    Obj([("type", Str(TypeName(t))), ("message", Str(message))])
  }

  /** A typed construction never throws and takes its code from the table. */
  lemma {:induction false} TypedConstruction(t: ErrorType, message: string)
    ensures NewAppError(Options(t, message)) ==
            Some(AppError(Str(TypeName(t)), Str(message), Undefined, Obj([]), Num(TypeCode(t))))
  {
    TypeNameInjective(t);
    assert "type"[0] != "message"[0] && "type"[0] != "data"[0] && "type"[0] != "code"[0];
    assert "message"[0] != "data"[0] && "message"[0] != "code"[0];
    var o := Options(t, message).fields;
    LookupPair(o[0], o[1], "type");
    LookupPair(o[0], o[1], "message");
    LookupPair(o[0], o[1], "data");
    LookupPair(o[0], o[1], "code");
    LookupPair(o[0], o[1], "action");
    assert Get(Options(t, message), "type") == Str(TypeName(t));
    assert Get(Options(t, message), "data") == Undefined;
    assert Get(Options(t, message), "code") == Undefined;
  }

  /** `makeError({type, message})`, which is `new AppError(...)`, for a known type. */
  function MakeError(t: ErrorType, message: string): (e: AppError)
    ensures NewAppError(Options(t, message)) == Some(e)
    ensures e.code == Num(TypeCode(t)) && e.typ == Str(TypeName(t)) && e.message == Str(message)
  {
    TypedConstruction(t, message);
    AppError(Str(TypeName(t)), Str(message), Undefined, Obj([]), Num(TypeCode(t)))
  }

  /** `toJSON()` without `stack`: the error's own properties under their names. */
  function ToJson(e: AppError): (r: Js)
    ensures r.Obj? && KeysOf(r.fields) == ["name", "action", "type", "message", "data", "code"]
    ensures Get(r, "name") == Str("AppError") && Get(r, "action") == e.action && Get(r, "type") == e.typ
    ensures Get(r, "message") == e.message && Get(r, "data") == e.data && Get(r, "code") == e.code
  {
    var fs := [("name", Str("AppError")), ("action", e.action), ("type", e.typ),
               ("message", e.message), ("data", e.data), ("code", e.code)];
    assert UniqueKeys(fs) by {
      forall i, j | 0 <= i < j < |fs| ensures fs[i].0 != fs[j].0 {
        assert fs[i].0[0] != fs[j].0[0];
      }
    }
    LookupAt(fs, 0);
    LookupAt(fs, 1);
    LookupAt(fs, 2);
    LookupAt(fs, 3);
    LookupAt(fs, 4);
    LookupAt(fs, 5);
    Obj(fs)
  }

  /** `toProdJSON()`: only the type and the message are exposed. */
  function ToProdJson(e: AppError): (r: Js)
    ensures r.Obj? && KeysOf(r.fields) == ["type", "message"]
    ensures Get(r, "type") == e.typ && Get(r, "message") == e.message
  {
    assert "type"[0] != "message"[0];
    LookupPair(("type", e.typ), ("message", e.message), "type");
    LookupPair(("type", e.typ), ("message", e.message), "message");
    Obj([("type", e.typ), ("message", e.message)])
  }

  /** The error `fromActionFailReason` builds when the reason cannot be used. */
  function Fallback(reason: string): AppError {
    AppError(Str("INTERNAL"), Str(reason), Undefined, Obj([]), Num(500))
  }

  lemma {:induction false} FallbackIsConstructed(reason: string)
    ensures NewAppError(Options(Internal, reason)) == Some(Fallback(reason))
  {
    TypedConstruction(Internal, reason);
  }

  /** `AppError.fromActionFailReason(reason)`. */
  function FromActionFailReason(reason: string): (r: AppError)
    ensures Parse(reason).None? ==> r == Fallback(reason)
    ensures Parse(reason).Some? && NewAppError(Parse(reason).value).Some? ==>
              r == NewAppError(Parse(reason).value).value
  {
    match Parse(reason)
    case None => Fallback(reason)
    case Some(v) =>
      match NewAppError(v)
      case None => Fallback(reason)
      case Some(e) => e
  }

  /** The message of the `Error` that `preMakeActionError(action)(input)` creates. */
  function ActionErrorMessage(action: string, input: seq<Field>): string {
    Serialize(Obj(Spread(input, [("action", Str(action))])))
  }

  lemma {:induction false} SpreadPlain(base: seq<Field>, over: seq<Field>)
    requires forall i :: 0 <= i < |base| ==> Plain(base[i].1)
    requires forall i :: 0 <= i < |over| ==> Plain(over[i].1)
    ensures forall i :: 0 <= i < |Spread(base, over)| ==> Plain(Spread(base, over)[i].1)
    decreases |over|
  {
    if over != [] {
      var b' := Put(base, over[0].0, over[0].1);
      PutPlain(base, over[0].0, over[0].1);
      SpreadPlain(b', over[1..]);
    }
  }

  lemma {:induction false} PutPlain(fs: seq<Field>, k: string, x: Js)
    requires Plain(x) && forall i :: 0 <= i < |fs| ==> Plain(fs[i].1)
    ensures forall i :: 0 <= i < |Put(fs, k, x)| ==> Plain(Put(fs, k, x)[i].1)
  {
    if fs != [] && fs[0].0 != k {
      PutPlain(fs[1..], k, x);
      assert Put(fs, k, x) == [fs[0]] + Put(fs[1..], k, x);
    }
  }

  /**
   * A known `type` never throws: the code is the explicit `code` when there is
   * one and the table's code for the type otherwise, `data` defaults to `{}`.
   */
  lemma {:induction false} TypedOptions(opts: Js, t: ErrorType)
    requires opts.Obj? && Get(opts, "type") == Str(TypeName(t))
    ensures NewAppError(opts) ==
            Some(AppError(Str(TypeName(t)), Get(opts, "message"), Coalesce(Get(opts, "action"), Undefined),
                          Coalesce(Get(opts, "data"), Obj([])), Coalesce(Get(opts, "code"), Num(TypeCode(t)))))
  {
    TypeNameInjective(t);
    assert ToStr(Str(TypeName(t))) == TypeName(t);
  }

  /** The envelope is the input's fields followed by (or overwriting) `action`, and it parses back. */
  lemma {:induction false} EnvelopeParses(action: string, input: seq<Field>)
    requires UniqueKeys(input) && forall i :: 0 <= i < |input| ==> Plain(input[i].1)
    ensures Parse(ActionErrorMessage(action, input)) == Some(Obj(Spread(input, [("action", Str(action))])))
  {
    var over := [("action", Str(action))];
    var fs := Spread(input, over);
    SpreadUnique(input, over);
    SpreadPlain(input, over);
    assert Plain(Obj(fs));
    ParseStringify(Obj(fs));
  }

  lemma {:induction false} EnvelopeLookup(action: string, input: seq<Field>, k: string)
    ensures Get(Obj(Spread(input, [("action", Str(action))])), k) ==
            if k == "action" then Str(action) else Get(Obj(input), k)
  {
    SpreadLookup(input, [("action", Str(action))], k);
  }

  /**
   * An action error raised through `preMakeActionError` comes back from
   * `fromActionFailReason` with its type, message, action and data, and with
   * the table's code for its type unless the input carried a code of its own.
   */
  lemma {:induction false} ActionErrorRoundTrip(action: string, input: seq<Field>, t: ErrorType, message: string)
    requires UniqueKeys(input) && forall i :: 0 <= i < |input| ==> Plain(input[i].1)
    requires Get(Obj(input), "type") == Str(TypeName(t))
    requires Get(Obj(input), "message") == Str(message)
    ensures var e := FromActionFailReason(ActionErrorMessage(action, input));
      e.typ == Str(TypeName(t)) && e.message == Str(message) && e.action == Str(action) &&
      e.data == Coalesce(Get(Obj(input), "data"), Obj([])) &&
      e.code == Coalesce(Get(Obj(input), "code"), Num(TypeCode(t)))
  {
    var msg := ActionErrorMessage(action, input);
    var v := Obj(Spread(input, [("action", Str(action))]));
    EnvelopeParses(action, input);
    EnvelopeLookup(action, input, "type");
    EnvelopeLookup(action, input, "message");
    EnvelopeLookup(action, input, "action");
    EnvelopeLookup(action, input, "data");
    EnvelopeLookup(action, input, "code");
    TypedOptions(v, t);
    assert FromActionFailReason(msg) == NewAppError(v).value;
  }

  /** A reason that parses to a JSON value with no usable fields yields an error with an undefined message. */
  lemma {:induction false} NumericReason()
    ensures FromActionFailReason("123") == AppError(Str("INTERNAL"), Undefined, Undefined, Obj([]), Num(500))
  {
    NumberRoundTrip(123, []);
    assert DecimalString(123) == "123";
    assert "123" + [] == "123";
    assert Parse("123") == Some(Num(123));
  }

  /** An unknown type name without an explicit code makes the constructor throw, so the reason itself becomes the message. */
  lemma {:induction false} UnknownTypeFallsBack(reason: string, v: Js, s: string)
    requires Parse(reason) == Some(v)
    requires Get(v, "type") == Str(s) && s != "" && TypeOfName(s).None? && s !in ObjectPrototypeKeys
    requires Nullish(Get(v, "code"))
    ensures FromActionFailReason(reason) == Fallback(reason)
  {
  }
}
