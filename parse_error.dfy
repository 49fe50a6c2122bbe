/**
 * `parseError`: the mapping from a caught value to an HTTP response body and
 * status code.
 *
 * A caught value is either an `AppError` instance or any other JavaScript
 * value; a non-`AppError` error object is its own enumerable properties
 * (`message`, `name`, `code`, `meta`). `stack` is not modelled, and the
 * production switch is a parameter.
 */
module ParseErrors {
  import opened Wrappers
  import opened JsValues
  import opened Json
  import opened AppErrors

  datatype Caught = App(e: AppError) | Value(v: Js)

  datatype HttpErrorResponse = HttpErrorResponse(body: Js, statusCode: Js)

  /** `typeof input === "object" && input !== null && prop in input`, for own properties. */
  predicate Has(input: Js, prop: string) {
    input.Obj? && prop in KeysOf(input.fields)
  }

  /** `s.includes(sub)` */
  predicate Contains(s: string, sub: string) {
    exists i | 0 <= i <= |s| - |sub| :: OccursAt(s, sub, i)
  }

  predicate OccursAt(s: string, sub: string, i: int) {
    0 <= i <= |s| - |sub| && s[i..i + |sub|] == sub
  }

  /** `formatError`: both forms expose the type and the message; only outside production the data and code too. */
  function FormatError(e: AppError, isProd: bool): (r: Js)
    ensures r.Obj? && Get(r, "type") == e.typ && Get(r, "message") == e.message
    ensures isProd ==> KeysOf(r.fields) == ["type", "message"]
    ensures !isProd ==> Get(r, "data") == e.data && Get(r, "code") == e.code && Get(r, "action") == e.action
  {
    if isProd then ToProdJson(e) else ToJson(e)
  }

  /**
   * `formatInternalError`: in production the body names nothing of the error;
   * otherwise it carries the message and the whole `toJSON()` form.
   */
  function FormatInternalError(e: AppError, isProd: bool): (r: Js)
    ensures r.Obj?
    ensures isProd ==> KeysOf(r.fields) == ["message"] && Get(r, "message") == Str("Something went wrong")
    ensures !isProd ==> KeysOf(r.fields) == ["message", "data"] && Get(r, "message") == e.message && Get(r, "data") == ToJson(e)
  {
    LookupPair(("message", e.message), ("data", ToJson(e)), "message");
    LookupPair(("message", e.message), ("data", ToJson(e)), "data");
    if isProd then Obj([("message", Str("Something went wrong"))])
    else Obj([("message", e.message), ("data", ToJson(e))])
  }

  /** The response for a Prisma known-request error with the given code, if the code is one of the three mapped ones. */
  function PrismaResponse(code: Js, modelName: string, isProd: bool): (r: Option<HttpErrorResponse>)
    ensures code == Str("P2002") ==> r == Some(HttpErrorResponse(FormatError(MakeError(Conflict, modelName + " already exists"), isProd), Num(409)))
    ensures code == Str("P2003") ==> r == Some(HttpErrorResponse(FormatError(MakeError(BadRequest, modelName + " has failed foreign key reference."), isProd), Num(400)))
    ensures code == Str("P2025") ==> r == Some(HttpErrorResponse(FormatError(MakeError(NotFound, modelName + " was not found"), isProd), Num(404)))
    ensures r.None? <==> code != Str("P2002") && code != Str("P2003") && code != Str("P2025")
  {
    if code == Str("P2002") then
      Some(HttpErrorResponse(FormatError(MakeError(Conflict, modelName + " already exists"), isProd), Num(409)))
    else if code == Str("P2003") then
      Some(HttpErrorResponse(FormatError(MakeError(BadRequest, modelName + " has failed foreign key reference."), isProd), Num(400)))
    else if code == Str("P2025") then
      Some(HttpErrorResponse(FormatError(MakeError(NotFound, modelName + " was not found"), isProd), Num(404)))
    else None
  }

  predicate IsPrisma(v: Js) {
    Has(v, "name") && Get(v, "name") == Str("PrismaClientKnownRequestError")
  }

  /** `parseError(err)`. */
  function ParseError(err: Caught, isProd: bool): (r: HttpErrorResponse)
    ensures err.App? && err.e.code == Num(500) ==>
              r == HttpErrorResponse(FormatInternalError(err.e, isProd), Num(500))
    ensures err.App? && err.e.code != Num(500) ==>
              r == HttpErrorResponse(FormatError(err.e, isProd), Coalesce(err.e.code, Num(500)))
    ensures err.Value? && Has(err.v, "message") && Contains(ToStr(Get(err.v, "message")), "type") ==>
              var e := FromActionFailReason(ToStr(Get(err.v, "message")));
              r == HttpErrorResponse(FormatError(e, isProd), Coalesce(e.code, Num(500)))
    ensures err.Value? && !Has(err.v, "message") ==>
              r == HttpErrorResponse(Obj([("error", match Stringify(err.v) case None => Undefined case Some(s) => Str(s))]), Num(500))
    ensures err.Value? && Has(err.v, "message") && !IsPrisma(err.v) && !Contains(ToStr(Get(err.v, "message")), "type") ==>
              r == HttpErrorResponse(Obj([("error", Get(err.v, "message"))]), Num(500))
  {
    match err
    case App(e) =>
      if e.code == Num(500) then HttpErrorResponse(FormatInternalError(e, isProd), Num(500))
      else HttpErrorResponse(FormatError(e, isProd), Coalesce(e.code, Num(500)))
    case Value(v) =>
      if Has(v, "message") then
        var message := ToStr(Get(v, "message"));
        if Contains(message, "type") then
          var e := FromActionFailReason(message);
          HttpErrorResponse(FormatError(e, isProd), Coalesce(e.code, Num(500)))
        else
          var prisma :=
            if IsPrisma(v) then
              PrismaResponse(Get(v, "code"), ToStr(Coalesce(Get(Get(v, "meta"), "modelName"), Str("Resource"))), isProd)
            else None;
          match prisma
          case Some(resp) => resp
          case None => HttpErrorResponse(Obj([("error", Get(v, "message"))]), Num(500))
      else
        HttpErrorResponse(Obj([("error", match Stringify(v) case None => Undefined case Some(s) => Str(s))]), Num(500))
  }

  /** A Prisma error whose message does not mention "type" maps its three known codes to 409, 400 and 404. */
  lemma {:induction false} PrismaStatuses(v: Js, isProd: bool)
    requires Has(v, "message") && IsPrisma(v) && !Contains(ToStr(Get(v, "message")), "type")
    ensures var code := Get(v, "code");
      var s := ParseError(Value(v), isProd).statusCode;
      (code == Str("P2002") ==> s == Num(409)) &&
      (code == Str("P2003") ==> s == Num(400)) &&
      (code == Str("P2025") ==> s == Num(404)) &&
      (code != Str("P2002") && code != Str("P2003") && code != Str("P2025") ==> s == Num(500))
  {
  }

  /** The fail-reason check comes before the Prisma check: a Prisma error whose message mentions "type" is read as a fail reason. */
  lemma {:induction false} FailReasonBeforePrisma(v: Js, isProd: bool)
    requires Has(v, "message") && IsPrisma(v) && Get(v, "code") == Str("P2002")
    requires Get(v, "message") == Str("unknown type")
    ensures ParseError(Value(v), isProd) == HttpErrorResponse(FormatError(Fallback("unknown type"), isProd), Num(500))
  {
    assert OccursAt("unknown type", "type", 8);
    NotJson();
  }

  lemma {:induction false} NotJson()
    ensures Parse("unknown type").None?
  {
    assert SkipWs("unknown type") == "unknown type";
  }

  // ----------------------------------------------------- substring helpers

  lemma {:induction false} ContainsPrefix(a: string, rest: string)
    ensures Contains(a + rest, a)
  {
    assert OccursAt(a + rest, a, 0);
  }

  lemma {:induction false} ContainsIn(a: string, b: string, c: string, sub: string)
    requires Contains(b, sub)
    ensures Contains(a + b + c, sub)
  {
    var i :| OccursAt(b, sub, i);
    assert OccursAt(b, sub, i);
    var j := |a| + i;
    assert (a + b + c)[j..j + |sub|] == b[i..i + |sub|];
    assert OccursAt(a + b + c, sub, j);
  }

  lemma {:induction false} ContainsTrans(a: string, b: string, c: string)
    requires Contains(a, b) && Contains(b, c)
    ensures Contains(a, c)
  {
    var i :| OccursAt(a, b, i);
    assert OccursAt(a, b, i);
    var j :| OccursAt(b, c, j);
    assert OccursAt(b, c, j);
    forall k | 0 <= k < |c| ensures a[i + j + k] == c[k] {
      assert b[j + k] == c[k];
      assert a[i + (j + k)] == b[j + k];
    }
    assert a[i + j..i + j + |c|] == c;
    assert OccursAt(a, c, i + j);
  }

  /** A member that `JSON.stringify` keeps shows its quoted key in the text. */
  lemma {:induction false} MembersMention(fs: seq<Field>, j: nat)
    requires j < |fs| && !Omitted(fs[j].1)
    ensures Contains(SerializeMembers(fs), Quote(fs[j].0))
  {
    if Omitted(fs[0].1) {
      MembersMention(fs[1..], j - 1);
    } else {
      var member := SerializeMember(fs[0]);
      var more := SerializeMembers(fs[1..]);
      if j == 0 {
        ContainsPrefix(Quote(fs[0].0), ":" + Serialize(fs[0].1));
        Assoc(Quote(fs[0].0), ":", Serialize(fs[0].1));
        ContainsIn([], member, if more == "" then "" else "," + more, Quote(fs[0].0));
        assert [] + member + (if more == "" then "" else "," + more) == SerializeMembers(fs);
      } else {
        MembersMention(fs[1..], j - 1);
        assert more != "";
        ContainsIn(member + ",", more, "", Quote(fs[j].0));
        assert member + "," + more + "" == SerializeMembers(fs);
      }
    }
  }

  lemma {:induction false} TypeKeyText()
    ensures Contains(Quote("type"), "type")
  {
    EscapeUnescaped("type");
    assert OccursAt(Quote("type"), "type", 1);
  }

  /** The envelope text of an action error mentions "type", so `parseError` reads it as a fail reason. */
  lemma {:induction false} EnvelopeMentionsType(action: string, input: seq<Field>, t: ErrorType)
    requires Get(Obj(input), "type") == Str(TypeName(t))
    ensures Contains(ActionErrorMessage(action, input), "type")
  {
    var fs := Spread(input, [("action", Str(action))]);
    EnvelopeLookup(action, input, "type");
    LookupSpec(fs, "type");
    var j :| 0 <= j < |fs| && fs[j] == ("type", Str(TypeName(t)));
    ObjectMentionsType(fs, j);
  }

  /** An object with a kept `type` property serializes to text mentioning "type". */
  lemma {:induction false} ObjectMentionsType(fs: seq<Field>, j: nat)
    requires j < |fs| && fs[j].0 == "type" && !Omitted(fs[j].1)
    ensures Contains(Serialize(Obj(fs)), "type")
  {
    MembersMention(fs, j);
    ContainsIn("{", SerializeMembers(fs), "}", Quote("type"));
    TypeKeyText();
    ContainsTrans(Serialize(Obj(fs)), Quote("type"), "type");
  }

  /**
   * A job that failed with an action error built by `preMakeActionError`
   * reaches the client with its type's status code and with the error's
   * type and message (production) or its full envelope.
   */
  lemma {:induction false} ActionErrorResponse(action: string, input: seq<Field>, t: ErrorType, message: string, isProd: bool)
    requires UniqueKeys(input) && forall i :: 0 <= i < |input| ==> Plain(input[i].1)
    requires Get(Obj(input), "type") == Str(TypeName(t))
    requires Get(Obj(input), "message") == Str(message)
    requires Nullish(Get(Obj(input), "code"))
    ensures var reason := ActionErrorMessage(action, input);
      var e := FromActionFailReason(reason);
      ParseError(Value(Obj([("message", Str(reason))])), isProd) ==
        HttpErrorResponse(FormatError(e, isProd), Num(TypeCode(t))) &&
      e.typ == Str(TypeName(t)) && e.message == Str(message) && e.action == Str(action)
  {
    var reason := ActionErrorMessage(action, input);
    ActionErrorRoundTrip(action, input, t, message);
    EnvelopeMentionsType(action, input, t);
    var err := Obj([("message", Str(reason))]);
    assert Get(err, "message") == Str(reason);
    assert Has(err, "message");
  }
}
