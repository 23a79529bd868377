/**
 * The strategy itself: loading the session from the request's cookies and,
 * at the end of the request, deciding which single cookie (if any) to set.
 */
module SignedCookieStrategy {
  import opened Wrappers
  import opened JsValues
  import opened SigningLibrary
  import opened StrategyOptions
  import opened Codec

  /** The session as the middleware hands it over: current and loaded data. */
  datatype SessionState = SessionState(data: Value, previousData: Value)

  /** The four outcomes of the end-of-request decision. */
  datatype Action = NoOp | Touch | Save | Destroy

  /** What is handed to the cookie store: nothing, or one `(name, value, attributes)` triple. */
  datatype Instr = NoInstr | SetCookie(name: string, value: string, attrs: CookieAttributes)

  /** The request's cookies as the cookie store reads them, by name. */
  type Cookies = map<string, string>

  /**
   * The decision table of `finalize`: the data being `== null` selects the
   * clearing actions, identity with the loaded data the unchanged ones.
   */
  function Decide(s: SessionState): (a: Action)
    ensures (a == NoOp || a == Destroy) <==> IsNullish(s.data)
    ensures (a == NoOp || a == Touch) <==> StrictEquals(s.data, s.previousData)
  {
    if StrictEquals(s.data, s.previousData) then
      if IsNullish(s.data) then NoOp else Touch
    else
      if IsNullish(s.data) then Destroy else Save
  }

  /** Each action is chosen exactly on its row of the table. */
  lemma DecideTable(s: SessionState)
    ensures Decide(s) == NoOp <==> StrictEquals(s.data, s.previousData) && IsNullish(s.data)
    ensures Decide(s) == Touch <==> StrictEquals(s.data, s.previousData) && !IsNullish(s.data)
    ensures Decide(s) == Destroy <==> !StrictEquals(s.data, s.previousData) && IsNullish(s.data)
    ensures Decide(s) == Save <==> !StrictEquals(s.data, s.previousData) && !IsNullish(s.data)
  {
  }

  /**
   * `save`: the configured name, the signed token of the current data, and
   * the attributes for this request. The token is computed first, so
   * `undefined` data throws before the `secure` predicate is asked.
   */
  function SaveCookie<Ctx>(lib: Library, o: Options<Ctx>, ctx: Ctx, s: SessionState): (r: Result<Instr, JsError>)
    ensures r.Failure? <==> s.data.Undefined? || SecureThrows(o.secure, ctx)
    ensures s.data.Undefined? ==> r == Failure(SignTypeError)
    ensures r.Success? ==> r.value.SetCookie? && r.value.name == o.name
    ensures r.Success? ==> r.value.attrs.maxAge == o.maxAge
  {
    match Serialize(lib, o.secret, s.data)
    case Failure(e) => Failure(e)
    case Success(token) =>
      match GetCookieOptions(o, ctx)
      case Failure(e) => Failure(e)
      case Success(attrs) => Success(SetCookie(o.name, token, attrs))
  }

  /** `touch`: writes the cookie again exactly as `save` would. */
  function TouchCookie<Ctx>(lib: Library, o: Options<Ctx>, ctx: Ctx, s: SessionState): (r: Result<Instr, JsError>)
    ensures r.Failure? <==> s.data.Undefined? || SecureThrows(o.secure, ctx)
    ensures r.Success? ==> r.value.SetCookie? && r.value.name == o.name
  {
    SaveCookie(lib, o, ctx, s)
  }

  /**
   * `destroy`: the same attributes as `save` would use, with an empty value
   * and `maxAge` 0; it throws when the `secure` predicate does.
   */
  function DestroyCookie<Ctx>(o: Options<Ctx>, ctx: Ctx): (r: Result<Instr, JsError>)
    ensures r.Failure? <==> SecureThrows(o.secure, ctx)
    ensures r.Success? ==> r.value.SetCookie? && r.value.name == o.name && r.value.value == ""
    ensures r.Success? ==> r.value.attrs.maxAge == 0
  {
    match GetCookieOptions(o, ctx)
    case Failure(e) => Failure(e)
    case Success(attrs) => Success(SetCookie(o.name, "", attrs.(maxAge := 0)))
  }

  /**
   * `finalize`: carries out the action the decision table picks. It throws
   * exactly when a cookie is to be written and the `secure` predicate throws.
   */
  function Finalize<Ctx>(lib: Library, o: Options<Ctx>, ctx: Ctx, s: SessionState): (r: Result<Instr, JsError>)
    ensures r.Failure? <==> Decide(s) != NoOp && SecureThrows(o.secure, ctx)
    ensures r.Failure? ==> r.error == SecureThrew
    ensures r.Success? ==> (r.value.NoInstr? <==> Decide(s) == NoOp)
  {
    match Decide(s)
    case NoOp => Success(NoInstr)
    case Touch => TouchCookie(lib, o, ctx, s)
    case Destroy => DestroyCookie(o, ctx)
    case Save => SaveCookie(lib, o, ctx, s)
  }

  /** Both unchanged and `== null`: no cookie instruction at all, and nothing is asked of `secure`. */
  lemma FinalizeNoOp<Ctx>(lib: Library, o: Options<Ctx>, ctx: Ctx, s: SessionState)
    requires StrictEquals(s.data, s.previousData) && IsNullish(s.data)
    ensures Finalize(lib, o, ctx, s) == Success(NoInstr)
  {
  }

  /**
   * Unchanged but present: the cookie `save` would write, carrying the
   * signed current data and the full configured `maxAge`; a throwing
   * `secure` predicate is propagated.
   */
  lemma FinalizeTouch<Ctx>(lib: Library, o: Options<Ctx>, ctx: Ctx, s: SessionState)
    requires StrictEquals(s.data, s.previousData) && !IsNullish(s.data)
    ensures Finalize(lib, o, ctx, s) == SaveCookie(lib, o, ctx, s)
    ensures GetCookieOptions(o, ctx).Success? ==>
              Finalize(lib, o, ctx, s)
              == Success(SetCookie(o.name, Serialize(lib, o.secret, s.data).value, GetCookieOptions(o, ctx).value))
    ensures GetCookieOptions(o, ctx).Success? ==> Finalize(lib, o, ctx, s).value.attrs.maxAge == o.maxAge
    ensures GetCookieOptions(o, ctx).Failure? ==> Finalize(lib, o, ctx, s) == Failure(SecureThrew)
  {
  }

  /**
   * Changed and present: one cookie with the signed current data and this
   * request's attributes, or the `secure` predicate's exception.
   */
  lemma FinalizeSave<Ctx>(lib: Library, o: Options<Ctx>, ctx: Ctx, s: SessionState)
    requires !StrictEquals(s.data, s.previousData) && !IsNullish(s.data)
    ensures GetCookieOptions(o, ctx).Success? ==>
              Finalize(lib, o, ctx, s)
              == Success(SetCookie(o.name, Serialize(lib, o.secret, s.data).value, GetCookieOptions(o, ctx).value))
    ensures GetCookieOptions(o, ctx).Failure? ==> Finalize(lib, o, ctx, s) == Failure(SecureThrew)
  {
  }

  /**
   * Changed to `null` or `undefined`: one cookie with an empty value and
   * `maxAge` 0, every other attribute as `save` would set it, or the
   * `secure` predicate's exception.
   */
  lemma FinalizeDestroy<Ctx>(lib: Library, o: Options<Ctx>, ctx: Ctx, s: SessionState)
    requires !StrictEquals(s.data, s.previousData) && IsNullish(s.data)
    ensures GetCookieOptions(o, ctx).Success? ==>
              Finalize(lib, o, ctx, s) == Success(SetCookie(o.name, "", GetCookieOptions(o, ctx).value.(maxAge := 0)))
    ensures GetCookieOptions(o, ctx).Success? ==>
              var a := Finalize(lib, o, ctx, s).value.attrs;
              var b := GetCookieOptions(o, ctx).value;
              a.secure == b.secure && a.domain == b.domain && a.httpOnly == b.httpOnly
              && a.path == b.path && a.sameSite == b.sameSite
    ensures GetCookieOptions(o, ctx).Failure? ==> Finalize(lib, o, ctx, s) == Failure(SecureThrew)
  {
  }

  /**
   * Touch and save differ only in intent: whenever the data is present the
   * outcome depends on the data, not on whether it changed.
   */
  lemma TouchAndSaveAgree<Ctx>(lib: Library, o: Options<Ctx>, ctx: Ctx, data: Value, prev1: Value, prev2: Value)
    requires !IsNullish(data)
    ensures Finalize(lib, o, ctx, SessionState(data, prev1)) == Finalize(lib, o, ctx, SessionState(data, prev2))
  {
  }

  /**
   * The decision does not depend on the request: a no-op is a no-op on every
   * context; two contexts on which `finalize` succeeds give the same
   * instruction up to the `secure` flag; with a static flag the outcome is
   * the same on every context.
   */
  lemma FinalizeContextIndependent<Ctx>(lib: Library, o: Options<Ctx>, c1: Ctx, c2: Ctx, s: SessionState)
    ensures Finalize(lib, o, c1, s) == Success(NoInstr) ==> Finalize(lib, o, c2, s) == Success(NoInstr)
    ensures Finalize(lib, o, c1, s).Success? && Finalize(lib, o, c2, s).Success?
            && Finalize(lib, o, c1, s).value.SetCookie? ==>
              var i1 := Finalize(lib, o, c1, s).value;
              var i2 := Finalize(lib, o, c2, s).value;
              i2.SetCookie? && i1.name == i2.name && i1.value == i2.value
              && i1.attrs.(secure := false) == i2.attrs.(secure := false)
    ensures o.secure.Static? ==> Finalize(lib, o, c1, s) == Finalize(lib, o, c2, s)
  {
  }

  /** `loadData`: `null` without the named cookie, otherwise `deserialize` of its value. */
  function LoadData<Ctx>(lib: Library, o: Options<Ctx>, cookies: Cookies, newId: nat): (r: Result<Value, JsError>)
    ensures o.name !in cookies ==> r == Success(Null)
    ensures o.name in cookies ==> r == Deserialize(lib, o.secret, cookies[o.name], newId)
    ensures r.Success? ==> !r.value.Undefined?
  {
    if o.name !in cookies then Success(Null)
    else Deserialize(lib, o.secret, cookies[o.name], newId)
  }

  /**
   * A request that leaves loaded session data untouched re-issues the very
   * token it received (or throws, if the `secure` predicate does).
   */
  lemma TouchReissuesToken<Ctx>(lib: Library, o: Options<Ctx>, ctx: Ctx, cookies: Cookies, data: Value, newId: nat)
    requires Lawful(lib)
    requires !IsNullish(data) && JsonOf(data) != Some(JNull)
    requires o.name in cookies && cookies[o.name] == Serialize(lib, o.secret, data).value
    ensures LoadData(lib, o, cookies, newId).Success?
    ensures GetCookieOptions(o, ctx).Success? ==>
              var loaded := LoadData(lib, o, cookies, newId).value;
              Finalize(lib, o, ctx, SessionState(loaded, loaded))
              == Success(SetCookie(o.name, cookies[o.name], GetCookieOptions(o, ctx).value))
  {
    // The round trip of the received token; without it the proof is seed-dependent.
    DecodeSerialize(lib, o.secret, data);
  }

  /** Saving `{message: 'Hello, World!'}` with only a secret configured: the default attributes. */
  lemma DefaultSaveScenario<Ctx>(lib: Library, ctx: Ctx, id: nat, prev: Value)
    requires !StrictEquals(Ref(id, HelloWorld()), prev)
    ensures var o := Configure(OnlySecret<Ctx>("test"));
            var r := Finalize(lib, o, ctx, SessionState(Ref(id, HelloWorld()), prev));
            r.Success? && r.value.SetCookie? && r.value.name == "session"
            && r.value.value == Serialize(lib, "test", Ref(id, HelloWorld())).value
            && r.value.attrs == CookieAttributes(false, 86400, None, true, "/", None)
  {
  }

  /** Clearing a loaded session with only a secret configured: an empty, expired cookie. */
  lemma DefaultDestroyScenario<Ctx>(lib: Library, ctx: Ctx, prev: Value)
    requires !prev.Null?
    ensures var o := Configure(OnlySecret<Ctx>("test"));
            Finalize(lib, o, ctx, SessionState(Null, prev))
            == Success(SetCookie("session", "", CookieAttributes(false, 0, None, true, "/", None)))
  {
  }

  /** A `secure` predicate answering true makes the saved cookie secure. */
  lemma DynamicSecureScenario<Ctx>(lib: Library, ctx: Ctx, id: nat, prev: Value)
    requires !StrictEquals(Ref(id, HelloWorld()), prev)
    ensures var input := OnlySecret<Ctx>("test").(secure := Some(Dynamic((c: Ctx) => Some(true))));
            var r := Finalize(lib, Configure(input), ctx, SessionState(Ref(id, HelloWorld()), prev));
            r.Success? && r.value.SetCookie?
            && r.value.attrs == CookieAttributes(true, 86400, None, true, "/", None)
  {
  }

  /** `{message: 'Hello, World!'}` as JSON. */
  function HelloWorld(): Json {
    JObject([("message", JString("Hello, World!"))])
  }
}
