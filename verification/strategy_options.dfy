/**
 * The strategy's configuration: the caller's options, the defaults spread
 * under them, and the cookie attributes computed from them per request.
 */
module StrategyOptions {
  import opened Wrappers
  import opened JsValues

  /**
   * `secure`: a fixed flag, or a predicate decided on the request context.
   * The predicate answers `None` where it throws.
   */
  datatype SecureFlag<!Ctx> = Static(on: bool) | Dynamic(decide: Ctx -> Option<bool>)

  /** `sameSite`: `true`, `false`, `'lax'`, `'strict'` or `'none'`. */
  datatype SameSite = SameSiteFlag(on: bool) | Lax | Strict | NoneSite

  /** What the caller hands the constructor; `None` is a key left out. */
  datatype StrategyInput<!Ctx> = StrategyInput(
    name: Option<string>,
    secret: string,
    secure: Option<SecureFlag<Ctx>>,
    maxAge: Option<int>,
    domain: Option<string>,
    httpOnly: Option<bool>,
    path: Option<string>,
    sameSite: Option<SameSite>)

  /** The options the strategy keeps: the five defaulted keys are always present. */
  datatype Options<!Ctx> = Options(
    name: string,
    secret: string,
    secure: SecureFlag<Ctx>,
    maxAge: int,
    domain: Option<string>,
    httpOnly: bool,
    path: string,
    sameSite: Option<SameSite>)

  /** The attributes of an outgoing cookie; `secure` is already decided. */
  datatype CookieAttributes = CookieAttributes(
    secure: bool,
    maxAge: int,
    domain: Option<string>,
    httpOnly: bool,
    path: string,
    sameSite: Option<SameSite>)

  const DefaultName: string := "session"
  const DefaultMaxAge: int := 86400
  const DefaultHttpOnly: bool := true
  const DefaultSecure: bool := false
  const DefaultPath: string := "/"

  /** The options of a caller who supplies nothing but the secret. */
  function OnlySecret<Ctx>(secret: string): StrategyInput<Ctx> {
    StrategyInput(None, secret, None, None, None, None, None, None)
  }

  /** Hands kept options back as caller options, every key supplied. */
  function AsInput<Ctx>(o: Options<Ctx>): StrategyInput<Ctx> {
    StrategyInput(Some(o.name), o.secret, Some(o.secure), Some(o.maxAge),
                  o.domain, Some(o.httpOnly), Some(o.path), o.sameSite)
  }

  /**
   * The constructor: the defaults with the caller's options spread over them.
   * A supplied key wins; a left-out defaulted key takes its default; the
   * keys without a default are the caller's as given.
   */
  function Configure<Ctx>(input: StrategyInput<Ctx>): (o: Options<Ctx>)
    ensures input.name.Some? ==> o.name == input.name.value
    ensures input.name.None? ==> o.name == DefaultName
    ensures input.maxAge.Some? ==> o.maxAge == input.maxAge.value
    ensures input.maxAge.None? ==> o.maxAge == DefaultMaxAge
    ensures input.httpOnly.Some? ==> o.httpOnly == input.httpOnly.value
    ensures input.httpOnly.None? ==> o.httpOnly == DefaultHttpOnly
    ensures input.secure.Some? ==> o.secure == input.secure.value
    ensures input.secure.None? ==> o.secure == Static(DefaultSecure)
    ensures input.path.Some? ==> o.path == input.path.value
    ensures input.path.None? ==> o.path == DefaultPath
    ensures o.secret == input.secret
    ensures o.domain == input.domain
    ensures o.sameSite == input.sameSite
  {
    Options(
      input.name.GetOr(DefaultName),
      input.secret,
      input.secure.GetOr(Static(DefaultSecure)),
      input.maxAge.GetOr(DefaultMaxAge),
      input.domain,
      input.httpOnly.GetOr(DefaultHttpOnly),
      input.path.GetOr(DefaultPath),
      input.sameSite)
  }

  /** Configuring is idempotent: kept options handed back in come out unchanged. */
  lemma ConfigureIsIdempotent<Ctx>(input: StrategyInput<Ctx>)
    ensures Configure(AsInput(Configure(input))) == Configure(input)
  {
  }

  /** A caller who gives only the secret gets exactly the documented defaults. */
  lemma ConfigureDefaults<Ctx>(secret: string)
    ensures Configure(OnlySecret<Ctx>(secret))
            == Options(DefaultName, secret, Static(DefaultSecure), DefaultMaxAge,
                       None, DefaultHttpOnly, DefaultPath, None)
  {
  }

  /** Whether deciding the `secure` flag throws on this request. */
  predicate SecureThrows<Ctx>(flag: SecureFlag<Ctx>, ctx: Ctx) {
    flag.Dynamic? && flag.decide(ctx).None?
  }

  /**
   * `getCookieOptions`: `secure` is the static flag or the predicate's answer
   * on this context, and a throwing predicate makes it throw; the other
   * attributes are the options' own.
   */
  function GetCookieOptions<Ctx>(o: Options<Ctx>, ctx: Ctx): (r: Result<CookieAttributes, JsError>)
    ensures r.Failure? <==> SecureThrows(o.secure, ctx)
    ensures r.Failure? ==> r.error == SecureThrew
    ensures r.Success? && o.secure.Static? ==> r.value.secure == o.secure.on
    ensures r.Success? && o.secure.Dynamic? ==> Some(r.value.secure) == o.secure.decide(ctx)
    ensures r.Success? ==> r.value.maxAge == o.maxAge
    ensures r.Success? ==> r.value.domain == o.domain
    ensures r.Success? ==> r.value.httpOnly == o.httpOnly
    ensures r.Success? ==> r.value.path == o.path
    ensures r.Success? ==> r.value.sameSite == o.sameSite
  {
    match o.secure
    case Static(b) => Success(CookieAttributes(b, o.maxAge, o.domain, o.httpOnly, o.path, o.sameSite))
    case Dynamic(f) =>
      match f(ctx)
      case None => Failure(SecureThrew)
      case Some(b) => Success(CookieAttributes(b, o.maxAge, o.domain, o.httpOnly, o.path, o.sameSite))
  }

  /**
   * The request context matters only through the `secure` predicate: two
   * contexts on which it answers give attributes that differ at most in
   * `secure`, and with a static flag the attributes are the same for every
   * request.
   */
  lemma AttributesDependOnContextOnlyThroughSecure<Ctx>(o: Options<Ctx>, c1: Ctx, c2: Ctx)
    ensures GetCookieOptions(o, c1).Success? && GetCookieOptions(o, c2).Success? ==>
              GetCookieOptions(o, c1).value.(secure := false) == GetCookieOptions(o, c2).value.(secure := false)
    ensures o.secure.Static? ==> GetCookieOptions(o, c1) == GetCookieOptions(o, c2)
  {
  }
}
