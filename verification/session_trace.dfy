/**
 * A client making a series of requests against the strategy: the cookie it
 * keeps between requests, what each request loads, and what it leaves.
 */
module SessionTrace {
  import opened Wrappers
  import opened JsValues
  import opened SigningLibrary
  import opened StrategyOptions
  import opened Codec
  import opened SignedCookieStrategy

  /**
   * The client's side of a cookie instruction, after section 5.3 of RFC 6265:
   * a cookie of the same name is replaced, and a `Max-Age` of zero or less
   * removes it.
   */
  function ApplyToJar(jar: Cookies, instr: Instr): (r: Cookies)
    ensures instr.SetCookie? && instr.attrs.maxAge <= 0 ==> instr.name !in r
    ensures instr.SetCookie? && instr.attrs.maxAge > 0 ==> instr.name in r && r[instr.name] == instr.value
    ensures forall n :: n in jar && (instr.NoInstr? || n != instr.name) ==> n in r && r[n] == jar[n]
  {
    match instr
    case NoInstr => jar
    case SetCookie(name, value, attrs) =>
      if attrs.maxAge <= 0 then jar - {name} else jar[name := value]
  }

  /** One request's session: the data it loaded and the data it ended with. */
  datatype Step = Step(loaded: Value, ended: Value)

  /** Application code: the session data at the end of a request, given what was loaded. */
  type Handler = Value -> Value

  /** One request of a series: its own context and the application code it runs. */
  datatype Visit<Ctx> = Visit(ctx: Ctx, handler: Handler)

  /**
   * One request: load the session from the jar, run the handler, finalize,
   * and let the client apply the instruction.
   */
  function Request<Ctx>(lib: Library, o: Options<Ctx>, ctx: Ctx, jar: Cookies, h: Handler, newId: nat)
    : (r: Result<(Step, Cookies), JsError>)
    ensures r.Success? ==> LoadData(lib, o, jar, newId) == Success(r.value.0.loaded)
    ensures r.Success? ==> r.value.0.ended == h(r.value.0.loaded)
    ensures r.Success? <==>
              && LoadData(lib, o, jar, newId).Success?
              && (SecureThrows(o.secure, ctx) ==>
                    var loaded := LoadData(lib, o, jar, newId).value;
                    Decide(SessionState(h(loaded), loaded)) == NoOp)
  {
    match LoadData(lib, o, jar, newId)
    case Failure(e) => Failure(e)
    case Success(loaded) =>
      var ended := h(loaded);
      match Finalize(lib, o, ctx, SessionState(ended, loaded))
      case Failure(e) => Failure(e)
      case Success(instr) => Success((Step(loaded, ended), ApplyToJar(jar, instr)))
  }

  /**
   * A series of requests, each on its own context; request `i` gives parsed
   * objects the identity `firstId + i`.
   */
  function Run<Ctx>(lib: Library, o: Options<Ctx>, jar: Cookies, vs: seq<Visit<Ctx>>, firstId: nat)
    : (r: Result<seq<Step>, JsError>)
    ensures r.Success? ==> |r.value| == |vs|
    ensures r.Success? ==> forall i :: 0 <= i < |vs| ==> r.value[i].ended == vs[i].handler(r.value[i].loaded)
    decreases |vs|
  {
    if |vs| == 0 then Success([])
    else
      match Request(lib, o, vs[0].ctx, jar, vs[0].handler, firstId)
      case Failure(e) => Failure(e)
      case Success((step, jar')) =>
        match Run(lib, o, jar', vs[1..], firstId + 1)
        case Failure(e) => Failure(e)
        case Success(rest) => Success([step] + rest)
  }

  /**
   * What the next request loads when a request ended with `v`: `null` for
   * `null` or `undefined`, otherwise a value with `v`'s JSON.
   */
  function Carry(v: Value, newId: nat): (r: Value)
    ensures !r.Undefined?
    ensures !IsNullish(v) ==> JsonOf(r) == JsonOf(v)
  {
    if IsNullish(v) then Null else FromJson(JsonOf(v).value, newId)
  }

  /** The jar's session cookie, if any, is one `deserialize` does not throw on. */
  ghost predicate Loadable<Ctx>(lib: Library, o: Options<Ctx>, jar: Cookies) {
    o.name in jar ==> Decode(lib, o.secret, jar[o.name]).Success?
  }

  /**
   * A loaded value that is `null` comes back as `null` from the same jar
   * under any identity.
   */
  lemma NullLoadIsStable<Ctx>(lib: Library, o: Options<Ctx>, jar: Cookies, id1: nat, id2: nat)
    requires LoadData(lib, o, jar, id1) == Success(Null)
    ensures LoadData(lib, o, jar, id2) == Success(Null)
  {
  }

  /**
   * One request from a loadable jar does not throw unless the `secure`
   * predicate does; when it completes it leaves a loadable jar, and the next
   * request loads from it what this one ended with.
   */
  lemma RequestCarriesSession<Ctx>(lib: Library, o: Options<Ctx>, ctx: Ctx, jar: Cookies, h: Handler, newId: nat, nextId: nat)
    requires Lawful(lib) && o.maxAge > 0
    requires Loadable(lib, o, jar)
    ensures !SecureThrows(o.secure, ctx) ==> Request(lib, o, ctx, jar, h, newId).Success?
    ensures Request(lib, o, ctx, jar, h, newId).Success? ==>
              && Loadable(lib, o, Request(lib, o, ctx, jar, h, newId).value.1)
              && LoadData(lib, o, Request(lib, o, ctx, jar, h, newId).value.1, nextId)
                 == Success(Carry(Request(lib, o, ctx, jar, h, newId).value.0.ended, nextId))
  {
    var loaded := LoadData(lib, o, jar, newId).value;
    var ended := h(loaded);
    var s := SessionState(ended, loaded);
    if Request(lib, o, ctx, jar, h, newId).Success? {
      var jar' := Request(lib, o, ctx, jar, h, newId).value.1;
      match Decide(s)
      case NoOp =>
        StrictEqualNullishAreEqual(ended, loaded);
        assert jar' == jar;
        NullLoadIsStable(lib, o, jar, newId, nextId);
      case Destroy =>
        assert o.name !in jar';
      case Touch =>
        DecodeSerialize(lib, o.secret, ended);
        assert jar'[o.name] == Serialize(lib, o.secret, ended).value;
      case Save =>
        DecodeSerialize(lib, o.secret, ended);
        assert jar'[o.name] == Serialize(lib, o.secret, ended).value;
    }
  }

  /** Each step, after the first, loaded what the step before it ended with. */
  ghost predicate Chained(steps: seq<Step>, firstId: nat) {
    forall i :: 0 < i < |steps| ==> steps[i].loaded == Carry(steps[i - 1].ended, firstId + i)
  }

  /** A step followed by a chained series whose first load carries that step is chained. */
  lemma ChainedCons(step: Step, rest: seq<Step>, firstId: nat)
    requires Chained(rest, firstId + 1)
    requires |rest| > 0 ==> rest[0].loaded == Carry(step.ended, firstId + 1)
    ensures Chained([step] + rest, firstId)
  {
    var steps := [step] + rest;
    forall i | 0 < i < |steps|
      ensures steps[i].loaded == Carry(steps[i - 1].ended, firstId + i)
    {
      assert steps[i] == rest[i - 1];
      if i > 1 {
        assert steps[i - 1] == rest[i - 2];
      }
    }
  }

  /**
   * Across any series of requests from a loadable jar (a new client's empty
   * jar among them), each on its own context, nothing throws unless the
   * `secure` predicate throws on one of those contexts, and in every series
   * that completes each request loads what the one before it ended with:
   * the same JSON, or `null` after `null` or `undefined`.
   */
  lemma {:induction false} RunCarriesSession<Ctx>(lib: Library, o: Options<Ctx>, jar: Cookies, vs: seq<Visit<Ctx>>, firstId: nat)
    requires Lawful(lib) && o.maxAge > 0
    requires Loadable(lib, o, jar)
    ensures (forall i :: 0 <= i < |vs| ==> !SecureThrows(o.secure, vs[i].ctx)) ==> Run(lib, o, jar, vs, firstId).Success?
    ensures Run(lib, o, jar, vs, firstId).Success? && |vs| > 0 ==>
              Run(lib, o, jar, vs, firstId).value[0].loaded == LoadData(lib, o, jar, firstId).value
    ensures Run(lib, o, jar, vs, firstId).Success? ==> Chained(Run(lib, o, jar, vs, firstId).value, firstId)
    decreases |vs|
  {
    if |vs| > 0 {
      RequestCarriesSession(lib, o, vs[0].ctx, jar, vs[0].handler, firstId, firstId + 1);
      var req := Request(lib, o, vs[0].ctx, jar, vs[0].handler, firstId);
      if req.Success? {
        var step := req.value.0;
        var jar' := req.value.1;
        RunCarriesSession(lib, o, jar', vs[1..], firstId + 1);
        var tail := Run(lib, o, jar', vs[1..], firstId + 1);
        if tail.Success? {
          var rest := tail.value;
          assert Run(lib, o, jar, vs, firstId) == Success([step] + rest);
          ChainedCons(step, rest, firstId);
        }
      }
    }
  }

  /**
   * The integration scenario: a new client's first request stores
   * `{message: 'Hello, World!'}`, and the next request, on another context,
   * loads an object with that JSON.
   */
  lemma PostThenGet<Ctx>(lib: Library, postCtx: Ctx, getCtx: Ctx, post: Handler, get: Handler, id: nat)
    requires Lawful(lib)
    requires post(Null) == Ref(id, HelloWorld())
    ensures var o := Configure(OnlySecret<Ctx>("test"));
            var r := Run(lib, o, map[], [Visit(postCtx, post), Visit(getCtx, get)], 0);
            r.Success? && r.value[0].loaded == Null && r.value[1].loaded == Ref(1, HelloWorld())
  {
    var o := Configure(OnlySecret<Ctx>("test"));
    RunCarriesSession(lib, o, map[], [Visit(postCtx, post), Visit(getCtx, get)], 0);
  }
}
