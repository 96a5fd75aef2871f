/** The `jblocal` authentication strategy: it reads an email, a password and
    two flags (isGuest, isOc) from a request body, rejects a non-guest
    request that lacks an email or a password with a 400 failure, and
    otherwise hands a fixed-shape credentials record to the application's
    verify callback, whose completion it turns into exactly one of the host
    framework's signals: success, fail or error. */
module JbLocal {
  import opened Wrappers
  import opened ParseInt

  // ---------------------------------------------------------------------
  // Values the strategy reads and produces

  /** The request body as the field lookup sees it: every field path that
      resolves to a string maps to that string; a path that resolves to
      nothing is absent. */
  type Body = map<string, string>

  /** The incoming request; the strategy reads only its body. */
  datatype Request = Request(body: Body)

  /** An application value (an error, a user, an info object) that the
      strategy never inspects beyond its truthiness: `id` tells values
      apart, `truthy` is JavaScript's ToBoolean of the value. */
  datatype AppValue = AppValue(id: int, truthy: bool)

  /** The credentials record handed to verify; the key casing is part of
      the contract with the application. */
  datatype FormData = FormData(Email: string, IsGuest: bool, IsOC: bool, Password: string)

  /** The arguments verify is called with, before the completion callback:
      `(req, formData, done)` or `(formData, done)`. */
  datatype Invocation =
    | WithRequest(req: Request, formData: FormData)
    | WithoutRequest(formData: FormData)

  /** What the application's verify does with one invocation: it completes
      with `done(err, user, info)`, or it throws synchronously. */
  datatype Completion =
    | Done(err: AppValue, user: AppValue, info: AppValue)
    | Threw(ex: AppValue)

  /** The application's verify callback, as the completion it gives for each
      argument list. */
  type VerifyFn = Invocation -> Completion

  /** The first argument of `fail`: the strategy's own `{message: ...}`, or
      the `info` the application passed to `done`. */
  datatype Challenge = Message(message: string) | Info(info: AppValue)

  /** The host framework's signals; a call of authenticate emits one. */
  datatype Signal =
    | Success(user: AppValue, info: AppValue)
    | Fail(challenge: Challenge, status: Option<nat>)
    | Error(err: AppValue)

  // ---------------------------------------------------------------------
  // Construction

  /** The options object given to the constructor. A field name that is
      absent is None; `passReqToCallback` is the truthiness of that option. */
  datatype StrategyOptions = StrategyOptions(
    emailField: Option<string>,
    passwordField: Option<string>,
    isGuestField: Option<string>,
    isOcField: Option<string>,
    passReqToCallback: bool)

  /** `{}`. */
  const NoOptions := StrategyOptions(None, None, None, None, false)

  /** The first constructor argument: left out, the verify function itself
      (the short call shape), or an options object. */
  datatype OptionsArg = Omitted | VerifyFirst(f: VerifyFn) | Given(options: StrategyOptions)

  /** The TypeErrors construction throws: the strategy's own when there is
      no verify callback, and the engine's when the options argument is
      undefined and its `emailField` is read. */
  datatype TypeError = RequiresVerify(message: string) | ReadOfUndefined(property: string)

  const RequiresVerifyMessage := "JbLocalStrategy requires a verify callback"

  /** The field names and the request-forwarding flag fixed at construction. */
  datatype Config = Config(
    emailField: string,
    passwordField: string,
    isGuestField: string,
    isOcField: string,
    passReqToCallback: bool)

  /** The default field names, no request forwarding. */
  const Defaults := Config("email", "password", "isGuest", "isOc", false)

  /** What a successful construction stores. */
  datatype Setup = Setup(config: Config, verify: VerifyFn)

  /** JavaScript's `v || fallback` for a value that is a string or
      undefined: the value when it is a non-empty string, else `fallback`. */
  function Or(v: Option<string>, fallback: string): string {
    if v.Some? && v.value != "" then v.value else fallback
  }

  /** The field names the options choose: a given non-empty option wins,
      and an absent or empty one falls back to its default. */
  function Resolve(o: StrategyOptions): (c: Config)
    ensures o.emailField.Some? && o.emailField.value != "" ==> c.emailField == o.emailField.value
    ensures o.emailField.None? || o.emailField.value == "" ==> c.emailField == "email"
    ensures o.passwordField.Some? && o.passwordField.value != "" ==> c.passwordField == o.passwordField.value
    ensures o.passwordField.None? || o.passwordField.value == "" ==> c.passwordField == "password"
    ensures o.isGuestField.Some? && o.isGuestField.value != "" ==> c.isGuestField == o.isGuestField.value
    ensures o.isGuestField.None? || o.isGuestField.value == "" ==> c.isGuestField == "isGuest"
    ensures o.isOcField.Some? && o.isOcField.value != "" ==> c.isOcField == o.isOcField.value
    ensures o.isOcField.None? || o.isOcField.value == "" ==> c.isOcField == "isOc"
    ensures c.passReqToCallback == o.passReqToCallback
  {
    Config(
      Or(o.emailField, "email"),
      Or(o.passwordField, "password"),
      Or(o.isGuestField, "isGuest"),
      Or(o.isOcField, "isOc"),
      o.passReqToCallback)
  }

  /** Every resolved field name is non-empty, and `{}` resolves to the
      defaults. */
  lemma ResolvedFieldNames(o: StrategyOptions)
    ensures var c := Resolve(o);
      && c.emailField != "" && c.passwordField != ""
      && c.isGuestField != "" && c.isOcField != ""
    ensures Resolve(NoOptions) == Defaults
  {
  }

  /** The constructor's decisions: which argument is verify, which options
      apply, and when it throws. */
  function Construct(options: OptionsArg, verify: Option<VerifyFn>): (r: Result<Setup, TypeError>)
    ensures r == Err(RequiresVerify(RequiresVerifyMessage)) <==> !options.VerifyFirst? && verify.None?
    ensures options.VerifyFirst? ==> r == Ok(Setup(Defaults, options.f))
    ensures options.Given? && verify.Some? ==>
      r == Ok(Setup(Resolve(options.options), verify.value))
    ensures options.Omitted? && verify.Some? ==> r == Err(ReadOfUndefined("emailField"))
  {
    match options
    case VerifyFirst(f) => Ok(Setup(Resolve(NoOptions), f))
    case Omitted =>
      if verify.None? then Err(RequiresVerify(RequiresVerifyMessage)) else Err(ReadOfUndefined("emailField"))
    case Given(o) =>
      if verify.None? then Err(RequiresVerify(RequiresVerifyMessage)) else Ok(Setup(Resolve(o), verify.value))
  }

  // ---------------------------------------------------------------------
  // Authentication

  /** The value the lookup finds for `field`, or None. */
  function Lookup(body: Body, field: string): Option<string> {
    if field in body then Some(body[field]) else None
  }

  /** The string parseInt sees for a flag: `lookup(...) || 0` turns a missing
      or empty value into the number 0, and parseInt's ToString makes that
      "0". */
  function FlagArgument(v: Option<string>): string {
    Or(v, "0")
  }

  /** A flag as the strategy coerces it:
      `(parseInt(v, 10) === 0) ? false : true`. */
  predicate Flag(v: Option<string>) {
    !ParsesToZero(FlagArgument(v))
  }

  /** The message of the missing-credentials failure. */
  const MissingCredentials := "Missing credentials"

  /** The per-call options of authenticate; `options || {}` makes an absent
      options object the same as one without a message. */
  datatype AuthOptions = AuthOptions(badRequestMessage: Option<string>)

  /** The record built from the body: the email and password found, or ""
      when absent, and the two coerced flags. */
  function Credentials(config: Config, body: Body): (r: FormData)
    ensures r.Email == Lookup(body, config.emailField).GetOr("")
    ensures r.Password == Lookup(body, config.passwordField).GetOr("")
    ensures config.isGuestField !in body ==> !r.IsGuest
    ensures config.isOcField !in body ==> !r.IsOC
    ensures var g := Lookup(body, config.isGuestField);
      !r.IsGuest <==> g.None? || g.value == "" || exists i, j, e :: ZeroSpelling(g.value, i, j, e)
    ensures var o := Lookup(body, config.isOcField);
      !r.IsOC <==> o.None? || o.value == "" || exists i, j, e :: ZeroSpelling(o.value, i, j, e)
  {
    ZeroExamples();
    FlagFalseIff(Lookup(body, config.isGuestField));
    FlagFalseIff(Lookup(body, config.isOcField));
    FormData(
      Or(Lookup(body, config.emailField), ""),
      Flag(Lookup(body, config.isGuestField)),
      Flag(Lookup(body, config.isOcField)),
      Or(Lookup(body, config.passwordField), ""))
  }

  /** What authenticate does before the verify callback runs: fail with 400,
      or call verify with these arguments. */
  datatype Decision = Reject(message: string, status: nat) | Invoke(args: Invocation)

  /** Authenticate's decision for a request. A request whose isGuest does not
      parse to a nonzero number must carry both an email and a password;
      otherwise verify is called with the record, preceded by the request
      when the configuration forwards it. */
  function Decide(config: Config, req: Request, options: AuthOptions): (d: Decision)
    ensures var r := Credentials(config, req.body);
      d.Reject? <==> !r.IsGuest && (r.Email == "" || r.Password == "")
    ensures d.Reject? ==> d.status == 400
    ensures d.Reject? ==> d.message == Or(options.badRequestMessage, MissingCredentials)
    ensures d.Invoke? ==> d.args.formData == Credentials(config, req.body)
    ensures d.Invoke? ==> (d.args.WithRequest? <==> config.passReqToCallback)
    ensures d.Invoke? && d.args.WithRequest? ==> d.args.req == req
  {
    var formData := Credentials(config, req.body);
    var isGuest := FlagArgument(Lookup(req.body, config.isGuestField));
    if ParsesToZero(isGuest) && (formData.Email == "" || formData.Password == "") then
      Reject(Or(options.badRequestMessage, MissingCredentials), 400)
    else if config.passReqToCallback then
      Invoke(WithRequest(req, formData))
    else
      Invoke(WithoutRequest(formData))
  }

  /** The `verified` callback: a truthy error wins, then a falsy user fails,
      and only a truthy user succeeds. */
  function Verified(err: AppValue, user: AppValue, info: AppValue): (s: Signal)
    ensures s.Error? <==> err.truthy
    ensures s.Error? ==> s.err == err
    ensures s.Fail? <==> !err.truthy && !user.truthy
    ensures s.Fail? ==> s == Fail(Info(info), None)
    ensures s.Success? ==> s == Success(user, info) && user.truthy
  {
    if err.truthy then Error(err)
    else if !user.truthy then Fail(Info(info), None)
    else Success(user, info)
  }

  /** The signal for a completion of verify, with a synchronous throw caught
      and reported as an error. */
  function Outcome(c: Completion): (s: Signal)
    ensures s.Error? <==> c.Threw? || c.err.truthy
    ensures c.Threw? ==> s == Error(c.ex)
    ensures c.Done? ==> s == Verified(c.err, c.user, c.info)
    ensures s.Fail? ==> s.status.None?
  {
    match c
    case Threw(ex) => Error(ex)
    case Done(err, user, info) => Verified(err, user, info)
  }

  // ---------------------------------------------------------------------
  // Properties of authentication

  /** A flag is false exactly when its value is absent, empty, or spelled as
      a zero (white space, an optional sign, zeros, then the end or a
      non-digit). Any other value, including one that parses to NaN such as
      "abc", makes the flag true. */
  lemma FlagFalseIff(v: Option<string>)
    ensures !Flag(v) <==>
      v.None? || v.value == "" || exists i, j, e :: ZeroSpelling(v.value, i, j, e)
  {
    ZeroExamples();
    if v.Some? && v.value != "" {
      ParsesToZeroIff(v.value);
    }
  }

  /** A request whose isGuest is absent, empty or a zero, and that lacks an
      email or a password, fails with 400 and the configured message, and
      verify is not called. */
  lemma RejectsMissingCredentials(config: Config, req: Request, options: AuthOptions)
    requires var g := Lookup(req.body, config.isGuestField);
      g.None? || g.value == "" || exists i, j, e :: ZeroSpelling(g.value, i, j, e)
    requires Lookup(req.body, config.emailField).GetOr("") == ""
      || Lookup(req.body, config.passwordField).GetOr("") == ""
    ensures Decide(config, req, options) == Reject(Or(options.badRequestMessage, MissingCredentials), 400)
  {
    FlagFalseIff(Lookup(req.body, config.isGuestField));
  }

  /** A guest request, that is one whose isGuest does not parse to 0, skips
      the presence check: verify is called even with no email and no
      password. */
  lemma GuestSkipsPresenceCheck(config: Config, req: Request, options: AuthOptions)
    requires Flag(Lookup(req.body, config.isGuestField))
    ensures Decide(config, req, options).Invoke?
    ensures Decide(config, req, options).args.formData.IsGuest
  {
  }

  /** Verify is never called for a non-guest without both an email and a
      password: the gate and the coercion use the same parseInt test. */
  lemma NonGuestInvocationHasCredentials(config: Config, req: Request, options: AuthOptions)
    requires Decide(config, req, options).Invoke?
    requires !Decide(config, req, options).args.formData.IsGuest
    ensures Decide(config, req, options).args.formData.Email != ""
    ensures Decide(config, req, options).args.formData.Password != ""
  {
  }

  /** A member login: `{email: "a@b.com", password: "p", isGuest: "0",
      isOc: "0"}` reaches verify as `{Email: "a@b.com", IsGuest: false,
      IsOC: false, Password: "p"}`. */
  lemma MemberLoginExample()
    ensures Decide(Defaults, Request(map["email" := "a@b.com", "password" := "p", "isGuest" := "0", "isOc" := "0"]), AuthOptions(None))
      == Invoke(WithoutRequest(FormData("a@b.com", false, false, "p")))
  {
    ZeroExamples();
  }

  /** A guest login `{isGuest: "1"}` reaches verify with empty credentials. */
  lemma GuestLoginExample()
    ensures Decide(Defaults, Request(map["isGuest" := "1"]), AuthOptions(None))
      == Invoke(WithoutRequest(FormData("", true, false, "")))
  {
    OneExample();
    ZeroExamples();
  }

  /** A malformed isGuest such as "abc" parses to NaN, so it counts as a
      guest and skips the presence check too. */
  lemma MalformedGuestExample(config: Config, req: Request, options: AuthOptions)
    requires Lookup(req.body, config.isGuestField) == Some("abc")
    ensures Decide(config, req, options).Invoke?
    ensures Decide(config, req, options).args.formData.IsGuest
  {
    NaNExamples();
    GuestSkipsPresenceCheck(config, req, options);
  }

  /** An empty body fails with the default message. */
  lemma EmptyBodyExample()
    ensures Decide(Defaults, Request(map[]), AuthOptions(None)) == Reject("Missing credentials", 400)
  {
    ZeroExamples();
  }

  // ---------------------------------------------------------------------
  // The strategy object

  /** A constructed strategy. Its fields are set once, by construction, and
      never written again. */
  class Strategy {
    const name: string
    const emailField: string
    const passwordField: string
    const isGuestField: string
    const isOcField: string
    const verify: VerifyFn
    const passReqToCallback: bool

    /** The configuration the fields hold. */
    function Configuration(): Config {
      Config(emailField, passwordField, isGuestField, isOcField, passReqToCallback)
    }

    /** Stores a resolved configuration and the verify callback. */
    constructor (setup: Setup)
      ensures name == "jblocal"
      ensures Configuration() == setup.config && verify == setup.verify
    {
      name := "jblocal";
      emailField := setup.config.emailField;
      passwordField := setup.config.passwordField;
      isGuestField := setup.config.isGuestField;
      isOcField := setup.config.isOcField;
      verify := setup.verify;
      passReqToCallback := setup.config.passReqToCallback;
    }

    /** `new Strategy(options, verify)`: throws the TypeError Construct
      gives, or yields a fresh strategy holding what Construct resolved. */
    static method New(options: OptionsArg, verify: Option<VerifyFn>) returns (r: Result<Strategy, TypeError>)
      ensures r.Err? <==> Construct(options, verify).Err?
      ensures r.Err? ==> r.error == Construct(options, verify).error
      ensures r.Ok? ==> fresh(r.value) && r.value.name == "jblocal"
      ensures r.Ok? ==> Construct(options, verify) == Ok(Setup(r.value.Configuration(), r.value.verify))
    {
      var c := Construct(options, verify);
      match c
      case Err(e) =>
        r := Err(e);
      case Ok(setup) =>
        var s := new Strategy(setup);
        r := Ok(s);
    }

    /** `strategy.authenticate(req, options)`: the signal it emits. A
      rejected request fails with status 400 without calling verify; any
      other request emits the signal for verify's completion, and only that
      path fails without a status. */
    function Authenticate(req: Request, options: AuthOptions): (s: Signal)
      ensures var d := Decide(Configuration(), req, options);
        && (d.Reject? ==> s == Fail(Message(d.message), Some(400)))
        && (d.Invoke? ==> s == Outcome(verify(d.args)))
      ensures s.Fail? && s.status.Some? <==> Decide(Configuration(), req, options).Reject?
    {
      match Decide(Configuration(), req, options)
      case Reject(message, status) => Fail(Message(message), Some(status))
      case Invoke(args) => Outcome(verify(args))
    }
  }
}
