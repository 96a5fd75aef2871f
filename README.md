# passport-jlocal strategy, modelled in Dafny

This project models the `jblocal` strategy of passport-jlocal (`lib/strategy.js`).
The strategy is a credential-extraction adapter for the passport middleware.
Its constructor fixes four body field names (`email`, `password`, `isGuest`, `isOc` by default) and a request-forwarding flag.
It throws a TypeError when no verify callback is given.
On each `authenticate(req, options)` it reads the four fields from the request body.
It coerces the two flags with `parseInt(x, 10) === 0 ? false : true`.
A request that is not a guest must carry both an email and a password, or it fails with status 400.
Otherwise the strategy calls the application's verify callback with the record `{Email, IsGuest, IsOC, Password}`.
The request is passed first when forwarding is configured.
The callback's completion becomes exactly one signal: `error`, `fail` or `success`.
In the model, `Strategy.Authenticate` returns one `Signal` value per call, so each call emits exactly one signal by construction.

Files:

- `wrappers.dfy`: `Option` (a value or JavaScript's `undefined`) and `Result` (a value or a thrown error).
- `parse_int.dfy`: ECMAScript's global `parseInt` with radix 10 on a string (section 19.2.5 of ECMA-262).
  It skips leading white space, takes an optional sign, and reads the longest run of decimal digits.
  It yields NaN when that run is empty.
  The main result is an exact characterisation of `parseInt(s, 10) === 0`.
- `strategy.dfy`: the strategy.
  The `Strategy` class holds the constructor's fields as `const`s, because they are set once and never written again.
  Construction is `Strategy.New`, which returns the TypeError instead of throwing.
  `Decide` models `authenticate` up to the verify call. `Verified` models the inner `verified` callback.
  `Outcome` adds the try/catch around verify. `Strategy.Authenticate` composes them.

The code is followed where the documentation differs from it:

- The doc comment of the constructor names a `usernameField` option. The code reads `emailField`, `passwordField`, `isGuestField` and `isOcField`; the model does too.
- Only the short call shape `new Strategy(verify)` may leave the options out.
  `new Strategy(undefined, verify)` reads `emailField` of `undefined` and throws a TypeError; the model returns `ReadOfUndefined("emailField")`.
- A flag that parses to NaN (`"abc"`) counts as true, so a malformed `isGuest` skips the credential check. The model keeps this behaviour.

## Model

| member | source | states |
|---|---|---|
| `ParseInt.TrimStartRemovesWhiteSpace` | lib/strategy.js:79 | parseInt's white-space trimming keeps a suffix of the input; everything it drops is white space, and what it keeps does not start with white space |
| `ParseInt.DigitPrefix` | lib/strategy.js:79 | the digits parseInt reads are the longest prefix made only of decimal digits |
| `ParseInt.DecimalValueZeroIff` | lib/strategy.js:79 | a digit run has value 0 exactly when every digit is '0' |
| `ParseInt.ParsesToZeroIff` | lib/strategy.js:79 | `parseInt(s, 10) === 0` holds exactly when s is white space, an optional sign, one or more zeros, then the end or a non-digit |
| `ParseInt.ParseIntSkipsWhiteSpace` | lib/strategy.js:85-86 | leading white space never changes what parseInt yields |
| `ParseInt.ParseIntOfDigits` | lib/strategy.js:85-86 | a plain digit run parses to its decimal value |
| `ParseInt.ParseIntOfNegatedDigits` | lib/strategy.js:85-86 | a digit run after '-' parses to the negated value |
| `ParseInt.ZeroExamples` | lib/strategy.js:79 | "0" and "-0" both give `=== 0` |
| `ParseInt.OneExample` | lib/strategy.js:85 | "1" parses to 1, so the flag is true |
| `ParseInt.NaNExamples` | lib/strategy.js:85 | "abc" and "" parse to NaN, which is not 0 |
| `JbLocal.Resolve` | lib/strategy.js:49-52 | each field name is the given option when it is non-empty, and its default `email`, `password`, `isGuest` or `isOc` when the option is absent or empty; the forwarding flag is the option's |
| `JbLocal.ResolvedFieldNames` | lib/strategy.js:49-52 | no resolved field name is empty, and `{}` resolves to the four defaults without forwarding |
| `JbLocal.Construct` | lib/strategy.js:43-57 | a verify function as first argument becomes verify with default options; without verify the result is the TypeError with message "JbLocalStrategy requires a verify callback"; options given with verify are resolved; undefined options with verify throw on reading `emailField` |
| `JbLocal.Strategy.constructor` | lib/strategy.js:49-57 | the strategy's name is `jblocal` and its fields hold the resolved field names, the forwarding flag and verify |
| `JbLocal.Strategy.New` | lib/strategy.js:42-58 | construction fails exactly when Construct throws, with the same error; otherwise it yields a fresh strategy holding what Construct resolved |
| `JbLocal.Credentials` | lib/strategy.js:74-93 | Email and Password are the looked-up value or ""; IsGuest (and likewise IsOC) is false exactly when its value is absent, empty or spelled as a zero, so `parseInt(v, 10) === 0`; an absent flag gives false |
| `JbLocal.Decide` | lib/strategy.js:73-109 | rejection happens exactly when the record is not a guest and lacks an email or a password; a rejection has status 400 and the given message when it is non-empty, else "Missing credentials"; otherwise verify gets the record, preceded by the request exactly when forwarding is on |
| `JbLocal.FlagFalseIff` | lib/strategy.js:76-86 | a flag is false exactly when its value is absent, empty or spelled as a zero; any other value, NaN included, makes it true |
| `JbLocal.RejectsMissingCredentials` | lib/strategy.js:79-82 | with isGuest absent, empty or zero, and email or password missing, the result is the 400 failure and verify is not called |
| `JbLocal.GuestSkipsPresenceCheck` | lib/strategy.js:79-86 | when isGuest does not parse to 0, verify is called with IsGuest true whatever the email and password |
| `JbLocal.NonGuestInvocationHasCredentials` | lib/strategy.js:79-93 | verify is never called with IsGuest false unless both Email and Password are non-empty |
| `JbLocal.MemberLoginExample` | lib/strategy.js:74-93 | `{email:"a@b.com", password:"p", isGuest:"0", isOc:"0"}` reaches verify as `{Email:"a@b.com", IsGuest:false, IsOC:false, Password:"p"}` |
| `JbLocal.GuestLoginExample` | lib/strategy.js:74-93 | `{isGuest:"1"}` reaches verify as `{Email:"", IsGuest:true, IsOC:false, Password:""}` |
| `JbLocal.MalformedGuestExample` | lib/strategy.js:79-86 | an isGuest of "abc" (NaN) also skips the check and gives IsGuest true |
| `JbLocal.EmptyBodyExample` | lib/strategy.js:79-82 | an empty body fails with "Missing credentials" and 400 |
| `JbLocal.Verified` | lib/strategy.js:98-102 | a truthy err gives `error(err)`; otherwise a falsy user gives `fail(info)` without a status; otherwise `success(user, info)` with a truthy user |
| `JbLocal.Outcome` | lib/strategy.js:104-112 | a synchronous throw gives `error(ex)`; a completion gives the `verified` signal; the signal is an error exactly when verify threw or reported a truthy error |
| `JbLocal.Strategy.Authenticate` | lib/strategy.js:71-113 | a rejected request emits the 400 failure; any other request emits the signal for verify's completion; a failure carries a status exactly when the request was rejected before verify |

## Left out

- `lookup` from `lib/utils.js` is not part of this model. The request body is represented by what the lookup yields: a map from each field path that resolves to a string, to that string. The nested, dotted-path traversal itself is not modelled.
- Body values other than strings (numbers, nested objects, arrays) are not modelled. JavaScript truthiness and `parseInt` are modelled only on strings and `undefined`. The number 0 that the code substitutes for a missing flag appears as its string "0", which is what `parseInt` converts it to.
- `ParseInt.ParseInt10`: its result is kept as a mathematical integer. Rounding to a double is not modelled, because it cannot make a nonzero value 0. JavaScript strings are UTF-16 code units; the model works on Unicode scalar values, so lone surrogates are not represented.
- The `passport-strategy` base class and `util.inherits` are framework plumbing. `success`, `fail` and `error` are the constructors of the `Signal` datatype.
- The verify callback is modelled as a total function from its argument list to one completion. Not modelled: a completion that arrives asynchronously or never arrives, `done` called more than once, and `done` called before verify throws (two signals).
- Error, user and info values are opaque. Only their identity and their truthiness are modelled.
- The `passReqToCallback` option is stored as its truthiness, because that is all the code tests (lib/strategy.js:105).
- Constructor arguments that are neither undefined, a function nor an options object (`null`, a truthy non-function verify) are not modelled.
- The TypeError thrown for undefined options carries an engine-specific message. The model records only the property being read.
