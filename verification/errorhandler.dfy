/**
 * `getSafeErrorMessage`: maps whatever was thrown, plus an optional context
 * key, to one of a fixed set of user-facing strings, so that table names,
 * column names and other internals never reach the screen.
 */
module ErrorHandler {
  import opened Wrappers
  import opened JsText

  /** The `error: unknown` argument, as far as the function can observe it. */
  datatype Thrown =
    | Falsy                        // undefined, null, false, 0, NaN or "": `!error` holds
    | ErrorObject(message: string) // an `Error` instance, read through `.message`
    | OtherValue(text: string)     // any other truthy value, as rendered by `String(error)`

  /** The text the rules are matched against. */
  function ErrorText(e: Thrown): string
    requires !e.Falsy?
  {
    match e
    case ErrorObject(m) => m
    case OtherValue(t) => t
  }

  /** The lower-cased error text. */
  function Lower(e: Thrown): string
    requires !e.Falsy?
  {
    ToLower(ErrorText(e))
  }

  // Context fallbacks.
  const AddFallback: string := "Unable to save. Please try again."
  const UpdateFallback: string := "Unable to update. Please try again."
  const DeleteFallback: string := "Unable to delete. Please try again."
  const AuthFallback: string := "Authentication failed. Please check your credentials."
  const FetchFallback: string := "Unable to load data. Please try again."
  const DefaultFallback: string := "Something went wrong. Please try again."

  /** The own properties of the `fallbackMessages` table. */
  const FallbackMessages: map<string, string> := map[
    "add" := AddFallback,
    "update" := UpdateFallback,
    "delete" := DeleteFallback,
    "auth" := AuthFallback,
    "fetch" := FetchFallback,
    "default" := DefaultFallback
  ]

  // Replies of the substring rules.
  const BadCredentialsReply: string := "Invalid email or password."
  const AlreadyRegisteredReply: string := "An account with this email already exists."
  const WeakPasswordReply: string := "Password is too weak. Please use a stronger password."
  const BadEmailReply: string := "Please enter a valid email address."
  const NetworkReply: string := "Network error. Please check your connection and try again."
  const PermissionReply: string := "You don't have permission to perform this action."
  const NotFoundReply: string := "The requested item was not found."
  const DuplicateReply: string := "This item already exists."
  const TimeoutReply: string := "Request timed out. Please try again."

  /** Every string the function may return. */
  const SafeMessages: set<string> := {
    AddFallback, UpdateFallback, DeleteFallback, AuthFallback, FetchFallback, DefaultFallback,
    BadCredentialsReply, AlreadyRegisteredReply, WeakPasswordReply, BadEmailReply, NetworkReply,
    PermissionReply, NotFoundReply, DuplicateReply, TimeoutReply
  }

  /** `context || 'default'`: a missing or empty context selects "default". */
  function ContextKey(context: Option<string>): (k: string)
    ensures k != []
    ensures context.Some? && context.value != [] ==> k == context.value
    ensures context.None? ==> k == "default"
    ensures context == Some("") ==> k == "default"
  {
    if context.None? || context.value == [] then "default" else context.value
  }

  /**
   * The base message: the table entry for the context key, or the default
   * entry when the table has no such key. The key is looked up among the
   * table's OWN entries (see `AsWrittenBaseMessage` for the inherited ones).
   */
  function BaseMessage(context: Option<string>): (r: string)
    ensures r in FallbackMessages.Values
  {
    var key := ContextKey(context);
    assert FallbackMessages["default"] == DefaultFallback;
    if key in FallbackMessages then FallbackMessages[key] else DefaultFallback
  }

  /** `getSafeErrorMessage(error, context)`. */
  function GetSafeErrorMessage(error: Thrown, context: Option<string>): (r: string)
    ensures r in SafeMessages
    ensures error.Falsy? ==> r == BaseMessage(context)
  {
    var base := BaseMessage(context);
    if error.Falsy? then base else MatchRules(ToLower(ErrorText(error)), base)
  }

  /** The ordered substring rules applied to the lower-cased text. */
  function MatchRules(lower: string, base: string): (r: string)
    ensures r == base || r in SafeMessages
  {
    if Contains(lower, "invalid login credentials") || Contains(lower, "invalid email or password") then
      BadCredentialsReply
    else if Contains(lower, "email already registered") || Contains(lower, "user already registered") then
      AlreadyRegisteredReply
    else if Contains(lower, "password") && Contains(lower, "weak") then
      WeakPasswordReply
    else if Contains(lower, "email") && (Contains(lower, "invalid") || Contains(lower, "format")) then
      BadEmailReply
    else if Contains(lower, "network") || Contains(lower, "fetch") then
      NetworkReply
    else if Contains(lower, "unauthorized") || Contains(lower, "permission") then
      PermissionReply
    else if Contains(lower, "not found") then
      NotFoundReply
    else if Contains(lower, "duplicate") || Contains(lower, "already exists") then
      DuplicateReply
    else if Contains(lower, "timeout") then
      TimeoutReply
    else
      base
  }

  // ---------------------------------------------------------------------
  // Reference definition: an ordered rule list, first match wins.
  // ---------------------------------------------------------------------

  /** The substring rules, by the condition each tests. */
  datatype Rule =
    | BadCredentials | AlreadyRegistered | WeakPassword | BadEmail | Network
    | Permission | NotFound | Duplicate | Timeout

  /** The order in which the rules are tried. */
  const RuleOrder: seq<Rule> :=
    [BadCredentials, AlreadyRegistered, WeakPassword, BadEmail, Network,
     Permission, NotFound, Duplicate, Timeout]

  /** Some pattern of `pats` occurs in `lower`. */
  predicate AnyOf(lower: string, pats: seq<string>) {
    exists i :: 0 <= i < |pats| && Contains(lower, pats[i])
  }

  /** Whether a rule's condition holds of the lower-cased text. */
  predicate Matches(rule: Rule, lower: string) {
    match rule
    case BadCredentials => AnyOf(lower, ["invalid login credentials", "invalid email or password"])
    case AlreadyRegistered => AnyOf(lower, ["email already registered", "user already registered"])
    case WeakPassword => Contains(lower, "password") && Contains(lower, "weak")
    case BadEmail => Contains(lower, "email") && AnyOf(lower, ["invalid", "format"])
    case Network => AnyOf(lower, ["network", "fetch"])
    case Permission => AnyOf(lower, ["unauthorized", "permission"])
    case NotFound => Contains(lower, "not found")
    case Duplicate => AnyOf(lower, ["duplicate", "already exists"])
    case Timeout => Contains(lower, "timeout")
  }

  /** The reply a rule produces. */
  function Reply(rule: Rule): string {
    match rule
    case BadCredentials => BadCredentialsReply
    case AlreadyRegistered => AlreadyRegisteredReply
    case WeakPassword => WeakPasswordReply
    case BadEmail => BadEmailReply
    case Network => NetworkReply
    case Permission => PermissionReply
    case NotFound => NotFoundReply
    case Duplicate => DuplicateReply
    case Timeout => TimeoutReply
  }

  /** The reply of the first rule in `rules` that matches, if any. */
  function FirstMatch(rules: seq<Rule>, lower: string): Option<string> {
    if rules == [] then None
    else if Matches(rules[0], lower) then Some(Reply(rules[0]))
    else FirstMatch(rules[1..], lower)
  }

  /** The first matching rule of a list decides its result. */
  lemma {:induction false} FirstMatchIsLeast(rules: seq<Rule>, lower: string, k: nat)
    requires k < |rules| && Matches(rules[k], lower)
    requires forall j :: 0 <= j < k ==> !Matches(rules[j], lower)
    ensures FirstMatch(rules, lower) == Some(Reply(rules[k]))
  {
    if k > 0 {
      assert !Matches(rules[0], lower);
      FirstMatchIsLeast(rules[1..], lower, k - 1);
    }
  }

  /** A list none of whose rules matches yields nothing. */
  lemma {:induction false} FirstMatchNone(rules: seq<Rule>, lower: string)
    requires forall j :: 0 <= j < |rules| ==> !Matches(rules[j], lower)
    ensures FirstMatch(rules, lower) == None
  {
    if rules != [] {
      assert !Matches(rules[0], lower);
      FirstMatchNone(rules[1..], lower);
    }
  }

  /** One step of `FirstMatch` along a list. */
  lemma FirstMatchFrom(rules: seq<Rule>, lower: string, k: nat)
    requires k < |rules|
    ensures FirstMatch(rules[k..], lower)
            == if Matches(rules[k], lower) then Some(Reply(rules[k])) else FirstMatch(rules[k + 1..], lower)
  {
    assert rules[k..][1..] == rules[k + 1..];
  }

  /** The cascade of `if`s is exactly first-match-wins over `RuleOrder`. */
  lemma CascadeIsFirstMatch(error: Thrown, context: Option<string>)
    requires !error.Falsy?
    ensures GetSafeErrorMessage(error, context) == FirstMatch(RuleOrder, Lower(error)).GetOr(BaseMessage(context))
  {
    var lower := Lower(error);
    assert RuleOrder[0..] == RuleOrder;
    assert RuleOrder[9..] == [];
    FirstMatchFrom(RuleOrder, lower, 0);
    FirstMatchFrom(RuleOrder, lower, 1);
    FirstMatchFrom(RuleOrder, lower, 2);
    FirstMatchFrom(RuleOrder, lower, 3);
    FirstMatchFrom(RuleOrder, lower, 4);
    FirstMatchFrom(RuleOrder, lower, 5);
    FirstMatchFrom(RuleOrder, lower, 6);
    FirstMatchFrom(RuleOrder, lower, 7);
    FirstMatchFrom(RuleOrder, lower, 8);
    AnyOfPair(lower, "invalid login credentials", "invalid email or password");
    AnyOfPair(lower, "email already registered", "user already registered");
    AnyOfPair(lower, "invalid", "format");
    AnyOfPair(lower, "network", "fetch");
    AnyOfPair(lower, "unauthorized", "permission");
    AnyOfPair(lower, "duplicate", "already exists");
  }

  lemma AnyOfPair(lower: string, a: string, b: string)
    ensures AnyOf(lower, [a, b]) <==> Contains(lower, a) || Contains(lower, b)
  {
    if Contains(lower, a) {
      assert Contains(lower, [a, b][0]);
    }
    if Contains(lower, b) {
      assert Contains(lower, [a, b][1]);
    }
  }

  /**
   * Precedence: when rule `k` is the first in order whose condition holds,
   * its reply is the result, whatever later rules also match.
   */
  lemma FirstMatchingRuleDecides(error: Thrown, context: Option<string>, k: nat)
    requires !error.Falsy?
    requires k < |RuleOrder| && Matches(RuleOrder[k], Lower(error))
    requires forall j :: 0 <= j < k ==> !Matches(RuleOrder[j], Lower(error))
    ensures GetSafeErrorMessage(error, context) == Reply(RuleOrder[k])
  {
    CascadeIsFirstMatch(error, context);
    FirstMatchIsLeast(RuleOrder, Lower(error), k);
  }

  /** An unrecognised message yields exactly the context's base message. */
  lemma UnrecognisedGetsBaseMessage(error: Thrown, context: Option<string>)
    requires !error.Falsy?
    requires forall j :: 0 <= j < |RuleOrder| ==> !Matches(RuleOrder[j], Lower(error))
    ensures GetSafeErrorMessage(error, context) == BaseMessage(context)
  {
    CascadeIsFirstMatch(error, context);
    FirstMatchNone(RuleOrder, Lower(error));
  }

  /** A missing, empty or unknown context key selects the default fallback. */
  lemma UnknownContextGetsDefault(context: Option<string>)
    requires context.None? || context.value !in {"add", "update", "delete", "auth", "fetch"}
    ensures BaseMessage(context) == DefaultFallback
  {
  }

  /** A falsy error yields the fallback of its context, for each known key. */
  lemma FalsyErrorGetsContextFallback()
    ensures GetSafeErrorMessage(Falsy, Some("add")) == AddFallback
    ensures GetSafeErrorMessage(Falsy, Some("update")) == UpdateFallback
    ensures GetSafeErrorMessage(Falsy, Some("delete")) == DeleteFallback
    ensures GetSafeErrorMessage(Falsy, Some("auth")) == AuthFallback
    ensures GetSafeErrorMessage(Falsy, Some("fetch")) == FetchFallback
    ensures GetSafeErrorMessage(Falsy, None) == DefaultFallback
  {
  }

  /**
   * Only the lower-cased text of a thrown value matters: two values whose
   * texts agree once lower-cased get the same result.
   */
  lemma SameLowerSameMessage(e1: Thrown, e2: Thrown, context: Option<string>)
    requires !e1.Falsy? && !e2.Falsy? && Lower(e1) == Lower(e2)
    ensures GetSafeErrorMessage(e1, context) == GetSafeErrorMessage(e2, context)
  {
  }

  /**
   * Matching ignores case: upper-casing or lower-casing a message, or
   * throwing it as a non-Error value, changes nothing.
   */
  lemma CaseInsensitive(m: string, context: Option<string>)
    ensures GetSafeErrorMessage(ErrorObject(ToUpper(m)), context) == GetSafeErrorMessage(ErrorObject(m), context)
    ensures GetSafeErrorMessage(ErrorObject(ToLower(m)), context) == GetSafeErrorMessage(ErrorObject(m), context)
    ensures GetSafeErrorMessage(OtherValue(m), context) == GetSafeErrorMessage(ErrorObject(m), context)
  {
    ToLowerOfToUpper(m);
    ToLowerIdempotent(m);
    assert Lower(ErrorObject(ToUpper(m))) == Lower(ErrorObject(m));
    assert Lower(ErrorObject(ToLower(m))) == Lower(ErrorObject(m));
    SameLowerSameMessage(ErrorObject(ToUpper(m)), ErrorObject(m), context);
    SameLowerSameMessage(ErrorObject(ToLower(m)), ErrorObject(m), context);
    SameLowerSameMessage(OtherValue(m), ErrorObject(m), context);
  }

  /** The weak-password reply needs both "password" and "weak", and no earlier rule. */
  lemma WeakPasswordRule(error: Thrown, context: Option<string>)
    requires !error.Falsy?
    ensures GetSafeErrorMessage(error, context) == WeakPasswordReply <==>
      !Matches(BadCredentials, Lower(error)) && !Matches(AlreadyRegistered, Lower(error))
      && Contains(Lower(error), "password") && Contains(Lower(error), "weak")
  {
    var lower := Lower(error);
    AnyOfPair(lower, "invalid login credentials", "invalid email or password");
    AnyOfPair(lower, "email already registered", "user already registered");
  }

  /**
   * The email-format reply needs "email" together with "invalid" or
   * "format", and none of the three earlier rules.
   */
  lemma BadEmailRule(error: Thrown, context: Option<string>)
    requires !error.Falsy?
    ensures GetSafeErrorMessage(error, context) == BadEmailReply <==>
      !Matches(BadCredentials, Lower(error)) && !Matches(AlreadyRegistered, Lower(error))
      && !Matches(WeakPassword, Lower(error))
      && Contains(Lower(error), "email")
      && (Contains(Lower(error), "invalid") || Contains(Lower(error), "format"))
  {
    AnyOfPair(Lower(error), "invalid login credentials", "invalid email or password");
    AnyOfPair(Lower(error), "email already registered", "user already registered");
  }

  /** "network" or "fetch" gives the network reply unless an earlier rule matched. */
  lemma NetworkRule(error: Thrown, context: Option<string>)
    requires !error.Falsy?
    ensures GetSafeErrorMessage(error, context) == NetworkReply <==>
      !Matches(BadCredentials, Lower(error)) && !Matches(AlreadyRegistered, Lower(error))
      && !Matches(WeakPassword, Lower(error)) && !Matches(BadEmail, Lower(error))
      && (Contains(Lower(error), "network") || Contains(Lower(error), "fetch"))
  {
    var lower := Lower(error);
    AnyOfPair(lower, "invalid login credentials", "invalid email or password");
    AnyOfPair(lower, "email already registered", "user already registered");
    AnyOfPair(lower, "invalid", "format");
  }

  /** `p` inside `q`, and `q` inside `s`, puts `p` inside `s`. */
  lemma ContainsTransitive(s: string, q: string, p: string)
    requires Contains(s, q) && Contains(q, p)
    ensures Contains(s, p)
  {
    var i :| 0 <= i <= |s| - |q| && OccursAt(s, q, i);
    var j :| 0 <= j <= |q| - |p| && OccursAt(q, p, j);
    forall k | 0 <= k < |p|
      ensures s[i + j + k] == p[k]
    {
      assert s[i..i + |q|][j + k] == q[j + k];
      assert q[j..j + |p|][k] == p[k];
    }
    assert s[i + j..i + j + |p|] == p;
    ContainsAt(s, p, i + j);
  }

  /**
   * A message containing "invalid email or password", in any letter case,
   * also satisfies the later email-format rule, yet the credentials rule wins.
   */
  lemma InvalidEmailOrPasswordWins(error: Thrown, context: Option<string>)
    requires !error.Falsy? && Contains(Lower(error), "invalid email or password")
    ensures Matches(BadEmail, Lower(error))
    ensures GetSafeErrorMessage(error, context) == BadCredentialsReply
  {
    var lower := Lower(error);
    CredentialsPhraseWords(lower);
    AnyOfPair(lower, "invalid", "format");
  }

  /** Text containing "invalid email or password" contains "invalid" and "email". */
  lemma CredentialsPhraseWords(lower: string)
    requires Contains(lower, "invalid email or password")
    ensures Contains(lower, "invalid") && Contains(lower, "email")
  {
    var q := "invalid email or password";
    ContainsAt(q, "email", 8);
    ContainsAt(q, "invalid", 0);
    ContainsTransitive(lower, q, "email");
    ContainsTransitive(lower, q, "invalid");
  }

  // ---------------------------------------------------------------------
  // As written: the table lookup reads inherited properties too.
  // ---------------------------------------------------------------------

  /** Property names every plain JavaScript object inherits from `Object.prototype`. */
  const ObjectPrototypeMembers: set<string> := {
    "constructor", "hasOwnProperty", "isPrototypeOf", "propertyIsEnumerable",
    "toLocaleString", "toString", "valueOf", "__proto__",
    "__defineGetter__", "__defineSetter__", "__lookupGetter__", "__lookupSetter__"
  }

  /** A JavaScript value returned by the as-written function. */
  datatype JsValue = Text(s: string) | InheritedMember(name: string)

  /**
   * `fallbackMessages[context || 'default'] || fallbackMessages.default` as
   * JavaScript evaluates it: an inherited member is a function or object,
   * hence truthy, so it is returned in place of a message.
   */
  function AsWrittenBaseMessage(context: Option<string>): JsValue {
    var key := ContextKey(context);
    if key in FallbackMessages then Text(FallbackMessages[key])
    else if key in ObjectPrototypeMembers then InheritedMember(key)
    else Text(DefaultFallback)
  }

  /** The function as written, reading the table through the prototype chain. */
  function AsWrittenGetSafeErrorMessage(error: Thrown, context: Option<string>): JsValue {
    if error.Falsy? then AsWrittenBaseMessage(context)
    else
      match FirstMatch(RuleOrder, Lower(error))
      case Some(reply) => Text(reply)
      case None => AsWrittenBaseMessage(context)
  }

  /**
   * Every inherited name used as a context makes the as-written function
   * return a non-string for a falsy error; for "toString" it is that method.
   */
  lemma PrototypeContextLeaksNonString(key: string)
    requires key in ObjectPrototypeMembers
    ensures !AsWrittenGetSafeErrorMessage(Falsy, Some(key)).Text?
    ensures AsWrittenGetSafeErrorMessage(Falsy, Some("toString")) == InheritedMember("toString")
  {
  }

  /** Outside the inherited names the as-written function and the model agree. */
  lemma AsWrittenAgreesOffPrototype(error: Thrown, context: Option<string>)
    requires ContextKey(context) !in ObjectPrototypeMembers
    ensures AsWrittenGetSafeErrorMessage(error, context) == Text(GetSafeErrorMessage(error, context))
  {
    if !error.Falsy? {
      CascadeIsFirstMatch(error, context);
    }
  }
}
