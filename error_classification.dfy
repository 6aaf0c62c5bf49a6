/**
 * How the error service names a failure: the scope and severity `classify_error`
 * assigns from the exception's type name and message, and the retry policy each
 * scope is handled with.
 */
module ErrorClassification {
  import opened Common

  datatype Severity = Low | Medium | High | Critical {
    /** The enumeration's numeric value, which the retry loop compares. */
    function Value(): (v: int)
      ensures 1 <= v <= 4
    {
      match this
      case Low => 1
      case Medium => 2
      case High => 3
      case Critical => 4
    }
  }

  datatype Scope =
    | Network | Browser | Element | Auth | System | Timeout
    | Resource | Permission | Session | Interaction | Unknown

  /**
   * What the service looks at in an exception: its class name, `str(exception)`,
   * and whether it is an instance of `TimeoutError` (a fact about the class
   * hierarchy that the name alone does not settle).
   */
  datatype Failure = Failure(typeName: string, message: string, isTimeoutError: bool)

  datatype Classification = Classification(scope: Scope, severity: Severity)

  /** `any(p in s for p in patterns)`. */
  predicate AnyIn(s: string, patterns: seq<string>)
    decreases |patterns|
  {
    patterns != [] && (Contains(s, patterns[0]) || AnyIn(s, patterns[1..]))
  }

  /** Lower-casing twice is lower-casing once. */
  lemma LowerIdempotent(s: string)
    ensures Lower(Lower(s)) == Lower(s)
  {
    var l := Lower(s);
    assert forall i :: 0 <= i < |l| ==> Lower(l)[i] == LowerChar(LowerChar(s[i])) == l[i];
  }

  /** `classify_error`: the first matching rule, in the order the source checks them. */
  function Classify(f: Failure): (r: Classification)
    ensures r.severity == Medium || r.severity == High
    ensures r.severity == High <==> r.scope in {Browser, Auth, System, Resource}
    ensures r.scope != Permission
    ensures Contains(f.typeName, "TimeoutException") || Contains(Lower(f.message), "timeout")
            ==> r == Classification(Timeout, Medium)
  {
    var t := f.typeName;
    var m := Lower(f.message);
    if Contains(t, "TimeoutException") || Contains(m, "timeout") then
      Classification(Timeout, Medium)
    else if AnyIn(t, ["ConnectionError", "TimeoutError", "ConnectionRefusedError"])
         || AnyIn(m, ["network", "connection", "refused"]) then
      Classification(Network, Medium)
    else if Contains(Lower(m), "session") || Contains(Lower(m), "cookie") || Contains(Lower(m), "expired") then
      Classification(Session, Medium)
    else if Contains(t, "ElementNotInteractableException") || Contains(t, "ElementClickInterceptedException")
         || Contains(m, "not clickable") || Contains(m, "not interactable") then
      Classification(Interaction, Medium)
    else if Contains(t, "WebDriverException") || AnyIn(m, ["chrome", "browser", "driver", "selenium"]) then
      Classification(Browser, High)
    else if AnyIn(t, ["ElementNotVisibleException", "NoSuchElementException"])
         || AnyIn(m, ["element", "input", "form"]) then
      Classification(Element, Medium)
    else if AnyIn(m, ["auth", "login", "password", "credentials"]) then
      Classification(Auth, High)
    else if AnyIn(t, ["OSError", "IOError", "PermissionError"]) then
      Classification(System, High)
    else if Contains(m, "memory") || Contains(m, "resource") || Contains(m, "out of") then
      Classification(Resource, High)
    else
      Classification(Unknown, Medium)
  }

  // ---------------------------------------------------------------------------
  // The same classifier as a priority table

  /** A rule fires when the type name contains one of its type markers or the lower-cased message one of its message markers. */
  datatype Rule = Rule(typeMarkers: seq<string>, messageMarkers: seq<string>, result: Classification)

  predicate Fires(rule: Rule, f: Failure) {
    AnyIn(f.typeName, rule.typeMarkers) || AnyIn(Lower(f.message), rule.messageMarkers)
  }

  /** The rules in priority order. */
  const Rules: seq<Rule> := [
    Rule(["TimeoutException"], ["timeout"], Classification(Timeout, Medium)),
    Rule(["ConnectionError", "TimeoutError", "ConnectionRefusedError"], ["network", "connection", "refused"],
         Classification(Network, Medium)),
    Rule([], ["session", "cookie", "expired"], Classification(Session, Medium)),
    Rule(["ElementNotInteractableException", "ElementClickInterceptedException"], ["not clickable", "not interactable"],
         Classification(Interaction, Medium)),
    Rule(["WebDriverException"], ["chrome", "browser", "driver", "selenium"], Classification(Browser, High)),
    Rule(["ElementNotVisibleException", "NoSuchElementException"], ["element", "input", "form"],
         Classification(Element, Medium)),
    Rule([], ["auth", "login", "password", "credentials"], Classification(Auth, High)),
    Rule(["OSError", "IOError", "PermissionError"], [], Classification(System, High)),
    Rule([], ["memory", "resource", "out of"], Classification(Resource, High))
  ]

  /** The result of the first rule that fires; `Unknown`/`Medium` when none does. */
  function FirstMatch(rules: seq<Rule>, f: Failure): (r: Classification)
    ensures (exists i :: 0 <= i < |rules| && Fires(rules[i], f)) || r == Classification(Unknown, Medium)
    decreases |rules|
  {
    if rules == [] then Classification(Unknown, Medium)
    else if Fires(rules[0], f) then rules[0].result
    else FirstMatch(rules[1..], f)
  }

  /** A suffix of the table starting at a rule that fires answers with that rule. */
  lemma Hit(rules: seq<Rule>, f: Failure, k: nat)
    requires k < |rules| && Fires(rules[k], f)
    ensures FirstMatch(rules[k..], f) == rules[k].result
  {
    assert rules[k..][0] == rules[k];
  }

  /** A suffix of the table starting at a rule that does not fire answers as the next suffix. */
  lemma Skip(rules: seq<Rule>, f: Failure, k: nat)
    requires k < |rules| && !Fires(rules[k], f)
    ensures FirstMatch(rules[k..], f) == FirstMatch(rules[k + 1..], f)
  {
    assert rules[k..][0] == rules[k];
    assert rules[k..][1..] == rules[k + 1..];
  }

  lemma AnyIn1(s: string, a: string)
    ensures AnyIn(s, [a]) <==> Contains(s, a)
  {
    assert [a][1..] == [];
  }

  lemma AnyIn2(s: string, a: string, b: string)
    ensures AnyIn(s, [a, b]) <==> Contains(s, a) || Contains(s, b)
  {
    assert [a, b][1..] == [b];
    AnyIn1(s, b);
  }

  lemma AnyIn3(s: string, a: string, b: string, c: string)
    ensures AnyIn(s, [a, b, c]) <==> Contains(s, a) || Contains(s, b) || Contains(s, c)
  {
    assert [a, b, c][1..] == [b, c];
    AnyIn2(s, b, c);
  }

  /** Whether one of the first four rules (timeout, network, session, interaction) fires. */
  predicate EarlyRuleFires(f: Failure) {
    Fires(Rules[0], f) || Fires(Rules[1], f) || Fires(Rules[2], f) || Fires(Rules[3], f)
  }

  lemma EarlyRules(f: Failure)
    ensures EarlyRuleFires(f) ==> Classify(f) == FirstMatch(Rules, f)
    ensures !EarlyRuleFires(f) ==> FirstMatch(Rules, f) == FirstMatch(Rules[4..], f)
  {
    var t := f.typeName;
    var m := Lower(f.message);
    var r := Rules;
    LowerIdempotent(f.message);
    assert r[0..] == r;
    AnyIn1(t, "TimeoutException");
    AnyIn1(m, "timeout");
    if Fires(r[0], f) { Hit(r, f, 0); return; }
    Skip(r, f, 0);
    if Fires(r[1], f) { Hit(r, f, 1); return; }
    Skip(r, f, 1);
    AnyIn3(m, "session", "cookie", "expired");
    if Fires(r[2], f) { Hit(r, f, 2); return; }
    Skip(r, f, 2);
    AnyIn2(t, "ElementNotInteractableException", "ElementClickInterceptedException");
    AnyIn2(m, "not clickable", "not interactable");
    if Fires(r[3], f) { Hit(r, f, 3); return; }
    Skip(r, f, 3);
  }

  /** Whether one of the browser, element and auth rules fires. */
  predicate MiddleRuleFires(f: Failure) {
    Fires(Rules[4], f) || Fires(Rules[5], f) || Fires(Rules[6], f)
  }

  lemma MiddleRules(f: Failure)
    requires !EarlyRuleFires(f)
    ensures MiddleRuleFires(f) ==> Classify(f) == FirstMatch(Rules[4..], f)
    ensures !MiddleRuleFires(f) ==> FirstMatch(Rules[4..], f) == FirstMatch(Rules[7..], f)
  {
    var t := f.typeName;
    var m := Lower(f.message);
    var r := Rules;
    LowerIdempotent(f.message);
    AnyIn1(t, "TimeoutException");
    AnyIn1(m, "timeout");
    AnyIn3(m, "session", "cookie", "expired");
    AnyIn2(t, "ElementNotInteractableException", "ElementClickInterceptedException");
    AnyIn2(m, "not clickable", "not interactable");
    AnyIn1(t, "WebDriverException");
    if Fires(r[4], f) { Hit(r, f, 4); return; }
    Skip(r, f, 4);
    if Fires(r[5], f) { Hit(r, f, 5); return; }
    Skip(r, f, 5);
    if Fires(r[6], f) { Hit(r, f, 6); return; }
    Skip(r, f, 6);
  }

  lemma LateRules(f: Failure)
    requires !EarlyRuleFires(f) && !MiddleRuleFires(f)
    ensures Classify(f) == FirstMatch(Rules[7..], f)
  {
    var t := f.typeName;
    var m := Lower(f.message);
    var r := Rules;
    LowerIdempotent(f.message);
    AnyIn1(t, "TimeoutException");
    AnyIn1(m, "timeout");
    AnyIn3(m, "session", "cookie", "expired");
    AnyIn2(t, "ElementNotInteractableException", "ElementClickInterceptedException");
    AnyIn2(m, "not clickable", "not interactable");
    AnyIn1(t, "WebDriverException");
    if Fires(r[7], f) { Hit(r, f, 7); return; }
    Skip(r, f, 7);
    AnyIn3(m, "memory", "resource", "out of");
    if Fires(r[8], f) { Hit(r, f, 8); return; }
    Skip(r, f, 8);
    assert r[9..] == [];
  }

  /** The classifier is exactly the priority table: the first rule that fires decides. */
  lemma ClassifyIsFirstMatch(f: Failure)
    ensures Classify(f) == FirstMatch(Rules, f)
  {
    EarlyRules(f);
    if !EarlyRuleFires(f) {
      MiddleRules(f);
      if !MiddleRuleFires(f) {
        LateRules(f);
      }
    }
  }

  /** `handle_error`'s view: a `TimeoutError` instance or a message mentioning a timeout is a high-severity timeout. */
  function InitialClassification(f: Failure): (r: Classification)
    ensures r.severity.Value() >= Classify(f).severity.Value()
    ensures r.scope == Timeout <==> Classify(f).scope == Timeout || f.isTimeoutError
    ensures f.isTimeoutError || Contains(Lower(f.message), "timeout") ==> r == Classification(Timeout, High)
    ensures r.scope != Timeout ==> r == Classify(f)
  {
    if f.isTimeoutError || Contains(Lower(f.message), "timeout") then Classification(Timeout, High)
    else Classify(f)
  }

  // ---------------------------------------------------------------------------
  // Retry policies

  /** How many retries a scope gets, the base delay in seconds, and whether the delay doubles per attempt. */
  datatype Policy = Policy(maxRetries: nat, retryDelay: nat, exponentialBackoff: bool)

  /** The configured policy table; sessions and interactions have no entry of their own. */
  function PolicyTable(s: Scope): Option<Policy> {
    match s
    case Network => Some(Policy(3, 5, true))
    case Browser => Some(Policy(2, 3, true))
    case Element => Some(Policy(4, 2, true))
    case Auth => Some(Policy(3, 3, true))
    case System => Some(Policy(2, 10, true))
    case Timeout => Some(Policy(1, 10, false))
    case Resource => Some(Policy(2, 5, true))
    case Permission => Some(Policy(2, 5, true))
    case Unknown => Some(Policy(2, 5, true))
    case Session => None
    case Interaction => None
  }

  /** `error_policies.get(scope, error_policies[UNKNOWN])`. */
  function EffectivePolicy(s: Scope): (p: Policy)
    ensures 1 <= p.maxRetries <= 4 && 2 <= p.retryDelay <= 10
    ensures p.exponentialBackoff <==> s != Timeout
    ensures PolicyTable(s).None? ==> p == Policy(2, 5, true)
  {
    PolicyTable(s).GetOr(PolicyTable(Unknown).value)
  }
}
