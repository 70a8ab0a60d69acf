/** The rule-based error classifier: a fixed, ordered table of pattern rules and a
    first-match scan over the lower-cased message. */
module Rules {
  import opened Wrappers
  import opened Text

  datatype ErrorCategory = Type | Runtime | Network | Permission | Unknown

  /** The `Display` text of a category. */
  function CategoryName(c: ErrorCategory): string
  {
    match c
    case Type => "Type"
    case Runtime => "Runtime"
    case Network => "Network"
    case Permission => "Permission"
    case Unknown => "Unknown"
  }

  /** Distinct categories are displayed differently, each by its own name. */
  lemma CategoryNameInjective(a: ErrorCategory, b: ErrorCategory)
    ensures CategoryName(a) == CategoryName(b) <==> a == b
    ensures CategoryName(Type) == "Type" && CategoryName(Runtime) == "Runtime"
    ensures CategoryName(Network) == "Network" && CategoryName(Permission) == "Permission"
    ensures CategoryName(Unknown) == "Unknown"
  {
    if a != b {
      assert CategoryName(a)[0] != CategoryName(b)[0] || |CategoryName(a)| != |CategoryName(b)|;
    }
  }

  /** The outcome of classifying one message. */
  datatype ErrorAnalysis = ErrorAnalysis(category: ErrorCategory, retryable: bool, suggestion: string)

  /** One row of the table: lower-case patterns and what a match means. */
  datatype Rule = Rule(patterns: seq<string>, category: ErrorCategory, retryable: bool, suggestion: string)

  /** The rules in priority order; earlier rows win. */
  const RuleTable: seq<Rule> := [
    Rule(["permission denied"], Permission, false, "Check file permissions"),
    Rule(["access denied"], Permission, false, "Check access rights"),
    Rule(["connection refused"], Network, true, "Check if service is running"),
    Rule(["timeout", "timed out"], Network, true, "Retry or increase timeout"),
    Rule(["rate limit"], Network, true, "Wait and retry"),
    Rule(["dns", "resolve"], Network, true, "Check network connection"),
    Rule(["type error", "type mismatch"], Type, false, "Fix type annotations"),
    Rule(["cannot find", "not found"], Type, false, "Check imports and paths"),
    Rule(["undefined", "unresolved"], Type, false, "Check variable/module names"),
    Rule(["out of memory", "oom"], Runtime, false, "Reduce memory usage"),
    Rule(["stack overflow"], Runtime, false, "Check for infinite recursion"),
    Rule(["panic", "unwrap"], Runtime, false, "Add proper error handling")
  ]

  /** The answer when no rule matches. */
  const Fallback := ErrorAnalysis(Unknown, false, "Investigate error details")

  /** `patterns.iter().any(|p| lower.contains(p))` */
  function AnyPatternIn(patterns: seq<string>, lower: string): (r: bool)
    ensures r <==> exists i :: 0 <= i < |patterns| && Contains(lower, patterns[i])
  {
    if patterns == [] then false
    else Contains(lower, patterns[0]) || AnyPatternIn(patterns[1..], lower)
  }

  predicate Matches(rule: Rule, lower: string)
  {
    AnyPatternIn(rule.patterns, lower)
  }

  /** Index of the first rule of `rules` that matches `lower`, if any. */
  function FirstMatch(rules: seq<Rule>, lower: string): (r: Option<nat>)
    ensures r.Some? ==> r.value < |rules| && Matches(rules[r.value], lower)
    ensures r.Some? ==> forall j :: 0 <= j < r.value ==> !Matches(rules[j], lower)
    ensures r.None? <==> forall j :: 0 <= j < |rules| ==> !Matches(rules[j], lower)
  {
    if rules == [] then None
    else if Matches(rules[0], lower) then Some(0)
    else
      match FirstMatch(rules[1..], lower)
      case None => None
      case Some(k) =>
        assert forall j :: 1 <= j <= k ==> rules[j] == rules[1..][j - 1];
        Some(k + 1)
  }

  function AnalysisOf(rule: Rule): ErrorAnalysis
  {
    ErrorAnalysis(rule.category, rule.retryable, rule.suggestion)
  }

  /** Every row of the table is retryable exactly when it is a Network row. */
  lemma TableRetryableIffNetwork()
    ensures forall k :: 0 <= k < |RuleTable| ==>
      (RuleTable[k].retryable <==> RuleTable[k].category == Network)
  {
  }

  /** No row of the table has the Unknown category. */
  lemma TableHasNoUnknown()
    ensures forall k :: 0 <= k < |RuleTable| ==> RuleTable[k].category != Unknown
  {
  }

  /** `analyze_error`: the first matching rule of the table decides, else Unknown. */
  function AnalyzeError(message: string): (r: ErrorAnalysis)
    ensures r.retryable <==> r.category == Network
    ensures r.category == Unknown ==> r == Fallback
  {
    TableRetryableIffNetwork();
    TableHasNoUnknown();
    var lower := Lower(message);
    match FirstMatch(RuleTable, lower)
    case Some(k) => AnalysisOf(RuleTable[k])
    case None => Fallback
  }

  /** Rule `k` decides a message that it matches and no earlier rule matches. */
  lemma DecidedBy(message: string, k: nat)
    requires k < |RuleTable| && Matches(RuleTable[k], Lower(message))
    requires forall j :: 0 <= j < k ==> !Matches(RuleTable[j], Lower(message))
    ensures AnalyzeError(message) == AnalysisOf(RuleTable[k])
  {
  }

  /** No rule before the `k`-th matches when none of their patterns occurs, each
      pattern named in table order. */
  lemma NoMatchBefore(lower: string, k: nat)
    requires k <= |RuleTable|
    requires k > 0 ==> !Contains(lower, "permission denied")
    requires k > 1 ==> !Contains(lower, "access denied")
    requires k > 2 ==> !Contains(lower, "connection refused")
    requires k > 3 ==> !Contains(lower, "timeout") && !Contains(lower, "timed out")
    requires k > 4 ==> !Contains(lower, "rate limit")
    requires k > 5 ==> !Contains(lower, "dns") && !Contains(lower, "resolve")
    requires k > 6 ==> !Contains(lower, "type error") && !Contains(lower, "type mismatch")
    requires k > 7 ==> !Contains(lower, "cannot find") && !Contains(lower, "not found")
    requires k > 8 ==> !Contains(lower, "undefined") && !Contains(lower, "unresolved")
    requires k > 9 ==> !Contains(lower, "out of memory") && !Contains(lower, "oom")
    requires k > 10 ==> !Contains(lower, "stack overflow")
    requires k > 11 ==> !Contains(lower, "panic") && !Contains(lower, "unwrap")
    ensures forall j :: 0 <= j < k ==> !Matches(RuleTable[j], lower)
  {
  }

  /** Only the lower-cased message counts: lower-casing first changes nothing. */
  lemma AnalyzeErrorIgnoresCase(message: string)
    ensures AnalyzeError(Lower(message)) == AnalyzeError(message)
  {
    LowerIdempotent(message);
  }

  /** "permission denied" heads the table, so it wins over every later pattern. */
  lemma PermissionDeniedWins(message: string)
    requires Contains(Lower(message), "permission denied")
    ensures AnalyzeError(message) == ErrorAnalysis(Permission, false, "Check file permissions")
  {
    DecidedBy(message, 0);
  }

  /** A rule that matches bounds the index of the first match. */
  lemma FirstMatchAtMost(rules: seq<Rule>, lower: string, k: nat)
    requires k < |rules| && Matches(rules[k], lower)
    ensures FirstMatch(rules, lower).Some? && FirstMatch(rules, lower).value <= k
  {
  }

  /** Every message containing "unresolved" contains "resolve". */
  lemma UnresolvedContainsResolve(s: string)
    requires Contains(s, "unresolved")
    ensures Contains(s, "resolve")
  {
    var i: nat :| i <= |s| - 10 && OccursAt(s, "unresolved", i);
    assert s[i + 2..i + 9] == s[i..i + 10][2..9] == "resolve";
    assert OccursAt(s, "resolve", i + 2);
  }

  /** The six rules ahead of the dns/resolve rule are Permission or Network rules. */
  lemma EarlyRulesCategories()
    ensures forall k :: 0 <= k <= 5 ==> RuleTable[k].category in {Permission, Network}
    ensures RuleTable[5] == Rule(["dns", "resolve"], Network, true, "Check network connection")
  {
  }

  /** The "unresolved" pattern of the ninth rule never decides a result: every
      message containing it also contains "resolve", which the sixth rule catches. */
  lemma UnresolvedPatternIsDead(message: string)
    requires Contains(Lower(message), "unresolved")
    ensures FirstMatch(RuleTable, Lower(message)).Some?
    ensures FirstMatch(RuleTable, Lower(message)).value <= 5
    ensures AnalyzeError(message).category in {Permission, Network}
    ensures (forall j :: 0 <= j < 5 ==> !Matches(RuleTable[j], Lower(message)))
      ==> AnalyzeError(message) == ErrorAnalysis(Network, true, "Check network connection")
  {
    var lower := Lower(message);
    UnresolvedContainsResolve(lower);
    EarlyRulesCategories();
    assert Matches(RuleTable[5], lower);
    FirstMatchAtMost(RuleTable, lower, 5);
    if forall j :: 0 <= j < 5 ==> !Matches(RuleTable[j], lower) {
      DecidedBy(message, 5);
    }
  }

  /** A message of the ninth rule therefore always contains "undefined". */
  lemma NinthRuleNeedsUndefined(message: string)
    requires FirstMatch(RuleTable, Lower(message)) == Some(8)
    ensures Contains(Lower(message), "undefined")
  {
    if Contains(Lower(message), "unresolved") {
      UnresolvedPatternIsDead(message);
    }
  }

  /** A message no rule matches falls back to Unknown. */
  lemma NoMatchFallsBack(message: string)
    requires forall j :: 0 <= j < |RuleTable| ==> !Matches(RuleTable[j], Lower(message))
    ensures AnalyzeError(message) == Fallback
  {
  }
}
