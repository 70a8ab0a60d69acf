/** The classifier on the messages of the unit tests of `analyze_error`.

    Each message is cut in two or three pieces, short enough to reason about one
    character at a time: a piece lemma lower-cases its piece and records which
    characters and adjacent pairs it lacks. A `Decided` lemma states, for any
    message at all, that lacking those characters and pairs while holding the
    deciding pattern fixes the result: every pattern of the earlier rules is ruled
    out by a character or a pair it would need. An `Example` joins the pieces of
    the test message and applies its `Decided` lemma. */
module RuleExamples {
  import opened Text
  import opened Rules

  /** `lx` is the lower-cased `x`, and it has no character of `cs` and no
      adjacent pair of `ps`. */
  predicate Piece(x: string, lx: string, cs: set<char>, ps: set<(char, char)>)
  {
    Lower(x) == lx && Avoids(lx, cs) && AvoidsPairs(lx, ps)
  }

  /** Two pieces make a message whose lower-cased form is theirs joined and lacks
      what both lack, provided the seam between them forms no listed pair. */
  lemma Joined(m: string, a: string, b: string, la: string, lb: string,
               cs: set<char>, ps: set<(char, char)>)
    requires m == a + b && Piece(a, la, cs, ps) && Piece(b, lb, cs, ps)
    requires la != [] && lb != [] ==> (la[|la| - 1], lb[0]) !in ps
    ensures Lower(m) == la + lb
    ensures Avoids(Lower(m), cs) && AvoidsPairs(Lower(m), ps)
  {
    LowerAppend(a, b);
    AvoidsAppend(la, lb, cs, ps);
  }

  /** The same for three pieces. */
  lemma Joined3(m: string, a: string, b: string, c: string,
                la: string, lb: string, lc: string, cs: set<char>, ps: set<(char, char)>)
    requires m == a + b + c && Piece(a, la, cs, ps) && Piece(b, lb, cs, ps) && Piece(c, lc, cs, ps)
    requires lb != []
    requires la != [] ==> (la[|la| - 1], lb[0]) !in ps
    requires lc != [] ==> (lb[|lb| - 1], lc[0]) !in ps
    ensures Lower(m) == la + lb + lc
    ensures Avoids(Lower(m), cs) && AvoidsPairs(Lower(m), ps)
  {
    Joined(a + b, a, b, la, lb, cs, ps);
    assert (la + lb)[|la + lb| - 1] == lb[|lb| - 1];
    Joined(m, a + b, c, la + lb, lc, cs, ps);
  }

  lemma PermissionDeniedHead()
    ensures Piece("permission denied", "permission denied", {}, {})
    ensures Contains("permission denied", "permission denied")
  {
    LowerIs("permission denied", "permission denied");
    assert OccursAt("permission denied", "permission denied", 0);
  }

  lemma PermissionDeniedTail()
    ensures Piece(": /etc/shadow", ": /etc/shadow", {}, {})
  {
    LowerIs(": /etc/shadow", ": /etc/shadow");
  }

  /** `permission_denied`: "permission denied: /etc/shadow" is decided by `RuleTable[0]`
      through "permission denied". */
  lemma PermissionDeniedExample(m: string)
    requires m == "permission denied: /etc/shadow"
    ensures AnalyzeError(m) == ErrorAnalysis(Permission, false, "Check file permissions")
  {
    PermissionDeniedHead();
    PermissionDeniedTail();
    Joined(m, "permission denied", ": /etc/shadow", "permission denied", ": /etc/shadow", {},
        {});
    ContainsAppend("permission denied", ": /etc/shadow", "permission denied");
    PermissionDeniedWins(m);
  }

  lemma AccessDeniedHead()
    ensures Piece("Access Denied ", "access denied ", {'m'}, {})
    ensures Contains("access denied ", "access denied")
  {
    LowerIs("Access Denied ", "access denied ");
    assert OccursAt("access denied ", "access denied", 0);
  }

  lemma AccessDeniedTail()
    ensures Piece("for resource X", "for resource x", {'m'}, {})
  {
    LowerIs("for resource X", "for resource x");
  }

  /** A message whose lower-cased form lacks the character 'm' but holds "access denied"
      is decided by `RuleTable[1]`. */
  lemma AccessDeniedDecided(m: string)
    requires Avoids(Lower(m), {'m'}) && AvoidsPairs(Lower(m), {})
    requires Contains(Lower(m), "access denied")
    ensures AnalyzeError(m) == ErrorAnalysis(Permission, false, "Check access rights")
  {
    var lower := Lower(m);
    var cs := {'m'};
    NotContainsAvoided(lower, "permission denied", 3, cs);
    NoMatchBefore(lower, 1);
    DecidedBy(m, 1);
  }

  /** `access_denied`: "Access Denied for resource X" is decided by `RuleTable[1]`
      through "access denied". */
  lemma AccessDeniedExample(m: string)
    requires m == "Access Denied for resource X"
    ensures AnalyzeError(m) == ErrorAnalysis(Permission, false, "Check access rights")
  {
    AccessDeniedHead();
    AccessDeniedTail();
    Joined(m, "Access Denied ", "for resource X", "access denied ", "for resource x", {'m'},
        {});
    ContainsAppend("access denied ", "for resource x", "access denied");
    AccessDeniedDecided(m);
  }

  lemma ConnectionRefusedHead()
    ensures Piece("connection refused", "connection refused", {'m'}, {('a', 'c')})
    ensures Contains("connection refused", "connection refused")
  {
    LowerIs("connection refused", "connection refused");
    assert OccursAt("connection refused", "connection refused", 0);
  }

  lemma ConnectionRefusedTail()
    ensures Piece(": localhost:5432", ": localhost:5432", {'m'}, {('a', 'c')})
  {
    LowerIs(": localhost:5432", ": localhost:5432");
  }

  /** A message whose lower-cased form lacks the character 'm' and the adjacent pair
      "ac" but holds "connection refused" is decided by `RuleTable[2]`. */
  lemma ConnectionRefusedDecided(m: string)
    requires Avoids(Lower(m), {'m'}) && AvoidsPairs(Lower(m), {('a', 'c')})
    requires Contains(Lower(m), "connection refused")
    ensures AnalyzeError(m) == ErrorAnalysis(Network, true, "Check if service is running")
  {
    var lower := Lower(m);
    var cs := {'m'};
    var ps := {('a', 'c')};
    NotContainsAvoided(lower, "permission denied", 3, cs);
    NotContainsAvoidedPair(lower, "access denied", 0, ps);
    NoMatchBefore(lower, 2);
    DecidedBy(m, 2);
  }

  /** `connection_refused`: "connection refused: localhost:5432" is decided by
      `RuleTable[2]` through "connection refused". */
  lemma ConnectionRefusedExample(m: string)
    requires m == "connection refused: localhost:5432"
    ensures AnalyzeError(m) == ErrorAnalysis(Network, true, "Check if service is running")
  {
    ConnectionRefusedHead();
    ConnectionRefusedTail();
    Joined(m, "connection refused", ": localhost:5432", "connection refused",
        ": localhost:5432", {'m'}, {('a', 'c')});
    ContainsAppend("connection refused", ": localhost:5432", "connection refused");
    ConnectionRefusedDecided(m);
  }

  lemma TimeoutHead()
    ensures Piece("request timed out", "request timed out", {'n'}, {})
    ensures Contains("request timed out", "timed out")
  {
    LowerIs("request timed out", "request timed out");
    assert OccursAt("request timed out", "timed out", 8);
  }

  lemma TimeoutTail()
    ensures Piece(" after 30s", " after 30s", {'n'}, {})
  {
    LowerIs(" after 30s", " after 30s");
  }

  /** A message whose lower-cased form lacks the character 'n' but holds "timed out" is
      decided by `RuleTable[3]`. */
  lemma TimeoutDecided(m: string)
    requires Avoids(Lower(m), {'n'}) && AvoidsPairs(Lower(m), {})
    requires Contains(Lower(m), "timed out")
    ensures AnalyzeError(m) == ErrorAnalysis(Network, true, "Retry or increase timeout")
  {
    var lower := Lower(m);
    var cs := {'n'};
    NotContainsAvoided(lower, "permission denied", 9, cs);
    NotContainsAvoided(lower, "access denied", 9, cs);
    NotContainsAvoided(lower, "connection refused", 2, cs);
    NoMatchBefore(lower, 3);
    DecidedBy(m, 3);
  }

  /** `timeout`: "request timed out after 30s" is decided by `RuleTable[3]` through
      "timed out". */
  lemma TimeoutExample(m: string)
    requires m == "request timed out after 30s"
    ensures AnalyzeError(m) == ErrorAnalysis(Network, true, "Retry or increase timeout")
  {
    TimeoutHead();
    TimeoutTail();
    Joined(m, "request timed out", " after 30s", "request timed out", " after 30s", {'n'}, {});
    ContainsAppend("request timed out", " after 30s", "timed out");
    TimeoutDecided(m);
  }

  lemma TimeoutVariantHead()
    ensures Piece("connectio", "connectio", {'d'}, {})
  {
    LowerIs("connectio", "connectio");
  }

  lemma TimeoutVariantTail()
    ensures Piece("n timeout", "n timeout", {'d'}, {})
    ensures Contains("n timeout", "timeout")
  {
    LowerIs("n timeout", "n timeout");
    assert OccursAt("n timeout", "timeout", 2);
  }

  /** A message whose lower-cased form lacks the character 'd' but holds "timeout" is
      decided by `RuleTable[3]`. */
  lemma TimeoutVariantDecided(m: string)
    requires Avoids(Lower(m), {'d'}) && AvoidsPairs(Lower(m), {})
    requires Contains(Lower(m), "timeout")
    ensures AnalyzeError(m) == ErrorAnalysis(Network, true, "Retry or increase timeout")
  {
    var lower := Lower(m);
    var cs := {'d'};
    NotContainsAvoided(lower, "permission denied", 11, cs);
    NotContainsAvoided(lower, "access denied", 7, cs);
    NotContainsAvoided(lower, "connection refused", 17, cs);
    NoMatchBefore(lower, 3);
    DecidedBy(m, 3);
  }

  /** `timeout_variant`: "connection timeout" is decided by `RuleTable[3]` through
      "timeout". */
  lemma TimeoutVariantExample(m: string)
    requires m == "connection timeout"
    ensures AnalyzeError(m) == ErrorAnalysis(Network, true, "Retry or increase timeout")
  {
    TimeoutVariantHead();
    TimeoutVariantTail();
    Joined(m, "connectio", "n timeout", "connectio", "n timeout", {'d'}, {});
    ContainsAppend("connectio", "n timeout", "timeout");
    TimeoutVariantDecided(m);
  }

  lemma RateLimitHead()
    ensures Piece("rate limit e", "rate limit e", {'o', 'n'}, {})
    ensures Contains("rate limit e", "rate limit")
  {
    LowerIs("rate limit e", "rate limit e");
    assert OccursAt("rate limit e", "rate limit", 0);
  }

  lemma RateLimitTail()
    ensures Piece("xceeded: 429", "xceeded: 429", {'o', 'n'}, {})
  {
    LowerIs("xceeded: 429", "xceeded: 429");
  }

  /** A message whose lower-cased form lacks the characters 'o' and 'n' but holds "rate
      limit" is decided by `RuleTable[4]`. */
  lemma RateLimitDecided(m: string)
    requires Avoids(Lower(m), {'o', 'n'}) && AvoidsPairs(Lower(m), {})
    requires Contains(Lower(m), "rate limit")
    ensures AnalyzeError(m) == ErrorAnalysis(Network, true, "Wait and retry")
  {
    var lower := Lower(m);
    var cs := {'o', 'n'};
    NotContainsAvoided(lower, "permission denied", 8, cs);
    NotContainsAvoided(lower, "access denied", 9, cs);
    NotContainsAvoided(lower, "connection refused", 1, cs);
    NotContainsAvoided(lower, "timeout", 4, cs);
    NotContainsAvoided(lower, "timed out", 6, cs);
    NoMatchBefore(lower, 4);
    DecidedBy(m, 4);
  }

  /** `rate_limit`: "rate limit exceeded: 429" is decided by `RuleTable[4]` through
      "rate limit". */
  lemma RateLimitExample(m: string)
    requires m == "rate limit exceeded: 429"
    ensures AnalyzeError(m) == ErrorAnalysis(Network, true, "Wait and retry")
  {
    RateLimitHead();
    RateLimitTail();
    Joined(m, "rate limit e", "xceeded: 429", "rate limit e", "xceeded: 429", {'o', 'n'}, {});
    ContainsAppend("rate limit e", "xceeded: 429", "rate limit");
    RateLimitDecided(m);
  }

  lemma DnsResolutionHead()
    ensures Piece("DNS lookup ", "dns lookup ", {'t'}, {('d', 'e')})
    ensures Contains("dns lookup ", "dns")
  {
    LowerIs("DNS lookup ", "dns lookup ");
    assert OccursAt("dns lookup ", "dns", 0);
  }

  lemma DnsResolutionMiddle()
    ensures Piece("failed for ap", "failed for ap", {'t'}, {('d', 'e')})
  {
    LowerIs("failed for ap", "failed for ap");
  }

  lemma DnsResolutionTail()
    ensures Piece("i.example.com", "i.example.com", {'t'}, {('d', 'e')})
  {
    LowerIs("i.example.com", "i.example.com");
  }

  /** A message whose lower-cased form lacks the character 't' and the adjacent pair
      "de" but holds "dns" is decided by `RuleTable[5]`. */
  lemma DnsResolutionDecided(m: string)
    requires Avoids(Lower(m), {'t'}) && AvoidsPairs(Lower(m), {('d', 'e')})
    requires Contains(Lower(m), "dns")
    ensures AnalyzeError(m) == ErrorAnalysis(Network, true, "Check network connection")
  {
    var lower := Lower(m);
    var cs := {'t'};
    var ps := {('d', 'e')};
    NotContainsAvoidedPair(lower, "permission denied", 11, ps);
    NotContainsAvoidedPair(lower, "access denied", 7, ps);
    NotContainsAvoided(lower, "connection refused", 6, cs);
    NotContainsAvoided(lower, "timeout", 0, cs);
    NotContainsAvoided(lower, "timed out", 0, cs);
    NotContainsAvoided(lower, "rate limit", 2, cs);
    NoMatchBefore(lower, 5);
    DecidedBy(m, 5);
  }

  /** The message, cut in its three pieces. */
  lemma DnsResolutionSplit(m: string)
    requires m == "DNS lookup failed for api.example.com"
    ensures m == "DNS lookup " + "failed for ap" + "i.example.com"
  {
  }

  /** `dns_resolution`: "DNS lookup failed for api.example.com" is decided by
      `RuleTable[5]` through "dns". */
  lemma DnsResolutionExample(m: string)
    requires m == "DNS lookup failed for api.example.com"
    ensures AnalyzeError(m) == ErrorAnalysis(Network, true, "Check network connection")
  {
    DnsResolutionSplit(m);
    DnsResolutionHead();
    DnsResolutionMiddle();
    DnsResolutionTail();
    Joined3(m, "DNS lookup ", "failed for ap", "i.example.com", "dns lookup ", "failed for ap",
        "i.example.com", {'t'}, {('d', 'e')});
    ContainsAppend3("dns lookup ", "failed for ap", "i.example.com", "dns");
    DnsResolutionDecided(m);
  }

  lemma TypeErrorHead()
    ensures Piece("type error: expe", "type error: expe", {'m', 'n', 'l'}, {})
    ensures Contains("type error: expe", "type error")
  {
    LowerIs("type error: expe", "type error: expe");
    assert OccursAt("type error: expe", "type error", 0);
  }

  lemma TypeErrorTail()
    ensures Piece("cted i32 got &str", "cted i32 got &str", {'m', 'n', 'l'}, {})
  {
    LowerIs("cted i32 got &str", "cted i32 got &str");
  }

  /** A message whose lower-cased form lacks the characters 'm', 'n' and 'l' but holds
      "type error" is decided by `RuleTable[6]`. */
  lemma TypeErrorDecided(m: string)
    requires Avoids(Lower(m), {'m', 'n', 'l'}) && AvoidsPairs(Lower(m), {})
    requires Contains(Lower(m), "type error")
    ensures AnalyzeError(m) == ErrorAnalysis(Type, false, "Fix type annotations")
  {
    var lower := Lower(m);
    var cs := {'m', 'n', 'l'};
    NotContainsAvoided(lower, "permission denied", 3, cs);
    NotContainsAvoided(lower, "access denied", 9, cs);
    NotContainsAvoided(lower, "connection refused", 2, cs);
    NotContainsAvoided(lower, "timeout", 2, cs);
    NotContainsAvoided(lower, "timed out", 2, cs);
    NotContainsAvoided(lower, "rate limit", 5, cs);
    NotContainsAvoided(lower, "dns", 1, cs);
    NotContainsAvoided(lower, "resolve", 4, cs);
    NoMatchBefore(lower, 6);
    DecidedBy(m, 6);
  }

  /** `type_error`: "type error: expected i32 got &str" is decided by `RuleTable[6]`
      through "type error". */
  lemma TypeErrorExample(m: string)
    requires m == "type error: expected i32 got &str"
    ensures AnalyzeError(m) == ErrorAnalysis(Type, false, "Fix type annotations")
  {
    TypeErrorHead();
    TypeErrorTail();
    Joined(m, "type error: expe", "cted i32 got &str", "type error: expe", "cted i32 got &str",
        {'m', 'n', 'l'}, {});
    ContainsAppend("type error: expe", "cted i32 got &str", "type error");
    TypeErrorDecided(m);
  }

  lemma NotFoundHead()
    ensures Piece("module 'foo", "module 'foo", {'i', 'r', 's'}, {})
  {
    LowerIs("module 'foo", "module 'foo");
  }

  lemma NotFoundTail()
    ensures Piece("' not found", "' not found", {'i', 'r', 's'}, {})
    ensures Contains("' not found", "not found")
  {
    LowerIs("' not found", "' not found");
    assert OccursAt("' not found", "not found", 2);
  }

  /** A message whose lower-cased form lacks the characters 'i', 'r' and 's' but holds
      "not found" is decided by `RuleTable[7]`. */
  lemma NotFoundDecided(m: string)
    requires Avoids(Lower(m), {'i', 'r', 's'}) && AvoidsPairs(Lower(m), {})
    requires Contains(Lower(m), "not found")
    ensures AnalyzeError(m) == ErrorAnalysis(Type, false, "Check imports and paths")
  {
    var lower := Lower(m);
    var cs := {'i', 'r', 's'};
    NotContainsAvoided(lower, "permission denied", 2, cs);
    NotContainsAvoided(lower, "access denied", 4, cs);
    NotContainsAvoided(lower, "connection refused", 7, cs);
    NotContainsAvoided(lower, "timeout", 1, cs);
    NotContainsAvoided(lower, "timed out", 1, cs);
    NotContainsAvoided(lower, "rate limit", 0, cs);
    NotContainsAvoided(lower, "dns", 2, cs);
    NotContainsAvoided(lower, "resolve", 0, cs);
    NotContainsAvoided(lower, "type error", 6, cs);
    NotContainsAvoided(lower, "type mismatch", 6, cs);
    NoMatchBefore(lower, 7);
    DecidedBy(m, 7);
  }

  /** `not_found`: "module 'foo' not found" is decided by `RuleTable[7]` through "not
      found". */
  lemma NotFoundExample(m: string)
    requires m == "module 'foo' not found"
    ensures AnalyzeError(m) == ErrorAnalysis(Type, false, "Check imports and paths")
  {
    NotFoundHead();
    NotFoundTail();
    Joined(m, "module 'foo", "' not found", "module 'foo", "' not found", {'i', 'r', 's'}, {});
    ContainsAppend("module 'foo", "' not found", "not found");
    NotFoundDecided(m);
  }

  lemma UndefinedVariableHead()
    ensures Piece("undefined refe", "undefined refe", {'s', 'm', 'p'}, {('n', 'o')})
    ensures Contains("undefined refe", "undefined")
  {
    LowerIs("undefined refe", "undefined refe");
    assert OccursAt("undefined refe", "undefined", 0);
  }

  lemma UndefinedVariableTail()
    ensures Piece("rence to 'bar'", "rence to 'bar'", {'s', 'm', 'p'}, {('n', 'o')})
  {
    LowerIs("rence to 'bar'", "rence to 'bar'");
  }

  /** A message whose lower-cased form lacks the characters 's', 'm' and 'p', and the
      adjacent pair "no" but holds "undefined" is decided by `RuleTable[8]`. */
  lemma UndefinedVariableDecided(m: string)
    requires Avoids(Lower(m), {'s', 'm', 'p'}) && AvoidsPairs(Lower(m), {('n', 'o')})
    requires Contains(Lower(m), "undefined")
    ensures AnalyzeError(m) == ErrorAnalysis(Type, false, "Check variable/module names")
  {
    var lower := Lower(m);
    var cs := {'s', 'm', 'p'};
    var ps := {('n', 'o')};
    NotContainsAvoided(lower, "permission denied", 0, cs);
    NotContainsAvoided(lower, "access denied", 4, cs);
    NotContainsAvoided(lower, "connection refused", 15, cs);
    NotContainsAvoided(lower, "timeout", 2, cs);
    NotContainsAvoided(lower, "timed out", 2, cs);
    NotContainsAvoided(lower, "rate limit", 7, cs);
    NotContainsAvoided(lower, "dns", 2, cs);
    NotContainsAvoided(lower, "resolve", 2, cs);
    NotContainsAvoided(lower, "type error", 2, cs);
    NotContainsAvoided(lower, "type mismatch", 2, cs);
    NotContainsAvoidedPair(lower, "cannot find", 3, ps);
    NotContainsAvoidedPair(lower, "not found", 0, ps);
    NoMatchBefore(lower, 8);
    DecidedBy(m, 8);
  }

  /** `undefined_variable`: "undefined reference to 'bar'" is decided by `RuleTable[8]`
      through "undefined". */
  lemma UndefinedVariableExample(m: string)
    requires m == "undefined reference to 'bar'"
    ensures AnalyzeError(m) == ErrorAnalysis(Type, false, "Check variable/module names")
  {
    UndefinedVariableHead();
    UndefinedVariableTail();
    Joined(m, "undefined refe", "rence to 'bar'", "undefined refe", "rence to 'bar'",
        {'s', 'm', 'p'}, {('n', 'o')});
    ContainsAppend("undefined refe", "rence to 'bar'", "undefined");
    UndefinedVariableDecided(m);
  }

  lemma OutOfMemoryHead()
    ensures Piece("fatal: ", "fatal: ", {'d', 'p', 's'}, {('i', 'm')})
  {
    LowerIs("fatal: ", "fatal: ");
  }

  lemma OutOfMemoryMiddle()
    ensures Piece("out of memory ", "out of memory ", {'d', 'p', 's'}, {('i', 'm')})
    ensures Contains("out of memory ", "out of memory")
  {
    LowerIs("out of memory ", "out of memory ");
    assert OccursAt("out of memory ", "out of memory", 0);
  }

  lemma OutOfMemoryTail()
    ensures Piece("allocating 1GB", "allocating 1gb", {'d', 'p', 's'}, {('i', 'm')})
  {
    LowerIs("allocating 1GB", "allocating 1gb");
  }

  /** A message whose lower-cased form lacks the characters 'd', 'p' and 's', and the
      adjacent pair "im" but holds "out of memory" is decided by `RuleTable[9]`. */
  lemma OutOfMemoryDecided(m: string)
    requires Avoids(Lower(m), {'d', 'p', 's'}) && AvoidsPairs(Lower(m), {('i', 'm')})
    requires Contains(Lower(m), "out of memory")
    ensures AnalyzeError(m) == ErrorAnalysis(Runtime, false, "Reduce memory usage")
  {
    var lower := Lower(m);
    var cs := {'d', 'p', 's'};
    var ps := {('i', 'm')};
    NotContainsAvoided(lower, "permission denied", 0, cs);
    NotContainsAvoided(lower, "access denied", 4, cs);
    NotContainsAvoided(lower, "connection refused", 15, cs);
    NotContainsAvoidedPair(lower, "timeout", 1, ps);
    NotContainsAvoided(lower, "timed out", 4, cs);
    NotContainsAvoidedPair(lower, "rate limit", 6, ps);
    NotContainsAvoided(lower, "dns", 0, cs);
    NotContainsAvoided(lower, "resolve", 2, cs);
    NotContainsAvoided(lower, "type error", 2, cs);
    NotContainsAvoided(lower, "type mismatch", 2, cs);
    NotContainsAvoided(lower, "cannot find", 10, cs);
    NotContainsAvoided(lower, "not found", 8, cs);
    NotContainsAvoided(lower, "undefined", 2, cs);
    NotContainsAvoided(lower, "unresolved", 4, cs);
    NoMatchBefore(lower, 9);
    DecidedBy(m, 9);
  }

  /** The message, cut in its three pieces. */
  lemma OutOfMemorySplit(m: string)
    requires m == "fatal: out of memory allocating 1GB"
    ensures m == "fatal: " + "out of memory " + "allocating 1GB"
  {
  }

  /** `out_of_memory`: "fatal: out of memory allocating 1GB" is decided by
      `RuleTable[9]` through "out of memory". */
  lemma OutOfMemoryExample(m: string)
    requires m == "fatal: out of memory allocating 1GB"
    ensures AnalyzeError(m) == ErrorAnalysis(Runtime, false, "Reduce memory usage")
  {
    OutOfMemorySplit(m);
    OutOfMemoryHead();
    OutOfMemoryMiddle();
    OutOfMemoryTail();
    Joined3(m, "fatal: ", "out of memory ", "allocating 1GB", "fatal: ", "out of memory ",
        "allocating 1gb", {'d', 'p', 's'}, {('i', 'm')});
    ContainsAppend3("fatal: ", "out of memory ", "allocating 1gb", "out of memory");
    OutOfMemoryDecided(m);
  }

  lemma StackOverflowHead()
    ensures Piece("thread 'main' h", "thread 'main' h", {'u', 'p'},
        {('e', 's'), ('a', 'n'), ('a', 't'), ('d', 'n'), ('o', 'm')})
  {
    LowerIs("thread 'main' h", "thread 'main' h");
  }

  lemma StackOverflowMiddle()
    ensures Piece("as overflowed it", "as overflowed it", {'u', 'p'},
        {('e', 's'), ('a', 'n'), ('a', 't'), ('d', 'n'), ('o', 'm')})
  {
    LowerIs("as overflowed it", "as overflowed it");
  }

  lemma StackOverflowTail()
    ensures Piece("s stack overflow", "s stack overflow", {'u', 'p'},
        {('e', 's'), ('a', 'n'), ('a', 't'), ('d', 'n'), ('o', 'm')})
    ensures Contains("s stack overflow", "stack overflow")
  {
    LowerIs("s stack overflow", "s stack overflow");
    assert OccursAt("s stack overflow", "stack overflow", 2);
  }

  /** A message whose lower-cased form lacks the characters 'u' and 'p', and the
      adjacent pairs "es", "an", "at", "dn" and "om" but holds "stack overflow" is
      decided by `RuleTable[10]`. */
  lemma StackOverflowDecided(m: string)
    requires Avoids(Lower(m), {'u', 'p'}) && AvoidsPairs(Lower(m),
        {('e', 's'), ('a', 'n'), ('a', 't'), ('d', 'n'), ('o', 'm')})
    requires Contains(Lower(m), "stack overflow")
    ensures AnalyzeError(m) == ErrorAnalysis(Runtime, false, "Check for infinite recursion")
  {
    var lower := Lower(m);
    var cs := {'u', 'p'};
    var ps := {('e', 's'), ('a', 'n'), ('a', 't'), ('d', 'n'), ('o', 'm')};
    NotContainsAvoided(lower, "permission denied", 0, cs);
    NotContainsAvoidedPair(lower, "access denied", 3, ps);
    NotContainsAvoided(lower, "connection refused", 14, cs);
    NotContainsAvoided(lower, "timeout", 5, cs);
    NotContainsAvoided(lower, "timed out", 7, cs);
    NotContainsAvoidedPair(lower, "rate limit", 1, ps);
    NotContainsAvoidedPair(lower, "dns", 0, ps);
    NotContainsAvoidedPair(lower, "resolve", 1, ps);
    NotContainsAvoided(lower, "type error", 2, cs);
    NotContainsAvoided(lower, "type mismatch", 2, cs);
    NotContainsAvoidedPair(lower, "cannot find", 1, ps);
    NotContainsAvoided(lower, "not found", 6, cs);
    NotContainsAvoided(lower, "undefined", 0, cs);
    NotContainsAvoided(lower, "unresolved", 0, cs);
    NotContainsAvoided(lower, "out of memory", 1, cs);
    NotContainsAvoidedPair(lower, "oom", 1, ps);
    NoMatchBefore(lower, 10);
    DecidedBy(m, 10);
  }

  /** The message, cut in its three pieces. */
  lemma StackOverflowSplit(m: string)
    requires m == "thread 'main' has overflowed its stack overflow"
    ensures m == "thread 'main' h" + "as overflowed it" + "s stack overflow"
  {
  }

  /** `stack_overflow`: "thread 'main' has overflowed its stack overflow" is decided by
      `RuleTable[10]` through "stack overflow". */
  lemma StackOverflowExample(m: string)
    requires m == "thread 'main' has overflowed its stack overflow"
    ensures AnalyzeError(m) == ErrorAnalysis(Runtime, false, "Check for infinite recursion")
  {
    StackOverflowSplit(m);
    StackOverflowHead();
    StackOverflowMiddle();
    StackOverflowTail();
    Joined3(m, "thread 'main' h", "as overflowed it", "s stack overflow", "thread 'main' h",
        "as overflowed it", "s stack overflow", {'u', 'p'}, {('e', 's'), ('a', 'n'), ('a', 't'),
        ('d', 'n'), ('o', 'm')});
    ContainsAppend3("thread 'main' h", "as overflowed it", "s stack overflow",
        "stack overflow");
    StackOverflowDecided(m);
  }

  lemma PanicUnwrapHead()
    ensures Piece("thread 'main' ", "thread 'main' ", {'s', 'f', 'y'}, {('i', 'm'), ('o', 'm')})
  {
    LowerIs("thread 'main' ", "thread 'main' ");
  }

  lemma PanicUnwrapMiddle()
    ensures Piece("panicked at 'call", "panicked at 'call", {'s', 'f', 'y'},
        {('i', 'm'), ('o', 'm')})
    ensures Contains("panicked at 'call", "panic")
  {
    LowerIs("panicked at 'call", "panicked at 'call");
    assert OccursAt("panicked at 'call", "panic", 0);
  }

  lemma PanicUnwrapTail()
    ensures Piece("ed unwrap on None'", "ed unwrap on none'", {'s', 'f', 'y'},
        {('i', 'm'), ('o', 'm')})
  {
    LowerIs("ed unwrap on None'", "ed unwrap on none'");
  }

  /** A message whose lower-cased form lacks the characters 's', 'f' and 'y', and the
      adjacent pairs "im" and "om" but holds "panic" is decided by `RuleTable[11]`. */
  lemma PanicUnwrapDecided(m: string)
    requires Avoids(Lower(m), {'s', 'f', 'y'}) && AvoidsPairs(Lower(m),
        {('i', 'm'), ('o', 'm')})
    requires Contains(Lower(m), "panic")
    ensures AnalyzeError(m) == ErrorAnalysis(Runtime, false, "Add proper error handling")
  {
    var lower := Lower(m);
    var cs := {'s', 'f', 'y'};
    var ps := {('i', 'm'), ('o', 'm')};
    NotContainsAvoided(lower, "permission denied", 5, cs);
    NotContainsAvoided(lower, "access denied", 4, cs);
    NotContainsAvoided(lower, "connection refused", 13, cs);
    NotContainsAvoidedPair(lower, "timeout", 1, ps);
    NotContainsAvoidedPair(lower, "timed out", 1, ps);
    NotContainsAvoidedPair(lower, "rate limit", 6, ps);
    NotContainsAvoided(lower, "dns", 2, cs);
    NotContainsAvoided(lower, "resolve", 2, cs);
    NotContainsAvoided(lower, "type error", 1, cs);
    NotContainsAvoided(lower, "type mismatch", 1, cs);
    NotContainsAvoided(lower, "cannot find", 7, cs);
    NotContainsAvoided(lower, "not found", 4, cs);
    NotContainsAvoided(lower, "undefined", 4, cs);
    NotContainsAvoided(lower, "unresolved", 4, cs);
    NotContainsAvoided(lower, "out of memory", 5, cs);
    NotContainsAvoidedPair(lower, "oom", 1, ps);
    NotContainsAvoided(lower, "stack overflow", 0, cs);
    NoMatchBefore(lower, 11);
    DecidedBy(m, 11);
  }

  /** The message, cut in its three pieces. */
  lemma PanicUnwrapSplit(m: string)
    requires m == "thread 'main' panicked at 'called unwrap on None'"
    ensures m == "thread 'main' " + "panicked at 'call" + "ed unwrap on None'"
  {
  }

  /** `panic_unwrap`: "thread 'main' panicked at 'called unwrap on None'" is decided by
      `RuleTable[11]` through "panic". */
  lemma PanicUnwrapExample(m: string)
    requires m == "thread 'main' panicked at 'called unwrap on None'"
    ensures AnalyzeError(m) == ErrorAnalysis(Runtime, false, "Add proper error handling")
  {
    PanicUnwrapSplit(m);
    PanicUnwrapHead();
    PanicUnwrapMiddle();
    PanicUnwrapTail();
    Joined3(m, "thread 'main' ", "panicked at 'call", "ed unwrap on None'", "thread 'main' ",
        "panicked at 'call", "ed unwrap on none'", {'s', 'f', 'y'}, {('i', 'm'), ('o', 'm')});
    ContainsAppend3("thread 'main' ", "panicked at 'call", "ed unwrap on none'", "panic");
    PanicUnwrapDecided(m);
  }

  lemma UnknownFallbackHead()
    ensures Piece("something co", "something co", {'r', 'f'},
        {('i', 'm'), ('n', 'i'), ('a', 't'), ('d', 'n'), ('o', 'o')})
  {
    LowerIs("something co", "something co");
  }

  lemma UnknownFallbackMiddle()
    ensures Piece("mpletely unexp", "mpletely unexp", {'r', 'f'},
        {('i', 'm'), ('n', 'i'), ('a', 't'), ('d', 'n'), ('o', 'o')})
  {
    LowerIs("mpletely unexp", "mpletely unexp");
  }

  lemma UnknownFallbackTail()
    ensures Piece("ected happened", "ected happened", {'r', 'f'},
        {('i', 'm'), ('n', 'i'), ('a', 't'), ('d', 'n'), ('o', 'o')})
  {
    LowerIs("ected happened", "ected happened");
  }

  /** A message whose lower-cased form lacks the characters 'r' and 'f', and the
      adjacent pairs "im", "ni", "at", "dn" and "oo" matches no rule. */
  lemma UnknownFallbackDecided(m: string)
    requires Avoids(Lower(m), {'r', 'f'}) && AvoidsPairs(Lower(m),
        {('i', 'm'), ('n', 'i'), ('a', 't'), ('d', 'n'), ('o', 'o')})
    ensures AnalyzeError(m) == Fallback
  {
    var lower := Lower(m);
    var cs := {'r', 'f'};
    var ps := {('i', 'm'), ('n', 'i'), ('a', 't'), ('d', 'n'), ('o', 'o')};
    NotContainsAvoided(lower, "permission denied", 2, cs);
    NotContainsAvoidedPair(lower, "access denied", 9, ps);
    NotContainsAvoided(lower, "connection refused", 11, cs);
    NotContainsAvoidedPair(lower, "timeout", 1, ps);
    NotContainsAvoidedPair(lower, "timed out", 1, ps);
    NotContainsAvoided(lower, "rate limit", 0, cs);
    NotContainsAvoidedPair(lower, "dns", 0, ps);
    NotContainsAvoided(lower, "resolve", 0, cs);
    NotContainsAvoided(lower, "type error", 6, cs);
    NotContainsAvoidedPair(lower, "type mismatch", 9, ps);
    NotContainsAvoided(lower, "cannot find", 7, cs);
    NotContainsAvoided(lower, "not found", 4, cs);
    NotContainsAvoided(lower, "undefined", 4, cs);
    NotContainsAvoided(lower, "unresolved", 2, cs);
    NotContainsAvoided(lower, "out of memory", 5, cs);
    NotContainsAvoidedPair(lower, "oom", 0, ps);
    NotContainsAvoided(lower, "stack overflow", 9, cs);
    NotContainsAvoidedPair(lower, "panic", 2, ps);
    NotContainsAvoided(lower, "unwrap", 3, cs);
    NoMatchBefore(lower, 12);
    NoMatchFallsBack(m);
  }

  /** The message, cut in its three pieces. */
  lemma UnknownFallbackSplit(m: string)
    requires m == "something completely unexpected happened"
    ensures m == "something co" + "mpletely unexp" + "ected happened"
  {
  }

  /** `unknown_fallback`: "something completely unexpected happened" falls back to
      Unknown. */
  lemma UnknownFallbackExample(m: string)
    requires m == "something completely unexpected happened"
    ensures AnalyzeError(m) == Fallback
  {
    UnknownFallbackSplit(m);
    UnknownFallbackHead();
    UnknownFallbackMiddle();
    UnknownFallbackTail();
    Joined3(m, "something co", "mpletely unexp", "ected happened", "something co",
        "mpletely unexp", "ected happened", {'r', 'f'}, {('i', 'm'), ('n', 'i'), ('a', 't'),
        ('d', 'n'), ('o', 'o')});
    UnknownFallbackDecided(m);
  }

  lemma ResolveMatchesNetworkHead()
    ensures Piece("could not ", "could not ", {'i'}, {})
  {
    LowerIs("could not ", "could not ");
  }

  lemma ResolveMatchesNetworkTail()
    ensures Piece("resolve host", "resolve host", {'i'}, {})
    ensures Contains("resolve host", "resolve")
  {
    LowerIs("resolve host", "resolve host");
    assert OccursAt("resolve host", "resolve", 0);
  }

  /** A message whose lower-cased form lacks the character 'i' but holds "resolve" is
      decided by `RuleTable[5]`. */
  lemma ResolveMatchesNetworkDecided(m: string)
    requires Avoids(Lower(m), {'i'}) && AvoidsPairs(Lower(m), {})
    requires Contains(Lower(m), "resolve")
    ensures AnalyzeError(m) == ErrorAnalysis(Network, true, "Check network connection")
  {
    var lower := Lower(m);
    var cs := {'i'};
    NotContainsAvoided(lower, "permission denied", 4, cs);
    NotContainsAvoided(lower, "access denied", 10, cs);
    NotContainsAvoided(lower, "connection refused", 7, cs);
    NotContainsAvoided(lower, "timeout", 1, cs);
    NotContainsAvoided(lower, "timed out", 1, cs);
    NotContainsAvoided(lower, "rate limit", 6, cs);
    NoMatchBefore(lower, 5);
    DecidedBy(m, 5);
  }

  /** `resolve_matches_network`: "could not resolve host" is decided by `RuleTable[5]`
      through "resolve". */
  lemma ResolveMatchesNetworkExample(m: string)
    requires m == "could not resolve host"
    ensures AnalyzeError(m) == ErrorAnalysis(Network, true, "Check network connection")
  {
    ResolveMatchesNetworkHead();
    ResolveMatchesNetworkTail();
    Joined(m, "could not ", "resolve host", "could not ", "resolve host", {'i'}, {});
    ContainsAppend("could not ", "resolve host", "resolve");
    ResolveMatchesNetworkDecided(m);
  }

  lemma PriorityOrderFacts(m: string)
    requires m == "permission denied: file not found"
    ensures Lower(m) == m
    ensures Contains(m, "not found") && Contains(m, "permission denied")
  {
    LowerIs(m, m);
    assert OccursAt(m, "not found", 24);
    assert OccursAt(m, "permission denied", 0);
  }

  /** `priority_order_permission_before_not_found`: a message matching both the first
      and the eighth rule is decided by the first. */
  lemma PriorityOrderExample(m: string)
    requires m == "permission denied: file not found"
    ensures Matches(RuleTable[7], Lower(m))
    ensures AnalyzeError(m) == ErrorAnalysis(Permission, false, "Check file permissions")
  {
    PriorityOrderFacts(m);
    PermissionDeniedWins(m);
  }

  lemma CaseInsensitiveFacts(m: string)
    requires m == "PERMISSION DENIED"
    ensures Lower(m) == "permission denied"
    ensures Contains(Lower(m), "permission denied")
  {
    LowerIs(m, "permission denied");
    assert OccursAt("permission denied", "permission denied", 0);
  }

  /** `case_insensitive`: the upper-cased message is classified as its lower-cased
      form is. */
  lemma CaseInsensitiveExample(m: string)
    requires m == "PERMISSION DENIED"
    ensures AnalyzeError(m) == AnalyzeError("permission denied")
    ensures AnalyzeError(m) == ErrorAnalysis(Permission, false, "Check file permissions")
  {
    CaseInsensitiveFacts(m);
    AnalyzeErrorIgnoresCase(m);
    PermissionDeniedWins(m);
  }
}
