/** The JSON Lines hook-event reader: every non-blank line of the input is decoded
    on its own and lands either among the events or, with its 1-based line number
    and trimmed text, among the errors. Decoding one line (serde_json plus chrono)
    is a parameter of the model: `decode` maps the trimmed text of a line to an event
    or to the decoder's error message. */
module HookParser {
  import opened Wrappers
  import opened Text

  datatype EventType = AgentStart | AgentEnd | ToolStart | ToolEnd | Error

  /** A UTC instant. The model only carries it from the decoder to the caller. */
  datatype Timestamp = Timestamp(text: string)

  datatype HookEvent = HookEvent(
    eventType: EventType,
    timestamp: Timestamp,
    agentId: string,
    taskId: string,
    sessionId: string,
    toolName: Option<string>,
    errorMessage: Option<string>)

  /** A line that did not decode: where it was, what it said, why it failed. */
  datatype ParseError = ParseError(lineNumber: nat, lineContent: string, error: string)

  datatype ParseResult = ParseResult(events: seq<HookEvent>, errors: seq<ParseError>)

  // ---------------------------------------------------------------------------
  // Specification of the line loop. It is stated over the trimmed lines, so that
  // reasoning about line numbers never has to look inside Trim.
  // ---------------------------------------------------------------------------

  /** The trimmed text of every line. */
  function TrimAll(lines: seq<string>): (r: seq<string>)
    ensures |r| == |lines|
    ensures forall i :: 0 <= i < |lines| ==> r[i] == Trim(lines[i])
  {
    seq(|lines|, i requires 0 <= i < |lines| => Trim(lines[i]))
  }

  /** The event a trimmed line contributes: none when blank or undecodable. */
  function LineEvents(trimmed: string, decode: string -> Result<HookEvent>): seq<HookEvent>
  {
    if trimmed != [] && decode(trimmed).Ok? then [decode(trimmed).value] else []
  }

  /** A trimmed line that is not blank and that the decoder rejects. */
  predicate Rejected(trimmed: string, decode: string -> Result<HookEvent>)
  {
    trimmed != [] && decode(trimmed).Err?
  }

  /** The error a trimmed line with number `number` contributes: none when blank
      or decodable. */
  function LineErrors(number: nat, trimmed: string, decode: string -> Result<HookEvent>): seq<ParseError>
  {
    if Rejected(trimmed, decode) then [ParseError(number, trimmed, decode(trimmed).error)] else []
  }

  /** The results of reading the trimmed lines `ts`, numbered from `before + 1` on. */
  function ParseFrom(ts: seq<string>, before: nat, decode: string -> Result<HookEvent>): ParseResult
  {
    if ts == [] then ParseResult([], [])
    else
      var rest := ParseFrom(ts[1..], before + 1, decode);
      ParseResult(LineEvents(ts[0], decode) + rest.events, LineErrors(before + 1, ts[0], decode) + rest.errors)
  }

  /** The results of reading `lines`, numbered from 1. */
  function ParseLines(lines: seq<string>, decode: string -> Result<HookEvent>): ParseResult
  {
    ParseFrom(TrimAll(lines), 0, decode)
  }

  /** `parse_hook_events`: one pass over `input.lines()`, pushing onto two lists. */
  method ParseHookEvents(input: string, decode: string -> Result<HookEvent>) returns (result: ParseResult)
    ensures result == ParseLines(Lines(input), decode)
  {
    result := ParseEachLine(Lines(input), decode);
  }

  /** The loop of `parse_hook_events` over the lines. */
  method ParseEachLine(lines: seq<string>, decode: string -> Result<HookEvent>) returns (result: ParseResult)
    ensures result == ParseLines(lines, decode)
  {
    ghost var ts := TrimAll(lines);
    var events: seq<HookEvent> := [];
    var errors: seq<ParseError> := [];
    for idx := 0 to |lines|
      invariant ParseResult(events, errors) == ParseFrom(ts[..idx], 0, decode)
    {
      var trimmed := Trim(lines[idx]);
      assert trimmed == ts[idx];
      ParseStep(ts, idx, decode);
      if trimmed != [] {
        match decode(trimmed) {
          case Ok(event) =>
            events := events + [event];
          case Err(e) =>
            errors := errors + [ParseError(idx + 1, trimmed, e)];
        }
      }
    }
    assert ts[..|lines|] == ts;
    result := ParseResult(events, errors);
  }

  // ---------------------------------------------------------------------------
  // Properties of the line loop
  // ---------------------------------------------------------------------------

  /** Reading `a + b` gives the events of `a`, then those of `b`. */
  lemma {:induction false} ParseAppendEvents(a: seq<string>, b: seq<string>, before: nat, decode: string -> Result<HookEvent>)
    ensures ParseFrom(a + b, before, decode).events
      == ParseFrom(a, before, decode).events + ParseFrom(b, before + |a|, decode).events
  {
    if a == [] {
      assert a + b == b;
    } else {
      assert (a + b)[0] == a[0];
      assert (a + b)[1..] == a[1..] + b;
      ParseAppendEvents(a[1..], b, before + 1, decode);
    }
  }

  /** Reading `a + b` gives the errors of `a`, then those of `b`, numbered on from `a`. */
  lemma {:induction false} ParseAppendErrors(a: seq<string>, b: seq<string>, before: nat, decode: string -> Result<HookEvent>)
    ensures ParseFrom(a + b, before, decode).errors
      == ParseFrom(a, before, decode).errors + ParseFrom(b, before + |a|, decode).errors
  {
    if a == [] {
      assert a + b == b;
    } else {
      assert (a + b)[0] == a[0];
      assert (a + b)[1..] == a[1..] + b;
      ParseAppendErrors(a[1..], b, before + 1, decode);
    }
  }

  /** Reading one more trimmed line adds its contribution at the end. */
  lemma ParseSnoc(ts: seq<string>, t: string, before: nat, decode: string -> Result<HookEvent>)
    ensures ParseFrom(ts + [t], before, decode)
      == ParseResult(ParseFrom(ts, before, decode).events + LineEvents(t, decode),
                     ParseFrom(ts, before, decode).errors + LineErrors(before + |ts| + 1, t, decode))
  {
    ParseAppendEvents(ts, [t], before, decode);
    ParseAppendErrors(ts, [t], before, decode);
    assert [t][1..] == [];
  }

  /** One turn of the loop: reading the first `idx + 1` trimmed lines adds the
      contribution of line `idx + 1`. */
  lemma ParseStep(ts: seq<string>, idx: nat, decode: string -> Result<HookEvent>)
    requires idx < |ts|
    ensures ParseFrom(ts[..idx + 1], 0, decode)
      == ParseResult(ParseFrom(ts[..idx], 0, decode).events + LineEvents(ts[idx], decode),
                     ParseFrom(ts[..idx], 0, decode).errors + LineErrors(idx + 1, ts[idx], decode))
  {
    assert ts[..idx + 1] == ts[..idx] + [ts[idx]];
    ParseSnoc(ts[..idx], ts[idx], 0, decode);
  }

  lemma TrimAllAppend(a: seq<string>, b: seq<string>)
    ensures TrimAll(a + b) == TrimAll(a) + TrimAll(b)
  {
    forall i | 0 <= i < |a + b| ensures TrimAll(a + b)[i] == (TrimAll(a) + TrimAll(b))[i] {
      if i < |a| {
        assert (a + b)[i] == a[i];
      } else {
        assert (a + b)[i] == b[i - |a|];
      }
    }
  }

  /** Reading `a + b` is reading `a`, then reading `b` with its line numbers
      continuing after those of `a`: no line's outcome depends on another line. */
  lemma ParseAppend(a: seq<string>, b: seq<string>, decode: string -> Result<HookEvent>)
    ensures ParseLines(a + b, decode).events == ParseLines(a, decode).events + ParseLines(b, decode).events
    ensures ParseLines(a + b, decode).errors
      == ParseLines(a, decode).errors + ParseFrom(TrimAll(b), |a|, decode).errors
  {
    TrimAllAppend(a, b);
    ParseAppendEvents(TrimAll(a), TrimAll(b), 0, decode);
    ParseAppendErrors(TrimAll(a), TrimAll(b), 0, decode);
    EventsIgnoreNumbering(TrimAll(b), |a|, decode);
  }

  /** Where the numbering starts does not affect the events. */
  lemma {:induction false} EventsIgnoreNumbering(ts: seq<string>, before: nat, decode: string -> Result<HookEvent>)
    ensures ParseFrom(ts, before, decode).events == ParseFrom(ts, 0, decode).events
  {
    if ts != [] {
      EventsIgnoreNumbering(ts[1..], before + 1, decode);
      EventsIgnoreNumbering(ts[1..], 1, decode);
    }
  }

  /** What a single line gives: nothing when blank, else one event or one error. */
  lemma ParseSingleLine(line: string, decode: string -> Result<HookEvent>)
    ensures Trim(line) == [] ==> ParseLines([line], decode) == ParseResult([], [])
    ensures Trim(line) != [] && decode(Trim(line)).Ok? ==>
      ParseLines([line], decode) == ParseResult([decode(Trim(line)).value], [])
    ensures Trim(line) != [] && decode(Trim(line)).Err? ==>
      ParseLines([line], decode) == ParseResult([], [ParseError(1, Trim(line), decode(Trim(line)).error)])
  {
    assert TrimAll([line]) == [] + [Trim(line)];
    ParseSnoc([], Trim(line), 0, decode);
  }

  /** The number of non-empty strings in `ts`. */
  function CountNonEmpty(ts: seq<string>): nat
  {
    if ts == [] then 0 else (if ts[0] == [] then 0 else 1) + CountNonEmpty(ts[1..])
  }

  lemma {:induction false} CountNonEmptyZero(ts: seq<string>)
    ensures CountNonEmpty(ts) == 0 <==> forall i :: 0 <= i < |ts| ==> ts[i] == []
  {
    if ts != [] {
      CountNonEmptyZero(ts[1..]);
      assert forall i :: 1 <= i < |ts| ==> ts[i] == ts[1..][i - 1];
    }
  }

  lemma {:induction false} ParseCountFrom(ts: seq<string>, before: nat, decode: string -> Result<HookEvent>)
    ensures |ParseFrom(ts, before, decode).events| + |ParseFrom(ts, before, decode).errors| == CountNonEmpty(ts)
  {
    if ts != [] {
      ParseCountFrom(ts[1..], before + 1, decode);
    }
  }

  /** The number of lines whose trimmed text is not empty. */
  function NonBlankCount(lines: seq<string>): nat
  {
    CountNonEmpty(TrimAll(lines))
  }

  /** Every non-blank line yields exactly one event or one error, blank lines none. */
  lemma ParseCount(lines: seq<string>, decode: string -> Result<HookEvent>)
    ensures |ParseLines(lines, decode).events| + |ParseLines(lines, decode).errors| == NonBlankCount(lines)
  {
    ParseCountFrom(TrimAll(lines), 0, decode);
  }

  /** Both lists are empty exactly when every line is blank; in particular for empty input. */
  lemma ParseBlank(lines: seq<string>, decode: string -> Result<HookEvent>)
    ensures ParseLines(lines, decode) == ParseResult([], [])
      <==> forall i :: 0 <= i < |lines| ==> Trim(lines[i]) == []
    ensures ParseLines(Lines([]), decode) == ParseResult([], [])
  {
    ParseCount(lines, decode);
    CountNonEmptyZero(TrimAll(lines));
    assert TrimAll([]) == [];
  }

  /** The successful decodes of the non-blank lines, front to back: an account of
      the events that reads the lines themselves. */
  function Successes(lines: seq<string>, decode: string -> Result<HookEvent>): seq<HookEvent>
  {
    if lines == [] then []
    else
      var trimmed := Trim(lines[0]);
      (if trimmed != [] && decode(trimmed).Ok? then [decode(trimmed).value] else [])
      + Successes(lines[1..], decode)
  }

  /** The events are exactly the successful decodes, in line order. */
  lemma {:induction false} EventsAreSuccesses(lines: seq<string>, decode: string -> Result<HookEvent>)
    ensures ParseLines(lines, decode).events == Successes(lines, decode)
  {
    if lines != [] {
      assert TrimAll(lines)[1..] == TrimAll(lines[1..]);
      EventsIgnoreNumbering(TrimAll(lines[1..]), 1, decode);
      EventsAreSuccesses(lines[1..], decode);
    }
  }

  lemma {:induction false} ErrorsSoundFrom(ts: seq<string>, before: nat, decode: string -> Result<HookEvent>)
    ensures forall k :: 0 <= k < |ParseFrom(ts, before, decode).errors| ==>
      var e := ParseFrom(ts, before, decode).errors[k];
      && before + 1 <= e.lineNumber <= before + |ts|
      && e.lineContent == ts[e.lineNumber - before - 1]
      && Rejected(e.lineContent, decode)
      && decode(e.lineContent) == Err(e.error)
  {
    if ts != [] {
      var rest := ParseFrom(ts[1..], before + 1, decode).errors;
      var head := LineErrors(before + 1, ts[0], decode);
      var errs := ParseFrom(ts, before, decode).errors;
      ErrorsSoundFrom(ts[1..], before + 1, decode);
      assert errs == head + rest;
      forall k | 0 <= k < |errs|
        ensures before + 1 <= errs[k].lineNumber <= before + |ts|
        ensures errs[k].lineContent == ts[errs[k].lineNumber - before - 1]
        ensures Rejected(errs[k].lineContent, decode) && decode(errs[k].lineContent) == Err(errs[k].error)
      {
        if k >= |head| {
          assert errs[k] == rest[k - |head|];
          assert ts[1..][rest[k - |head|].lineNumber - before - 2] == ts[rest[k - |head|].lineNumber - before - 1];
        }
      }
    }
  }

  /** Every error names a line of the input by its 1-based number, carries that
      line's trimmed (non-empty) text, and the decoder's message for that text. */
  lemma ErrorsSound(lines: seq<string>, decode: string -> Result<HookEvent>)
    ensures forall k :: 0 <= k < |ParseLines(lines, decode).errors| ==>
      var e := ParseLines(lines, decode).errors[k];
      && 1 <= e.lineNumber <= |lines|
      && e.lineContent == Trim(lines[e.lineNumber - 1])
      && e.lineContent != []
      && decode(e.lineContent) == Err(e.error)
  {
    ErrorsSoundFrom(TrimAll(lines), 0, decode);
  }

  lemma {:induction false} ErrorsIncreasingFrom(ts: seq<string>, before: nat, decode: string -> Result<HookEvent>)
    ensures forall k1, k2 :: 0 <= k1 < k2 < |ParseFrom(ts, before, decode).errors| ==>
      ParseFrom(ts, before, decode).errors[k1].lineNumber < ParseFrom(ts, before, decode).errors[k2].lineNumber
  {
    if ts != [] {
      var rest := ParseFrom(ts[1..], before + 1, decode).errors;
      var head := LineErrors(before + 1, ts[0], decode);
      var errs := ParseFrom(ts, before, decode).errors;
      ErrorsIncreasingFrom(ts[1..], before + 1, decode);
      ErrorsSoundFrom(ts[1..], before + 1, decode);
      assert errs == head + rest;
      forall k1, k2 | 0 <= k1 < k2 < |errs| ensures errs[k1].lineNumber < errs[k2].lineNumber {
        if k1 >= |head| {
          assert errs[k1] == rest[k1 - |head|] && errs[k2] == rest[k2 - |head|];
        } else {
          assert errs[k2] == rest[k2 - |head|];
        }
      }
    }
  }

  /** Error line numbers strictly increase. */
  lemma ErrorsIncreasing(lines: seq<string>, decode: string -> Result<HookEvent>)
    ensures forall k1, k2 :: 0 <= k1 < k2 < |ParseLines(lines, decode).errors| ==>
      ParseLines(lines, decode).errors[k1].lineNumber < ParseLines(lines, decode).errors[k2].lineNumber
  {
    ErrorsIncreasingFrom(TrimAll(lines), 0, decode);
  }

  lemma {:induction false} ErrorsCompleteFrom(ts: seq<string>, before: nat, decode: string -> Result<HookEvent>, i: nat)
    requires i < |ts| && Rejected(ts[i], decode)
    ensures exists k ::
      0 <= k < |ParseFrom(ts, before, decode).errors| && ParseFrom(ts, before, decode).errors[k].lineNumber == before + i + 1
  {
    var rest := ParseFrom(ts[1..], before + 1, decode).errors;
    var head := LineErrors(before + 1, ts[0], decode);
    var errs := ParseFrom(ts, before, decode).errors;
    assert errs == head + rest;
    if i == 0 {
      assert errs[0] == head[0];
    } else {
      assert ts[1..][i - 1] == ts[i];
      ErrorsCompleteFrom(ts[1..], before + 1, decode, i - 1);
      var k :| 0 <= k < |rest| && rest[k].lineNumber == before + i + 1;
      assert errs[|head| + k] == rest[k];
    }
  }

  /** Every non-blank line that fails to decode has its error in the list. */
  lemma ErrorsComplete(lines: seq<string>, decode: string -> Result<HookEvent>)
    ensures forall i :: 0 <= i < |lines| && Rejected(Trim(lines[i]), decode) ==>
      exists k :: 0 <= k < |ParseLines(lines, decode).errors| && ParseLines(lines, decode).errors[k].lineNumber == i + 1
  {
    forall i | 0 <= i < |lines| && Rejected(Trim(lines[i]), decode)
      ensures exists k :: 0 <= k < |ParseLines(lines, decode).errors| && ParseLines(lines, decode).errors[k].lineNumber == i + 1
    {
      ErrorsCompleteFrom(TrimAll(lines), 0, decode, i);
      var errs := ParseFrom(TrimAll(lines), 0, decode).errors;
      var k :| 0 <= k < |errs| && errs[k].lineNumber == i + 1;
      assert ParseLines(lines, decode).errors[k] == errs[k];
    }
  }

  /** Empty trimmed lines contribute nothing. */
  lemma {:induction false} NothingFromEmpty(ts: seq<string>, before: nat, decode: string -> Result<HookEvent>)
    requires forall i :: 0 <= i < |ts| ==> ts[i] == []
    ensures ParseFrom(ts, before, decode) == ParseResult([], [])
  {
    if ts != [] {
      assert forall i :: 0 <= i < |ts[1..]| ==> ts[1..][i] == ts[i + 1];
      NothingFromEmpty(ts[1..], before + 1, decode);
    }
  }

  /** Blank lines still count towards line numbers: a rejected line after `n`
      blank lines is reported as line `n + 1`, with its trimmed text. */
  lemma BlankLinesAreNumbered(blanks: seq<string>, line: string, decode: string -> Result<HookEvent>)
    requires forall i :: 0 <= i < |blanks| ==> Trim(blanks[i]) == []
    requires Rejected(Trim(line), decode)
    ensures ParseLines(blanks + [line], decode).events == []
    ensures ParseLines(blanks + [line], decode).errors
      == [ParseError(|blanks| + 1, Trim(line), decode(Trim(line)).error)]
  {
    var ts := TrimAll(blanks);
    var t := Trim(line);
    TrimAllAppend(blanks, [line]);
    assert TrimAll([line]) == [t];
    assert ParseLines(blanks + [line], decode) == ParseFrom(ts + [t], 0, decode);
    NothingFromEmpty(ts, 0, decode);
    ParseSnoc(ts, t, 0, decode);
    assert LineEvents(t, decode) == [];
    assert LineErrors(|ts| + 1, t, decode) == [ParseError(|blanks| + 1, t, decode(t).error)];
  }

  // ---------------------------------------------------------------------------
  // Filters
  // ---------------------------------------------------------------------------

  /** The events satisfying `keep`, in their original order. */
  function Filter(events: seq<HookEvent>, keep: HookEvent -> bool): (r: seq<HookEvent>)
    ensures |r| <= |events|
  {
    if events == [] then []
    else (if keep(events[0]) then [events[0]] else []) + Filter(events[1..], keep)
  }

  /** Filter keeps exactly the events satisfying `keep`: all of them when every
      event does, none when no event does. */
  lemma {:induction false} FilterMembers(events: seq<HookEvent>, keep: HookEvent -> bool)
    ensures forall e :: e in Filter(events, keep) <==> e in events && keep(e)
    ensures (forall i :: 0 <= i < |events| ==> !keep(events[i])) ==> Filter(events, keep) == []
    ensures (forall i :: 0 <= i < |events| ==> keep(events[i])) ==> Filter(events, keep) == events
  {
    if events != [] {
      FilterMembers(events[1..], keep);
      assert events == [events[0]] + events[1..];
      assert forall i :: 1 <= i < |events| ==> events[1..][i - 1] == events[i];
    }
  }

  lemma FilterCons(e: HookEvent, rest: seq<HookEvent>, keep: HookEvent -> bool)
    ensures Filter([e] + rest, keep) == (if keep(e) then [e] else []) + Filter(rest, keep)
  {
    assert ([e] + rest)[1..] == rest;
  }

  /** Filtering commutes with concatenation, so kept events keep their order. */
  lemma {:induction false} FilterAppend(a: seq<HookEvent>, b: seq<HookEvent>, keep: HookEvent -> bool)
    ensures Filter(a + b, keep) == Filter(a, keep) + Filter(b, keep)
  {
    if a == [] {
      assert a + b == b;
    } else {
      assert a == [a[0]] + a[1..];
      assert a + b == [a[0]] + (a[1..] + b);
      FilterCons(a[0], a[1..] + b, keep);
      FilterCons(a[0], a[1..], keep);
      FilterAppend(a[1..], b, keep);
    }
  }

  /** `events_for_agent`: the events of one agent, in order. */
  function EventsForAgent(events: seq<HookEvent>, agentId: string): (r: seq<HookEvent>)
    ensures forall e :: e in r <==> e in events && e.agentId == agentId
    ensures (forall i :: 0 <= i < |events| ==> events[i].agentId != agentId) ==> r == []
    ensures (forall i :: 0 <= i < |events| ==> events[i].agentId == agentId) ==> r == events
  {
    FilterMembers(events, (e: HookEvent) => e.agentId == agentId);
    Filter(events, (e: HookEvent) => e.agentId == agentId)
  }

  /** `events_for_session`: the events of one session, in order. */
  function EventsForSession(events: seq<HookEvent>, sessionId: string): (r: seq<HookEvent>)
    ensures forall e :: e in r <==> e in events && e.sessionId == sessionId
    ensures (forall i :: 0 <= i < |events| ==> events[i].sessionId != sessionId) ==> r == []
    ensures (forall i :: 0 <= i < |events| ==> events[i].sessionId == sessionId) ==> r == events
  {
    FilterMembers(events, (e: HookEvent) => e.sessionId == sessionId);
    Filter(events, (e: HookEvent) => e.sessionId == sessionId)
  }

  /** The agent filter of a concatenation is the concatenation of the filters. */
  lemma EventsForAgentAppend(a: seq<HookEvent>, b: seq<HookEvent>, agentId: string)
    ensures EventsForAgent(a + b, agentId) == EventsForAgent(a, agentId) + EventsForAgent(b, agentId)
  {
    FilterAppend(a, b, (e: HookEvent) => e.agentId == agentId);
  }

  /** The session filter of a concatenation is the concatenation of the filters. */
  lemma EventsForSessionAppend(a: seq<HookEvent>, b: seq<HookEvent>, sessionId: string)
    ensures EventsForSession(a + b, sessionId) == EventsForSession(a, sessionId) + EventsForSession(b, sessionId)
  {
    FilterAppend(a, b, (e: HookEvent) => e.sessionId == sessionId);
  }
}
