/** The settings patch of the `init` command: make sure `hooks.PreToolUse` and
    `hooks.PostToolUse` of the settings value are arrays and append the
    event-logger hook entry to each one that does not hold one yet. Only the
    transformation of the JSON value is modelled; reading and writing the file is not. */
module Init {
  import opened Wrappers
  import opened Text

  /** A JSON value (`serde_json::Value`), numbers kept as integers. */
  datatype Json =
    | JNull
    | JBool(b: bool)
    | JNumber(n: int)
    | JString(s: string)
    | JArray(items: seq<Json>)
    | JObject(fields: map<string, Json>)

  const HookMatcher: string := "Task|Edit|Write|Read|Bash|Grep|Glob"
  const HookCommand: string := "node \"${HOME}/.claude/hooks/event-logger.js\""
  const HookTimeout: int := 3
  /** The name a registered command is recognised by. */
  const LoggerScript: string := "event-logger.js"
  /** The hook arrays the patch looks after, in the order it visits them. */
  const HookKeys: seq<string> := ["PreToolUse", "PostToolUse"]

  /** The one hook of the entry. */
  function LoggerHook(): Json
  {
    JObject(map["type" := JString("command"), "command" := JString(HookCommand), "timeout" := JNumber(HookTimeout)])
  }

  /** `build_hook_entry` */
  function BuildHookEntry(): (r: Json)
    ensures r.JObject? && r.fields.Keys == {"matcher", "hooks"}
    ensures r.fields["matcher"] == JString(HookMatcher)
    ensures r.fields["hooks"] == JArray([LoggerHook()])
  {
    JObject(map["matcher" := JString(HookMatcher), "hooks" := JArray([LoggerHook()])])
  }

  // ---------------------------------------------------------------------------
  // Recognising an existing entry
  // ---------------------------------------------------------------------------

  /** A hook whose "command" is a string mentioning the logger script. */
  predicate IsLoggerHook(hook: Json)
  {
    && hook.JObject?
    && "command" in hook.fields
    && hook.fields["command"].JString?
    && Contains(hook.fields["command"].s, LoggerScript)
  }

  /** The inner `hooks.iter().any(..)` of `has_event_logger_entry`. */
  function AnyLoggerHook(hooks: seq<Json>): (r: bool)
    ensures r <==> exists i :: 0 <= i < |hooks| && IsLoggerHook(hooks[i])
  {
    if hooks == [] then false
    else IsLoggerHook(hooks[0]) || AnyLoggerHook(hooks[1..])
  }

  /** An entry whose "hooks" field is an array holding a logger hook; a missing or
      mistyped field counts as no. */
  predicate IsLoggerEntry(entry: Json)
  {
    && entry.JObject?
    && "hooks" in entry.fields
    && entry.fields["hooks"].JArray?
    && AnyLoggerHook(entry.fields["hooks"].items)
  }

  /** `has_event_logger_entry` */
  function HasEventLoggerEntry(arr: seq<Json>): (r: bool)
    ensures r <==> exists i :: 0 <= i < |arr| && IsLoggerEntry(arr[i])
  {
    if arr == [] then false
    else IsLoggerEntry(arr[0]) || HasEventLoggerEntry(arr[1..])
  }

  lemma HasEventLoggerEntryAppend(arr: seq<Json>, entry: Json)
    ensures HasEventLoggerEntry(arr + [entry]) <==> HasEventLoggerEntry(arr) || IsLoggerEntry(entry)
  {
    assert forall i :: 0 <= i < |arr| ==> (arr + [entry])[i] == arr[i];
    assert (arr + [entry])[|arr|] == entry;
  }

  lemma CommandFacts()
    ensures OccursAt(HookCommand, LoggerScript, 28)
  {
  }

  /** The entry the patch appends is one it recognises. */
  lemma BuiltEntryIsRecognised()
    ensures IsLoggerEntry(BuildHookEntry())
    ensures HasEventLoggerEntry([BuildHookEntry()])
  {
    CommandFacts();
    assert IsLoggerHook(LoggerHook());
    assert [LoggerHook()][0] == LoggerHook();
    assert [BuildHookEntry()][0] == BuildHookEntry();
  }

  lemma EmptyHasNoEntry()
    ensures !HasEventLoggerEntry([])
  {
  }

  /** An unrelated entry running "echo hi" is not taken for the logger. */
  lemma OtherHookIsNotRecognised(cmd: string)
    requires cmd == "echo hi"
    ensures !HasEventLoggerEntry([JObject(map["matcher" := JString("Bash"),
      "hooks" := JArray([JObject(map["type" := JString("command"), "command" := JString(cmd), "timeout" := JNumber(1)])])])])
  {
    assert 'v' !in cmd;
    NotContainsByChar(cmd, LoggerScript, 'v');
  }

  // ---------------------------------------------------------------------------
  // The patch
  // ---------------------------------------------------------------------------

  /** The hooks object part-way through the patch, and whether anything was added. */
  datatype HooksPatch = HooksPatch(hooks: map<string, Json>, changed: bool)

  /** The settings after a successful patch and whether they must be written back,
      or the reason the patch gave up. */
  datatype PatchOutcome = Patched(settings: Json, changed: bool) | Failed(reason: string)

  const RootNotObject: string := "settings.json root is not an object"
  const HooksNotObject: string := "settings.json 'hooks' is not an object"

  function NotAnArray(key: string): string
  {
    "settings.json 'hooks." + key + "' is not an array"
  }

  /** The entries under `key`; none when it is missing or holds no array. */
  function ItemsAt(hooks: map<string, Json>, key: string): seq<Json>
  {
    if key in hooks && hooks[key].JArray? then hooks[key].items else []
  }

  /** One turn of the loop: a missing array starts empty, and `entry` is appended
      unless the array already holds a logger entry. */
  function PatchKey(p: HooksPatch, key: string, entry: Json): Result<HooksPatch>
  {
    var arr := if key in p.hooks then p.hooks[key] else JArray([]);
    if !arr.JArray? then Err(NotAnArray(key))
    else if HasEventLoggerEntry(arr.items) then Ok(HooksPatch(p.hooks[key := arr], p.changed))
    else Ok(HooksPatch(p.hooks[key := JArray(arr.items + [entry])], true))
  }

  /** The loop over `keys`, stopping at the first failure. */
  function PatchKeys(p: HooksPatch, keys: seq<string>, entry: Json): Result<HooksPatch>
  {
    if keys == [] then Ok(p)
    else
      match PatchKeys(p, keys[..|keys| - 1], entry)
      case Err(e) => Err(e)
      case Ok(q) => PatchKey(q, keys[|keys| - 1], entry)
  }

  /** The in-memory part of `patch_settings`. */
  function Patch(settings: Json): PatchOutcome
  {
    if !settings.JObject? then Failed(RootNotObject)
    else
      var root := settings.fields;
      var hooks := if "hooks" in root then root["hooks"] else JObject(map[]);
      if !hooks.JObject? then Failed(HooksNotObject)
      else
        match PatchKeys(HooksPatch(hooks.fields, false), HookKeys, BuildHookEntry())
        case Err(e) => Failed(e)
        case Ok(q) => Patched(JObject(root["hooks" := JObject(q.hooks)]), q.changed)
  }

  /** `patch_settings` between reading the file and writing it: the settings value is
      changed key by key and `patched` records whether anything was added. */
  method PatchSettings(settings: Json) returns (outcome: PatchOutcome)
    ensures outcome == Patch(settings)
  {
    if !settings.JObject? {
      return Failed(RootNotObject);
    }
    var root := settings.fields;
    if "hooks" !in root {
      root := root["hooks" := JObject(map[])];
    }
    var hooksValue := root["hooks"];
    if !hooksValue.JObject? {
      return Failed(HooksNotObject);
    }
    var entry := BuildHookEntry();
    var r := PatchHookArrays(hooksValue.fields, entry);
    match r
    case Err(e) =>
      return Failed(e);
    case Ok(q) =>
      root := root["hooks" := JObject(q.hooks)];
      assert root == settings.fields["hooks" := JObject(q.hooks)];
      return Patched(JObject(root), q.changed);
  }

  /** The loop of `patch_settings` over the two hook keys, on the hooks object. */
  method PatchHookArrays(hooksObject: map<string, Json>, entry: Json) returns (r: Result<HooksPatch>)
    ensures r == PatchKeys(HooksPatch(hooksObject, false), HookKeys, entry)
  {
    var hooks := hooksObject;
    var patched := false;
    ghost var start := HooksPatch(hooksObject, false);
    for i := 0 to |HookKeys|
      invariant PatchKeys(start, HookKeys[..i], entry) == Ok(HooksPatch(hooks, patched))
    {
      var key := HookKeys[i];
      ghost var before := hooks;
      ghost var expected := PatchKey(HooksPatch(hooks, patched), key, entry);
      assert HookKeys[..i + 1][..i] == HookKeys[..i] && HookKeys[..i + 1][i] == key;
      assert PatchKeys(start, HookKeys[..i + 1], entry) == expected;
      if key !in hooks {
        hooks := hooks[key := JArray([])];
      }
      var arr := hooks[key];
      if !arr.JArray? {
        PatchKeysStopsAtError(start, HookKeys, entry, i + 1);
        return Err(NotAnArray(key));
      }
      if !HasEventLoggerEntry(arr.items) {
        hooks := hooks[key := JArray(arr.items + [entry])];
        patched := true;
        assert hooks == before[key := JArray(arr.items + [entry])];
      } else {
        assert before[key := arr] == before;
      }
      assert expected == Ok(HooksPatch(hooks, patched));
    }
    assert HookKeys[..|HookKeys|] == HookKeys;
    return Ok(HooksPatch(hooks, patched));
  }

  /** Once a key fails, the whole loop fails with that error. */
  lemma {:induction false} PatchKeysStopsAtError(p: HooksPatch, keys: seq<string>, entry: Json, n: nat)
    requires n <= |keys| && PatchKeys(p, keys[..n], entry).Err?
    ensures PatchKeys(p, keys, entry) == PatchKeys(p, keys[..n], entry)
    decreases |keys|
  {
    if n < |keys| {
      assert keys[..|keys| - 1][..n] == keys[..n];
      PatchKeysStopsAtError(p, keys[..|keys| - 1], entry, n);
    } else {
      assert keys[..n] == keys;
    }
  }

  // ---------------------------------------------------------------------------
  // What one key's turn does
  // ---------------------------------------------------------------------------

  /** A key's turn fails exactly when the key holds something other than an array. */
  lemma PatchKeyFails(p: HooksPatch, key: string, entry: Json)
    ensures PatchKey(p, key, entry).Err? <==> key in p.hooks && !p.hooks[key].JArray?
    ensures PatchKey(p, key, entry).Err? ==> PatchKey(p, key, entry).error == NotAnArray(key)
  {
  }

  /** Key `k` after a turn: the old entries (none for a missing key), then `entry`
      unless a logger entry was recognised among them, and in any case an array
      holding a logger entry. */
  predicate Recognised(before: map<string, Json>, after: map<string, Json>, k: string, entry: Json)
  {
    var old_ := ItemsAt(before, k);
    && k in after && after[k].JArray?
    && HasEventLoggerEntry(after[k].items)
    && after[k].items == (if HasEventLoggerEntry(old_) then old_ else old_ + [entry])
  }

  /** A successful turn leaves every other key alone and leaves `key` recognised;
      it counts as a change exactly when no logger entry was there before. */
  lemma PatchKeyEffect(p: HooksPatch, key: string, entry: Json)
    requires IsLoggerEntry(entry) && PatchKey(p, key, entry).Ok?
    ensures var q := PatchKey(p, key, entry).value;
      && q.hooks.Keys == p.hooks.Keys + {key}
      && (forall k :: k in p.hooks && k != key ==> q.hooks[k] == p.hooks[k])
      && Recognised(p.hooks, q.hooks, key, entry)
      && (q.changed <==> p.changed || !HasEventLoggerEntry(ItemsAt(p.hooks, key)))
  {
    HasEventLoggerEntryAppend(ItemsAt(p.hooks, key), entry);
  }

  /** A turn on a key whose array is already recognised changes nothing. */
  lemma PatchKeyIdempotent(p: HooksPatch, key: string, entry: Json)
    requires key in p.hooks && p.hooks[key].JArray? && HasEventLoggerEntry(p.hooks[key].items)
    ensures PatchKey(p, key, entry) == Ok(p)
  {
    assert p.hooks[key := p.hooks[key]] == p.hooks;
  }

  // ---------------------------------------------------------------------------
  // Two turns on two different keys
  // ---------------------------------------------------------------------------

  /** The loop over exactly two keys. */
  function PatchTwo(p: HooksPatch, k0: string, k1: string, entry: Json): Result<HooksPatch>
  {
    match PatchKey(p, k0, entry)
    case Err(e) => Err(e)
    case Ok(q) => PatchKey(q, k1, entry)
  }

  lemma PatchKeysPair(p: HooksPatch, keys: seq<string>, entry: Json)
    requires |keys| == 2
    ensures PatchKeys(p, keys, entry) == PatchTwo(p, keys[0], keys[1], entry)
  {
    assert keys[..1][..0] == [];
    assert PatchKeys(p, keys[..1], entry) == PatchKey(p, keys[0], entry);
    assert keys[1] == keys[|keys| - 1];
  }

  /** Malformed means a key holding something other than an array. */
  predicate BadKey(hooks: map<string, Json>, k: string)
  {
    k in hooks && !hooks[k].JArray?
  }

  /** Two turns fail exactly when either key is bad, with the first bad key's error. */
  lemma PatchTwoFails(p: HooksPatch, k0: string, k1: string, entry: Json)
    requires k0 != k1
    ensures PatchTwo(p, k0, k1, entry).Err? <==> BadKey(p.hooks, k0) || BadKey(p.hooks, k1)
    ensures BadKey(p.hooks, k0) ==> PatchTwo(p, k0, k1, entry) == Err(NotAnArray(k0))
    ensures !BadKey(p.hooks, k0) && BadKey(p.hooks, k1) ==> PatchTwo(p, k0, k1, entry) == Err(NotAnArray(k1))
  {
  }

  /** Two successful turns add the two keys and keep every other one. */
  lemma PatchTwoKeys(p: HooksPatch, k0: string, k1: string, entry: Json)
    requires k0 != k1 && IsLoggerEntry(entry) && PatchTwo(p, k0, k1, entry).Ok?
    ensures var r := PatchTwo(p, k0, k1, entry).value;
      && r.hooks.Keys == p.hooks.Keys + {k0, k1}
      && (forall k :: k in p.hooks && k != k0 && k != k1 ==> r.hooks[k] == p.hooks[k])
  {
    var q := PatchKey(p, k0, entry).value;
    PatchKeyEffect(p, k0, entry);
    PatchKeyEffect(q, k1, entry);
  }

  /** Two successful turns leave both keys recognised. */
  lemma PatchTwoRecognised(p: HooksPatch, k0: string, k1: string, entry: Json)
    requires k0 != k1 && IsLoggerEntry(entry) && PatchTwo(p, k0, k1, entry).Ok?
    ensures Recognised(p.hooks, PatchTwo(p, k0, k1, entry).value.hooks, k0, entry)
    ensures Recognised(p.hooks, PatchTwo(p, k0, k1, entry).value.hooks, k1, entry)
  {
    var q := PatchKey(p, k0, entry).value;
    var r := PatchKey(q, k1, entry).value;
    PatchKeyEffect(p, k0, entry);
    PatchKeyEffect(q, k1, entry);
    assert r.hooks[k0] == q.hooks[k0];
    assert ItemsAt(q.hooks, k1) == ItemsAt(p.hooks, k1);
  }

  /** Two successful turns count as a change exactly when either key lacked a
      logger entry. */
  lemma PatchTwoChanged(p: HooksPatch, k0: string, k1: string, entry: Json)
    requires k0 != k1 && IsLoggerEntry(entry) && PatchTwo(p, k0, k1, entry).Ok?
    ensures PatchTwo(p, k0, k1, entry).value.changed
      <==> p.changed || !HasEventLoggerEntry(ItemsAt(p.hooks, k0)) || !HasEventLoggerEntry(ItemsAt(p.hooks, k1))
  {
    var q := PatchKey(p, k0, entry).value;
    PatchKeyEffect(p, k0, entry);
    PatchKeyEffect(q, k1, entry);
    assert ItemsAt(q.hooks, k1) == ItemsAt(p.hooks, k1);
  }

  /** Two turns on keys already recognised change nothing. */
  lemma PatchTwoIdempotent(p: HooksPatch, k0: string, k1: string, entry: Json)
    requires k0 in p.hooks && p.hooks[k0].JArray? && HasEventLoggerEntry(p.hooks[k0].items)
    requires k1 in p.hooks && p.hooks[k1].JArray? && HasEventLoggerEntry(p.hooks[k1].items)
    ensures PatchTwo(p, k0, k1, entry) == Ok(p)
  {
    PatchKeyIdempotent(p, k0, entry);
    PatchKeyIdempotent(p, k1, entry);
  }

  // ---------------------------------------------------------------------------
  // What the whole patch does
  // ---------------------------------------------------------------------------

  lemma KeysDistinct()
    ensures |HookKeys| == 2 && HookKeys[0] != HookKeys[1]
  {
    assert HookKeys[0][1] != HookKeys[1][1];
  }

  /** The settings the patch refuses: a root that is no object, a "hooks" that is no
      object, or one of the two hook keys holding something other than an array. */
  predicate Malformed(settings: Json)
  {
    || !settings.JObject?
    || ("hooks" in settings.fields
        && (|| !settings.fields["hooks"].JObject?
            || BadKey(settings.fields["hooks"].fields, HookKeys[0])
            || BadKey(settings.fields["hooks"].fields, HookKeys[1])))
  }

  /** The patch fails exactly on malformed settings, with the error of the first
      problem in the order the code checks them. */
  lemma PatchFailsIffMalformed(settings: Json)
    ensures Patch(settings).Failed? <==> Malformed(settings)
    ensures !settings.JObject? ==> Patch(settings) == Failed(RootNotObject)
    ensures settings.JObject? && "hooks" in settings.fields && !settings.fields["hooks"].JObject?
      ==> Patch(settings) == Failed(HooksNotObject)
    ensures settings.JObject? && "hooks" in settings.fields && settings.fields["hooks"].JObject?
      && BadKey(settings.fields["hooks"].fields, HookKeys[0])
      ==> Patch(settings) == Failed(NotAnArray(HookKeys[0]))
    ensures settings.JObject? && "hooks" in settings.fields && settings.fields["hooks"].JObject?
      && !BadKey(settings.fields["hooks"].fields, HookKeys[0])
      && BadKey(settings.fields["hooks"].fields, HookKeys[1])
      ==> Patch(settings) == Failed(NotAnArray(HookKeys[1]))
  {
    if settings.JObject? {
      var root := settings.fields;
      var hooks := if "hooks" in root then root["hooks"] else JObject(map[]);
      if hooks.JObject? {
        var p := HooksPatch(hooks.fields, false);
        KeysDistinct();
        PatchKeysPair(p, HookKeys, BuildHookEntry());
        PatchTwoFails(p, HookKeys[0], HookKeys[1], BuildHookEntry());
      }
    }
  }

  /** The hooks object the patch starts from: the existing one, or an empty one. */
  function HooksOf(settings: Json): map<string, Json>
  {
    if settings.JObject? && "hooks" in settings.fields && settings.fields["hooks"].JObject?
    then settings.fields["hooks"].fields else map[]
  }

  /** The two turns of a patch on the hooks object it starts from. */
  function Turns(settings: Json): Result<HooksPatch>
  {
    PatchTwo(HooksPatch(HooksOf(settings), false), HookKeys[0], HookKeys[1], BuildHookEntry())
  }

  /** A successful patch is the two turns, put back under "hooks". */
  lemma PatchIsTurns(settings: Json)
    requires Patch(settings).Patched?
    ensures settings.JObject? && Turns(settings).Ok?
    ensures Patch(settings)
      == Patched(JObject(settings.fields["hooks" := JObject(Turns(settings).value.hooks)]), Turns(settings).value.changed)
  {
    KeysDistinct();
    PatchKeysPair(HooksPatch(HooksOf(settings), false), HookKeys, BuildHookEntry());
  }

  /** A successful patch keeps every other setting and puts an object under "hooks". */
  lemma PatchKeepsSettings(settings: Json)
    requires Patch(settings).Patched?
    ensures settings.JObject?
    ensures var out := Patch(settings).settings;
      && out.JObject?
      && out.fields.Keys == settings.fields.Keys + {"hooks"}
      && (forall k :: k in settings.fields && k != "hooks" ==> out.fields[k] == settings.fields[k])
      && out.fields["hooks"].JObject?
  {
    PatchIsTurns(settings);
  }

  /** A successful patch keeps every other hook list and leaves both hook arrays
      recognised: the old entries in front, followed by the new entry only where no
      logger entry was there. */
  lemma PatchKeepsHooks(settings: Json)
    requires Patch(settings).Patched?
    ensures Patch(settings).settings.JObject? && "hooks" in Patch(settings).settings.fields
    ensures var out := Patch(settings).settings.fields["hooks"];
      var hooks := HooksOf(settings);
      && out.JObject?
      && out.fields.Keys == hooks.Keys + {HookKeys[0], HookKeys[1]}
      && (forall k :: k in hooks && k != HookKeys[0] && k != HookKeys[1] ==> out.fields[k] == hooks[k])
      && Recognised(hooks, out.fields, HookKeys[0], BuildHookEntry())
      && Recognised(hooks, out.fields, HookKeys[1], BuildHookEntry())
  {
    PatchIsTurns(settings);
    var p := HooksPatch(HooksOf(settings), false);
    KeysDistinct();
    BuiltEntryIsRecognised();
    PatchTwoKeys(p, HookKeys[0], HookKeys[1], BuildHookEntry());
    PatchTwoRecognised(p, HookKeys[0], HookKeys[1], BuildHookEntry());
  }

  /** The patch asks for a write exactly when one of the two arrays held no
      logger entry (a missing array holds none). */
  lemma PatchChangedIff(settings: Json)
    requires Patch(settings).Patched?
    ensures Patch(settings).changed
      <==> !HasEventLoggerEntry(ItemsAt(HooksOf(settings), HookKeys[0])) || !HasEventLoggerEntry(ItemsAt(HooksOf(settings), HookKeys[1]))
  {
    PatchIsTurns(settings);
    KeysDistinct();
    BuiltEntryIsRecognised();
    PatchTwoChanged(HooksPatch(HooksOf(settings), false), HookKeys[0], HookKeys[1], BuildHookEntry());
  }

  /** Patching the patched settings again changes nothing and asks for no write. */
  lemma PatchIdempotent(settings: Json)
    requires Patch(settings).Patched?
    ensures Patch(Patch(settings).settings) == Patched(Patch(settings).settings, false)
  {
    PatchKeepsHooks(settings);
    var out := Patch(settings).settings;
    var p := HooksPatch(HooksOf(out), false);
    KeysDistinct();
    PatchKeysPair(p, HookKeys, BuildHookEntry());
    PatchTwoIdempotent(p, HookKeys[0], HookKeys[1], BuildHookEntry());
    assert out.fields["hooks" := JObject(p.hooks)] == out.fields;
  }

  /** From empty settings: "hooks" holds exactly the two arrays, each holding just
      the new entry, and the result is to be written. */
  lemma PatchFromEmpty()
    ensures var out := Patch(JObject(map[]));
      && out.Patched? && out.changed
      && out.settings.fields.Keys == {"hooks"}
      && out.settings.fields["hooks"].fields.Keys == {HookKeys[0], HookKeys[1]}
      && out.settings.fields["hooks"].fields[HookKeys[0]] == JArray([BuildHookEntry()])
      && out.settings.fields["hooks"].fields[HookKeys[1]] == JArray([BuildHookEntry()])
  {
    var p := HooksPatch(map[], false);
    KeysDistinct();
    PatchKeysPair(p, HookKeys, BuildHookEntry());
    BuiltEntryIsRecognised();
    PatchTwoKeys(p, HookKeys[0], HookKeys[1], BuildHookEntry());
    PatchTwoRecognised(p, HookKeys[0], HookKeys[1], BuildHookEntry());
    PatchTwoChanged(p, HookKeys[0], HookKeys[1], BuildHookEntry());
    assert ItemsAt(map[], HookKeys[0]) == [] && ItemsAt(map[], HookKeys[1]) == [];
  }

  /** Settings whose hooks hold one unrelated PreToolUse entry: the patch succeeds,
      that entry stays first and the logger entry follows it (the other settings
      are kept, by PatchKeepsSettings). */
  lemma PatchKeepsExisting(settings: Json, other: Json)
    requires settings.JObject? && "hooks" in settings.fields
    requires settings.fields["hooks"] == JObject(map[HookKeys[0] := JArray([other])])
    requires !IsLoggerEntry(other)
    ensures Patch(settings).Patched?
    ensures var out := Patch(settings).settings;
      && out.JObject? && "hooks" in out.fields && out.fields["hooks"].JObject?
      && HookKeys[0] in out.fields["hooks"].fields
      && out.fields["hooks"].fields[HookKeys[0]] == JArray([other, BuildHookEntry()])
  {
    KeysDistinct();
    var hooks := map[HookKeys[0] := JArray([other])];
    assert HooksOf(settings) == hooks;
    assert !Malformed(settings) by {
      assert !BadKey(hooks, HookKeys[0]) && !BadKey(hooks, HookKeys[1]);
    }
    PatchFailsIffMalformed(settings);
    PatchKeepsHooks(settings);
    assert ItemsAt(hooks, HookKeys[0]) == [other];
    assert !HasEventLoggerEntry([other]);
  }
}
