/** Installing and uninstalling the hooks in the user's settings (`adapter-claude/src/install.rs`). */
module Install {
  import opened Protocol
  import opened Text
  import opened HookCommand

  datatype Value =
    | Null
    | Bool(b: bool)
    | Number(digits: string)
    | Str(s: string)
    | Arr(items: seq<Value>)
    | Obj(fields: map<string, Value>)

  const HOOK_KINDS: seq<string> := ["UserPromptSubmit", "PreToolUse", "PostToolUse", "Stop", "Notification"]
  const LEGACY_HOOK_KINDS: seq<string> := ["PreToolUse", "PostToolUse", "Stop", "Notification"]

  // ---- Hooks and groups ----

  /** The array under a key of an object. */
  function InnerHooks(group: Value): Option<seq<Value>> {
    if group.Obj? && "hooks" in group.fields && group.fields["hooks"].Arr? then Some(group.fields["hooks"].items) else None
  }

  predicate IsBowerbirdHook(hook: Value) {
    hook.Obj? && "command" in hook.fields && hook.fields["command"].Str? && IsBowerbirdCommand(hook.fields["command"].s)
  }

  predicate GroupContainsBowerbird(group: Value) {
    InnerHooks(group).Some? && exists h <- InnerHooks(group).value :: IsBowerbirdHook(h)
  }

  predicate GroupIsBowerbirdOnly(group: Value) {
    && InnerHooks(group).Some? && InnerHooks(group).value != []
    && forall h <- InnerHooks(group).value :: IsBowerbirdHook(h)
  }

  predicate ContainsBowerbird(groups: seq<Value>) {
    exists g <- groups :: GroupContainsBowerbird(g)
  }

  function OurGroup(kind: string): Value {
    var hook := Obj(map["type" := Str("command"), "command" := Str(OurCommand(kind))]);
    Obj(map["hooks" := Arr([hook])])
  }

  lemma OurGroupIsBowerbirdOnly(kind: string)
    ensures GroupIsBowerbirdOnly(OurGroup(kind)) && GroupContainsBowerbird(OurGroup(kind))
  {
    OurCommandIsBowerbird(kind);
    var hook := InnerHooks(OurGroup(kind)).value[0];
    assert "command" != "type";
    assert IsBowerbirdHook(hook);
    assert hook in InnerHooks(OurGroup(kind)).value;
  }

  // ---- One kind's array ----

  function MergedGroups(groups: seq<Value>, kind: string): seq<Value> {
    if ContainsBowerbird(groups) then groups else groups + [OurGroup(kind)]
  }

  function UserHooks(hooks: seq<Value>): seq<Value> {
    if hooks == [] then []
    else (if IsBowerbirdHook(hooks[0]) then [] else [hooks[0]]) + UserHooks(hooks[1..])
  }

  /** A group without its bowerbird hooks; its other fields stay. */
  function StripGroup(group: Value): Value {
    match InnerHooks(group)
    case None => group
    case Some(hooks) => Obj(group.fields["hooks" := Arr(UserHooks(hooks))])
  }

  function StripGroups(groups: seq<Value>): seq<Value> {
    if groups == [] then []
    else (if GroupIsBowerbirdOnly(groups[0]) then [] else [StripGroup(groups[0])]) + StripGroups(groups[1..])
  }

  lemma {:induction false} UserHooksShape(hooks: seq<Value>)
    ensures |UserHooks(hooks)| <= |hooks|
    ensures forall h <- UserHooks(hooks) :: !IsBowerbirdHook(h)
    ensures (exists h <- hooks :: IsBowerbirdHook(h)) <==> |UserHooks(hooks)| < |hooks|
    ensures |UserHooks(hooks)| == |hooks| ==> UserHooks(hooks) == hooks
    ensures (forall h <- hooks :: IsBowerbirdHook(h)) <==> UserHooks(hooks) == []
  {
    if hooks != [] {
      UserHooksShape(hooks[1..]);
      assert hooks == [hooks[0]] + hooks[1..];
      assert hooks[0] in hooks;
      assert forall h :: h in hooks <==> h == hooks[0] || h in hooks[1..];
    }
  }

  lemma StripGroupShape(group: Value)
    ensures !GroupContainsBowerbird(StripGroup(group))
    ensures GroupContainsBowerbird(group) <==> StripGroup(group) != group
    ensures !GroupIsBowerbirdOnly(StripGroup(group))
  {
    match InnerHooks(group)
    case None =>
    case Some(hooks) =>
      UserHooksShape(hooks);
      var users := UserHooks(hooks);
      assert InnerHooks(StripGroup(group)) == Some(users);
      assert users != [] ==> users[0] in users && !IsBowerbirdHook(users[0]);
      if UserHooks(hooks) == hooks {
        assert StripGroup(group).fields == group.fields;
      }
  }

  lemma {:induction false} StripGroupsConcat(a: seq<Value>, b: seq<Value>)
    ensures StripGroups(a + b) == StripGroups(a) + StripGroups(b)
  {
    if a == [] {
      assert a + b == b;
    } else {
      assert (a + b)[1..] == a[1..] + b;
      StripGroupsConcat(a[1..], b);
    }
  }

  /** Stripping leaves no bowerbird hook; it changes an array exactly when there was one, and nothing the
      second time. */
  lemma {:induction false} StripGroupsShape(groups: seq<Value>)
    ensures !ContainsBowerbird(StripGroups(groups))
    ensures ContainsBowerbird(groups) <==> StripGroups(groups) != groups
    ensures |StripGroups(groups)| <= |groups|
  {
    if groups != [] {
      var g, rest := groups[0], groups[1..];
      StripGroupsShape(rest);
      StripGroupShape(g);
      assert groups == [g] + rest;
      assert forall x :: x in groups <==> x == g || x in rest;
      if GroupIsBowerbirdOnly(g) {
        assert InnerHooks(g).value[0] in InnerHooks(g).value;
        assert GroupContainsBowerbird(g);
      } else {
        var out := StripGroups(groups);
        assert out == [StripGroup(g)] + StripGroups(rest);
        assert out[0] == StripGroup(g) && out[1..] == StripGroups(rest);
      }
    }
  }

  /** The user's groups keep their values and their order, wherever they stand. */
  lemma UserGroupsKeepTheirPlace(before: seq<Value>, users: seq<Value>, after: seq<Value>)
    requires !ContainsBowerbird(users)
    ensures StripGroups(before + users + after) == StripGroups(before) + users + StripGroups(after)
  {
    StripGroupsConcat(before + users, after);
    StripGroupsConcat(before, users);
    StripGroupsShape(users);
  }

  lemma {:induction false} UserHooksConcat(a: seq<Value>, b: seq<Value>)
    ensures UserHooks(a + b) == UserHooks(a) + UserHooks(b)
  {
    if a == [] {
      assert a + b == b;
    } else {
      assert (a + b)[1..] == a[1..] + b;
      UserHooksConcat(a[1..], b);
    }
  }

  /** Inside a group the user's hooks keep their values and their order, wherever they stand. */
  lemma UserHooksKeepTheirPlace(before: seq<Value>, users: seq<Value>, after: seq<Value>)
    requires forall h <- users :: !IsBowerbirdHook(h)
    ensures UserHooks(before + users + after) == UserHooks(before) + users + UserHooks(after)
  {
    UserHooksConcat(before + users, after);
    UserHooksConcat(before, users);
    UserHooksShape(users);
  }

  /** A group that mixes the user's hooks with ours stays in its place with its other fields, and with the
      user's hooks in theirs. */
  lemma MixedGroupsKeepTheUsersHooks(groupsBefore: seq<Value>, group: Value, groupsAfter: seq<Value>,
                                     before: seq<Value>, users: seq<Value>, after: seq<Value>)
    requires InnerHooks(group) == Some(before + users + after)
    requires users != [] && forall h <- users :: !IsBowerbirdHook(h)
    ensures StripGroups(groupsBefore + [group] + groupsAfter) == StripGroups(groupsBefore) + [StripGroup(group)] + StripGroups(groupsAfter)
    ensures InnerHooks(StripGroup(group)) == Some(UserHooks(before) + users + UserHooks(after))
    ensures StripGroup(group).Obj? && StripGroup(group).fields - {"hooks"} == group.fields - {"hooks"}
  {
    var hooks := before + users + after;
    UserHooksKeepTheirPlace(before, users, after);
    assert users[0] in users && hooks[|before|] == users[0];
    assert !GroupIsBowerbirdOnly(group);
    assert StripGroups([group]) == [StripGroup(group)];
    StripGroupsConcat(groupsBefore + [group], groupsAfter);
    StripGroupsConcat(groupsBefore, [group]);
  }

  /** `retain`: the groups that are not bowerbird's only. */
  function Retained(groups: seq<Value>): seq<Value> {
    if groups == [] then []
    else (if GroupIsBowerbirdOnly(groups[0]) then [] else [groups[0]]) + Retained(groups[1..])
  }

  function EachStripped(groups: seq<Value>): seq<Value> {
    seq(|groups|, i requires 0 <= i < |groups| => StripGroup(groups[i]))
  }

  lemma {:induction false} RetainThenStrip(groups: seq<Value>)
    ensures StripGroups(groups) == EachStripped(Retained(groups))
    ensures |Retained(groups)| <= |groups| && (|Retained(groups)| == |groups| ==> Retained(groups) == groups)
  {
    if groups != [] {
      var g, kept := groups[0], Retained(groups[1..]);
      RetainThenStrip(groups[1..]);
      assert EachStripped([g] + kept) == [StripGroup(g)] + EachStripped(kept);
    }
  }

  /** What uninstalling does to one kind's array, and whether it changed it. */
  method StripArray(groups: seq<Value>) returns (out: seq<Value>, removed: bool)
    ensures out == StripGroups(groups)
    ensures removed <==> out != groups
  {
    out := Retained(groups);
    var kept := out;
    RetainThenStrip(groups);
    removed := false;
    for i := 0 to |out|
      invariant |out| == |kept|
      invariant forall j :: 0 <= j < i ==> out[j] == StripGroup(kept[j])
      invariant forall j :: i <= j < |out| ==> out[j] == kept[j]
      invariant removed <==> exists j :: 0 <= j < i && StripGroup(kept[j]) != kept[j]
    {
      StripGroupShape(out[i]);
      var group := StripGroup(out[i]);
      if GroupContainsBowerbird(out[i]) {
        removed := true;
      }
      out := out[i := group];
    }
    assert out == EachStripped(kept);
    if |kept| != |groups| {
      removed := true;
    }
  }

  // ---- The settings object ----

  type Hooks = map<string, Value>

  /** The `hooks` object, when there is one. */
  function HooksIn(v: Value): Option<Hooks> {
    if v.Obj? && "hooks" in v.fields && v.fields["hooks"].Obj? then Some(v.fields["hooks"].fields) else None
  }

  function HooksOrEmpty(v: Value): Hooks {
    match HooksIn(v)
    case Some(hooks) => hooks
    case None => map[]
  }

  /** The array of a kind, empty where it is missing or not an array. */
  function GroupsAt(hooks: Hooks, kind: string): seq<Value> {
    if kind in hooks && hooks[kind].Arr? then hooks[kind].items else []
  }

  function KindSet(kinds: seq<string>): set<string> {
    set k <- kinds
  }

  function MergedHooks(hooks: Hooks, kinds: set<string>): Hooks {
    map k | k in hooks.Keys + kinds :: if k in kinds then Arr(MergedGroups(GroupsAt(hooks, k), k)) else hooks[k]
  }

  function StrippedHooks(hooks: Hooks, kinds: set<string>): Hooks {
    map k | k in hooks.Keys :: if k in kinds && hooks[k].Arr? then Arr(StripGroups(hooks[k].items)) else hooks[k]
  }

  function Merged(v: Value): Value
    requires v.Obj?
  {
    Obj(v.fields["hooks" := Obj(MergedHooks(HooksOrEmpty(v), KindSet(HOOK_KINDS)))])
  }

  function Stripped(v: Value): Value {
    match HooksIn(v)
    case None => v
    case Some(hooks) => Obj(v.fields["hooks" := Obj(StrippedHooks(hooks, KindSet(HOOK_KINDS)))])
  }

  /** The kinds, in order, whose array has no bowerbird hook. */
  function KindsWithout(hooks: Hooks, kinds: seq<string>): seq<string> {
    if kinds == [] then []
    else
      var last := kinds[|kinds| - 1];
      KindsWithout(hooks, kinds[..|kinds| - 1]) + (if ContainsBowerbird(GroupsAt(hooks, last)) then [] else [last])
  }

  /** The kinds, in order, whose array has one. */
  function KindsWith(hooks: Hooks, kinds: seq<string>): seq<string> {
    if kinds == [] then []
    else
      var last := kinds[|kinds| - 1];
      KindsWith(hooks, kinds[..|kinds| - 1]) + (if ContainsBowerbird(GroupsAt(hooks, last)) then [last] else [])
  }

  lemma KindsAreDistinct()
    ensures |HOOK_KINDS| == 5
    ensures forall i, j :: 0 <= i < j < |HOOK_KINDS| ==> HOOK_KINDS[i] != HOOK_KINDS[j]
  {
    var k := HOOK_KINDS;
    assert k[0][0] == 'U' && k[1][1] == 'r' && k[2][1] == 'o' && k[2][0] == 'P' && k[3][0] == 'S' && k[4][0] == 'N' && k[1][0] == 'P';
  }

  lemma PrefixGrows(kinds: seq<string>, i: nat)
    requires i < |kinds|
    ensures kinds[..i + 1][..i] == kinds[..i] && kinds[..i + 1][i] == kinds[i]
    ensures KindSet(kinds[..i + 1]) == KindSet(kinds[..i]) + {kinds[i]}
  {
    assert kinds[..i + 1] == kinds[..i] + [kinds[i]];
  }

  lemma MergeStep(before: Hooks, done: set<string>, kind: string)
    requires kind !in done
    ensures GroupsAt(MergedHooks(before, done), kind) == GroupsAt(before, kind)
    ensures MergedHooks(before, done + {kind}) == MergedHooks(before, done)[kind := Arr(MergedGroups(GroupsAt(before, kind), kind))]
  {
  }

  lemma StripStep(before: Hooks, done: set<string>, kind: string)
    requires kind !in done
    ensures kind in StrippedHooks(before, done) <==> kind in before
    ensures kind in before ==> StrippedHooks(before, done)[kind] == before[kind]
    ensures kind in before && before[kind].Arr? ==>
      StrippedHooks(before, done + {kind}) == StrippedHooks(before, done)[kind := Arr(StripGroups(before[kind].items))]
    ensures !(kind in before && before[kind].Arr?) ==> StrippedHooks(before, done + {kind}) == StrippedHooks(before, done)
  {
  }

  class Settings {
    var value: Value

    /** `merge_install_into`; the caller has checked that the settings are an object. */
    method MergeInstall() returns (added: seq<string>)
      requires value.Obj?
      modifies this
      ensures value == Merged(old(value))
      ensures added == KindsWithout(HooksOrEmpty(old(value)), HOOK_KINDS)
    {
      var hooks;
      hooks, added := MergeKinds(HooksOrEmpty(value));
      value := Obj(value.fields["hooks" := Obj(hooks)]);
    }

    /** `strip_install_from`. */
    method StripInstall() returns (removed: seq<string>)
      modifies this
      ensures value == Stripped(old(value))
      ensures removed == KindsWith(HooksOrEmpty(old(value)), HOOK_KINDS)
    {
      if HooksIn(value).None? {
        NoKindsWith(HOOK_KINDS);
        return [];
      }
      var hooks;
      hooks, removed := StripKinds(HooksIn(value).value);
      value := Obj(value.fields["hooks" := Obj(hooks)]);
    }
  }

  method MergeKinds(before: Hooks) returns (hooks: Hooks, added: seq<string>)
    ensures hooks == MergedHooks(before, KindSet(HOOK_KINDS))
    ensures added == KindsWithout(before, HOOK_KINDS)
  {
    hooks, added := before, [];
    var kinds := HOOK_KINDS;
    KindsAreDistinct();
    for i := 0 to |kinds|
      invariant hooks == MergedHooks(before, KindSet(kinds[..i]))
      invariant added == KindsWithout(before, kinds[..i])
    {
      var kind := kinds[i];
      PrefixGrows(kinds, i);
      MergeStep(before, KindSet(kinds[..i]), kind);
      var groups := GroupsAt(hooks, kind);
      if ContainsBowerbird(groups) {
        hooks := hooks[kind := Arr(groups)];
      } else {
        hooks := hooks[kind := Arr(groups + [OurGroup(kind)])];
        added := added + [kind];
      }
    }
    assert kinds[..|kinds|] == kinds;
  }

  method StripKinds(before: Hooks) returns (hooks: Hooks, removed: seq<string>)
    ensures hooks == StrippedHooks(before, KindSet(HOOK_KINDS))
    ensures removed == KindsWith(before, HOOK_KINDS)
  {
    hooks, removed := before, [];
    var kinds := HOOK_KINDS;
    KindsAreDistinct();
    for i := 0 to |kinds|
      invariant hooks == StrippedHooks(before, KindSet(kinds[..i]))
      invariant removed == KindsWith(before, kinds[..i])
    {
      var kind := kinds[i];
      PrefixGrows(kinds, i);
      StripStep(before, KindSet(kinds[..i]), kind);
      if kind in hooks && hooks[kind].Arr? {
        StripGroupsShape(hooks[kind].items);
        var out, changed := StripArray(hooks[kind].items);
        hooks := hooks[kind := Arr(out)];
        if changed {
          removed := removed + [kind];
        }
      }
    }
    assert kinds[..|kinds|] == kinds;
  }

  lemma {:induction false} NoKindsWith(kinds: seq<string>)
    ensures KindsWith(map[], kinds) == []
  {
    if kinds != [] { NoKindsWith(kinds[..|kinds| - 1]); }
  }

  // ---- The algebra of installing and uninstalling ----

  /** The hooks with the kinds' missing or ill-typed arrays made empty. */
  function ContainedHooks(hooks: Hooks, kinds: set<string>): Hooks {
    map k | k in hooks.Keys + kinds :: if k in kinds then Arr(GroupsAt(hooks, k)) else hooks[k]
  }

  /** The settings with every missing or ill-typed container of the installer's made empty. */
  function WithContainers(v: Value): Value
    requires v.Obj?
  {
    Obj(v.fields["hooks" := Obj(ContainedHooks(HooksOrEmpty(v), KindSet(HOOK_KINDS)))])
  }

  predicate HasBowerbird(v: Value) {
    HooksIn(v).Some? && exists k <- HOOK_KINDS :: ContainsBowerbird(GroupsAt(HooksIn(v).value, k))
  }

  lemma {:induction false} KindsReported(hooks: Hooks, kinds: seq<string>)
    ensures forall k :: k in KindsWithout(hooks, kinds) <==> k in kinds && !ContainsBowerbird(GroupsAt(hooks, k))
    ensures forall k :: k in KindsWith(hooks, kinds) <==> k in kinds && ContainsBowerbird(GroupsAt(hooks, k))
  {
    if kinds != [] {
      var init, last := kinds[..|kinds| - 1], kinds[|kinds| - 1];
      KindsReported(hooks, init);
      assert kinds == init + [last];
      assert last in kinds && forall k :: k in kinds <==> k in init || k == last;
    }
  }

  lemma NoneReported(hooks: Hooks, kinds: seq<string>)
    ensures (forall k <- kinds :: ContainsBowerbird(GroupsAt(hooks, k))) ==> KindsWithout(hooks, kinds) == []
    ensures (forall k <- kinds :: !ContainsBowerbird(GroupsAt(hooks, k))) ==> KindsWith(hooks, kinds) == []
  {
    KindsReported(hooks, kinds);
    if KindsWithout(hooks, kinds) != [] { assert KindsWithout(hooks, kinds)[0] in KindsWithout(hooks, kinds); }
    if KindsWith(hooks, kinds) != [] { assert KindsWith(hooks, kinds)[0] in KindsWith(hooks, kinds); }
  }

  lemma MergedContains(groups: seq<Value>, kind: string)
    ensures ContainsBowerbird(MergedGroups(groups, kind))
    ensures StripGroups(MergedGroups(groups, kind)) == StripGroups(groups)
  {
    if !ContainsBowerbird(groups) {
      OurGroupIsBowerbirdOnly(kind);
      assert OurGroup(kind) in groups + [OurGroup(kind)];
      StripGroupsConcat(groups, [OurGroup(kind)]);
    }
  }

  lemma MergedHooksContain(hooks: Hooks, kinds: set<string>)
    ensures forall k <- kinds :: ContainsBowerbird(GroupsAt(MergedHooks(hooks, kinds), k))
  {
    forall k <- kinds ensures ContainsBowerbird(GroupsAt(MergedHooks(hooks, kinds), k)) {
      MergedContains(GroupsAt(hooks, k), k);
    }
  }

  lemma MergedGroupsTwice(groups: seq<Value>, kind: string)
    ensures MergedGroups(MergedGroups(groups, kind), kind) == MergedGroups(groups, kind)
  {
    MergedContains(groups, kind);
  }

  lemma MergedHooksSettle(hooks: Hooks, kinds: set<string>)
    ensures MergedHooks(MergedHooks(hooks, kinds), kinds) == MergedHooks(hooks, kinds)
  {
    var merged := MergedHooks(hooks, kinds);
    var twice := MergedHooks(merged, kinds);
    assert twice.Keys == merged.Keys;
    forall k | k in merged ensures twice[k] == merged[k] {
      MergedGroupsTwice(GroupsAt(hooks, k), k);
    }
  }

  lemma StrippedMergedHooks(hooks: Hooks, kinds: set<string>)
    ensures StrippedHooks(MergedHooks(hooks, kinds), kinds) == StrippedHooks(ContainedHooks(hooks, kinds), kinds)
  {
    var merged, contained := MergedHooks(hooks, kinds), ContainedHooks(hooks, kinds);
    assert merged.Keys == contained.Keys;
    forall k | k in merged ensures StrippedHooks(merged, kinds)[k] == StrippedHooks(contained, kinds)[k] {
      if k in kinds { MergedContains(GroupsAt(hooks, k), k); }
    }
  }

  lemma StrippedHooksSettle(hooks: Hooks, kinds: set<string>)
    ensures var stripped := StrippedHooks(hooks, kinds);
      && (forall k <- kinds :: !ContainsBowerbird(GroupsAt(stripped, k)))
      && StrippedHooks(stripped, kinds) == stripped
  {
    forall k <- kinds
      ensures !ContainsBowerbird(StripGroups(GroupsAt(hooks, k)))
      ensures StripGroups(StripGroups(GroupsAt(hooks, k))) == StripGroups(GroupsAt(hooks, k))
    {
      StripGroupsShape(GroupsAt(hooks, k));
      StripGroupsShape(StripGroups(GroupsAt(hooks, k)));
    }
  }

  /** After an install every kind has its hook; installing again changes and reports nothing. */
  lemma MergeIsIdempotent(v: Value)
    requires v.Obj?
    ensures forall k <- HOOK_KINDS :: ContainsBowerbird(GroupsAt(HooksOrEmpty(Merged(v)), k))
    ensures Merged(Merged(v)) == Merged(v)
    ensures KindsWithout(HooksOrEmpty(Merged(v)), HOOK_KINDS) == []
  {
    var kinds, hooks := KindSet(HOOK_KINDS), HooksOrEmpty(v);
    var merged := MergedHooks(hooks, kinds);
    MergedHooksContain(hooks, kinds);
    MergedHooksSettle(hooks, kinds);
    MergedOf(v);
    NoneReported(merged, HOOK_KINDS);
  }

  lemma MergedOf(v: Value)
    requires v.Obj?
    ensures var merged := MergedHooks(HooksOrEmpty(v), KindSet(HOOK_KINDS));
      && HooksOrEmpty(Merged(v)) == merged
      && Merged(Merged(v)) == Obj(v.fields["hooks" := Obj(MergedHooks(merged, KindSet(HOOK_KINDS)))])
  {
    var merged := MergedHooks(HooksOrEmpty(v), KindSet(HOOK_KINDS));
    SetTwice(v.fields, "hooks", Obj(merged), Obj(MergedHooks(merged, KindSet(HOOK_KINDS))));
  }

  lemma SetTwice(fields: map<string, Value>, name: string, first: Value, second: Value)
    ensures fields[name := first][name := second] == fields[name := second]
    ensures fields[name := first][name] == first
  {
  }

  /** After an uninstall no bowerbird hook is left; uninstalling again changes and reports nothing. */
  lemma StripIsIdempotent(v: Value)
    ensures !HasBowerbird(Stripped(v))
    ensures Stripped(Stripped(v)) == Stripped(v)
    ensures KindsWith(HooksOrEmpty(Stripped(v)), HOOK_KINDS) == []
  {
    if HooksIn(v).Some? {
      var hooks := HooksIn(v).value;
      StrippedHooksSettle(hooks, KindSet(HOOK_KINDS));
      assert HooksIn(Stripped(v)) == Some(StrippedHooks(hooks, KindSet(HOOK_KINDS)));
      NoneReported(StrippedHooks(hooks, KindSet(HOOK_KINDS)), HOOK_KINDS);
    } else {
      NoKindsWith(HOOK_KINDS);
    }
  }

  /** Uninstalling right after installing leaves what uninstalling alone leaves, up to the containers the
      installer had to make. */
  lemma StripUndoesMerge(v: Value)
    requires v.Obj?
    ensures Stripped(Merged(v)) == Stripped(WithContainers(v))
  {
    var hooks, kinds := HooksOrEmpty(v), KindSet(HOOK_KINDS);
    StrippedMergedHooks(hooks, kinds);
    WithHooks(v, MergedHooks(hooks, kinds));
    WithHooks(v, ContainedHooks(hooks, kinds));
  }

  lemma WithHooks(v: Value, hooks: Hooks)
    requires v.Obj?
    ensures var w := Obj(v.fields["hooks" := Obj(hooks)]);
      HooksIn(w) == Some(hooks) && Stripped(w) == Obj(v.fields["hooks" := Obj(StrippedHooks(hooks, KindSet(HOOK_KINDS)))])
  {
    var w := Obj(v.fields["hooks" := Obj(hooks)]);
    var stripped := Obj(StrippedHooks(hooks, KindSet(HOOK_KINDS)));
    assert w.fields["hooks" := stripped] == v.fields["hooks" := stripped];
  }

  lemma MergedHooksKeep(hooks: Hooks, kinds: seq<string>)
    ensures var after := MergedHooks(hooks, KindSet(kinds));
      && after.Keys == hooks.Keys + KindSet(kinds)
      && (forall k <- hooks :: k !in kinds ==> after[k] == hooks[k])
      && (forall k <- kinds :: GroupsAt(after, k) == GroupsAt(hooks, k) + if k in KindsWithout(hooks, kinds) then [OurGroup(k)] else [])
  {
    KindsReported(hooks, kinds);
  }

  /** An install changes nothing else: other fields and other kinds stay, the user's groups stay in front,
      and a kind is reported exactly when our group was appended to its array. */
  lemma MergeKeepsTheUsers(v: Value)
    requires v.Obj?
    ensures Merged(v).fields - {"hooks"} == v.fields - {"hooks"}
    ensures var before, after := HooksOrEmpty(v), HooksOrEmpty(Merged(v));
      && after.Keys == before.Keys + KindSet(HOOK_KINDS)
      && (forall k <- before :: k !in HOOK_KINDS ==> after[k] == before[k])
      && (forall k <- HOOK_KINDS :: GroupsAt(after, k) ==
           GroupsAt(before, k) + if k in KindsWithout(before, HOOK_KINDS) then [OurGroup(k)] else [])
  {
    MergedHooksKeep(HooksOrEmpty(v), HOOK_KINDS);
    assert HooksOrEmpty(Merged(v)) == MergedHooks(HooksOrEmpty(v), KindSet(HOOK_KINDS));
  }

  lemma StrippedHooksKeep(hooks: Hooks, kinds: seq<string>)
    ensures var after := StrippedHooks(hooks, KindSet(kinds));
      && after.Keys == hooks.Keys
      && (forall k <- hooks :: k !in kinds || !hooks[k].Arr? ==> after[k] == hooks[k])
      && (forall k <- hooks :: after[k] != hooks[k] <==> k in KindsWith(hooks, kinds))
  {
    KindsReported(hooks, kinds);
    forall k <- hooks | k in kinds && hooks[k].Arr?
      ensures ContainsBowerbird(hooks[k].items) <==> StripGroups(hooks[k].items) != hooks[k].items
    {
      StripGroupsShape(hooks[k].items);
    }
  }

  /** An uninstall changes nothing else, and a kind is reported exactly when its array changed. */
  lemma StripKeepsTheUsers(v: Value)
    requires HooksIn(v).Some?
    ensures Stripped(v).Obj? && Stripped(v).fields - {"hooks"} == v.fields - {"hooks"}
    ensures var before, after := HooksOrEmpty(v), HooksOrEmpty(Stripped(v));
      && after.Keys == before.Keys
      && (forall k <- before :: k !in HOOK_KINDS || !before[k].Arr? ==> after[k] == before[k])
      && (forall k <- before :: after[k] != before[k] <==> k in KindsWith(before, HOOK_KINDS))
  {
    StrippedHooksKeep(HooksOrEmpty(v), HOOK_KINDS);
    assert HooksOrEmpty(Stripped(v)) == StrippedHooks(HooksOrEmpty(v), KindSet(HOOK_KINDS));
  }

  /** A group that runs the shim for this kind: one hook, of type `command`, whose words are the shim, the flag
      and the kind. */
  predicate RunsShimFor(group: Value, kind: string) {
    && group.Obj? && group.fields.Keys == {"hooks"} && group.fields["hooks"].Arr? && |group.fields["hooks"].items| == 1
    && var hook := group.fields["hooks"].items[0];
    && hook.Obj? && hook.fields.Keys == {"type", "command"} && hook.fields["type"] == Str("command") && hook.fields["command"].Str?
    && var command := hook.fields["command"].s;
    && FirstToken(command) == "bowerbird-shim" && FirstToken(AfterWord(command)) == "--hook-kind"
    && FirstToken(AfterWord(AfterWord(command))) == kind && AfterWord(AfterWord(AfterWord(command))) == ""
  }

  /** What an install appends under a kind runs the shim for that very kind. */
  lemma InstalledGroupRunsShim(v: Value, kind: string)
    requires v.Obj? && kind in KindsWithout(HooksOrEmpty(v), HOOK_KINDS)
    ensures var before, after := GroupsAt(HooksOrEmpty(v), kind), GroupsAt(HooksOrEmpty(Merged(v)), kind);
      after != [] && after[..|after| - 1] == before && RunsShimFor(after[|after| - 1], kind)
  {
    KindsReported(HooksOrEmpty(v), HOOK_KINDS);
    MergeKeepsTheUsers(v);
    KindsAreWords();
    OurCommandNamesItsKind(kind);
    OurGroupFields(kind);
  }

  lemma OurGroupFields(kind: string)
    ensures var g := OurGroup(kind);
      && g.fields.Keys == {"hooks"} && g.fields["hooks"].Arr? && |g.fields["hooks"].items| == 1
      && var hook := g.fields["hooks"].items[0];
      hook.Obj? && hook.fields.Keys == {"type", "command"} && hook.fields["type"] == Str("command") &&
      hook.fields["command"] == Str(OurCommand(kind))
  {
    assert "type"[0] != "command"[0];
  }

  /** The kinds installed are the names of exactly the event kinds that hooks report. */
  lemma InstalledKindsAreTheHooks()
    ensures forall kind: EventKind :: HookName(kind).Some? ==> HookName(kind).value in HOOK_KINDS
    ensures forall name <- HOOK_KINDS :: exists kind: EventKind :: HookName(kind) == Some(name)
  {
    var k := HOOK_KINDS;
    assert HookName(UserPromptSubmit) == Some(k[0]) && HookName(PreToolUse) == Some(k[1]) && HookName(PostToolUse) == Some(k[2]);
    assert HookName(Stop) == Some(k[3]) && HookName(Notification) == Some(k[4]);
    forall name <- HOOK_KINDS ensures exists kind: EventKind :: HookName(kind) == Some(name) {
      var i :| 0 <= i < |HOOK_KINDS| && HOOK_KINDS[i] == name;
      assert i == 0 || i == 1 || i == 2 || i == 3 || i == 4;
    }
  }

  lemma KindsAreWords()
    ensures forall k <- HOOK_KINDS :: IsWord(k) && k != ""
  {
    forall i | 0 <= i < 5 ensures IsWord(HOOK_KINDS[i]) && HOOK_KINDS[i] != "" {
      KindIsWord(i);
    }
  }

  lemma KindIsWord(i: nat)
    requires i < 5
    ensures IsWord(HOOK_KINDS[i]) && HOOK_KINDS[i] != ""
  {
    if i == 0 { assert IsWord("UserPromptSubmit"); }
    else if i == 1 { assert IsWord("PreToolUse"); }
    else if i == 2 { assert IsWord("PostToolUse"); }
    else if i == 3 { assert IsWord("Stop"); }
    else { assert IsWord("Notification"); }
  }

  // ---- Upgrades ----

  /** `settings_has_only_legacy_bowerbird_hooks`. */
  predicate HasOnlyLegacyHooks(v: Value) {
    && HooksIn(v).Some?
    && (forall k <- LEGACY_HOOK_KINDS :: ContainsBowerbird(GroupsAt(HooksIn(v).value, k)))
    && !(exists k <- HOOK_KINDS :: k !in LEGACY_HOOK_KINDS && ContainsBowerbird(GroupsAt(HooksIn(v).value, k)))
  }

  lemma KindsWithoutSnoc(hooks: Hooks, kinds: seq<string>, last: string)
    ensures KindsWithout(hooks, kinds + [last]) ==
      KindsWithout(hooks, kinds) + (if ContainsBowerbird(GroupsAt(hooks, last)) then [] else [last])
    ensures KindsWith(hooks, kinds + [last]) ==
      KindsWith(hooks, kinds) + (if ContainsBowerbird(GroupsAt(hooks, last)) then [last] else [])
  {
    assert (kinds + [last])[..|kinds|] == kinds;
  }

  lemma {:induction false} FirstOnlyMissing(hooks: Hooks, first: string, others: seq<string>)
    requires first !in others
    ensures KindsWithout(hooks, [first] + others) == [first] <==>
      !ContainsBowerbird(GroupsAt(hooks, first)) && forall k <- others :: ContainsBowerbird(GroupsAt(hooks, k))
  {
    if others == [] {
      KindsWithoutSnoc(hooks, [], first);
      assert [] + [first] == [first] == [first] + others;
    } else {
      var init, last := others[..|others| - 1], others[|others| - 1];
      assert others == init + [last] && [first] + others == [first] + init + [last];
      FirstOnlyMissing(hooks, first, init);
      KindsWithoutSnoc(hooks, [first] + init, last);
      LastIsNotFirst(KindsWithout(hooks, [first] + init), first, last);
      assert forall k <- others :: k in init || k == last;
      FirstIsKept(hooks, first, init);
    }
  }

  /** A longer list of others still starts with what it started with, so it is the one kind only if nothing
      was added. */
  lemma LastIsNotFirst(before: seq<string>, first: string, last: string)
    requires first != last
    ensures before + [last] != [first]
  {
    assert (before + [last])[|before|] == last;
  }

  lemma {:induction false} FirstIsKept(hooks: Hooks, first: string, others: seq<string>)
    ensures KindsWithout(hooks, [first] + others) == [] ==> ContainsBowerbird(GroupsAt(hooks, first))
  {
    KindsReported(hooks, [first] + others);
    assert first in [first] + others;
  }

  /** The upgrade hint is given exactly when the one kind an install adds is the one legacy installs lacked. */
  lemma LegacyUpgradeIffOnlyNewKindAdded(v: Value)
    requires v.Obj?
    ensures HasOnlyLegacyHooks(v) <==> KindsWithout(HooksOrEmpty(v), HOOK_KINDS) == ["UserPromptSubmit"]
  {
    KindsAreDistinct();
    var first := HOOK_KINDS[0];
    assert HOOK_KINDS == [first] + LEGACY_HOOK_KINDS;
    assert forall i :: 0 <= i < 4 ==> LEGACY_HOOK_KINDS[i] == HOOK_KINDS[i + 1];
    assert first !in LEGACY_HOOK_KINDS;
    FirstOnlyMissing(HooksOrEmpty(v), first, LEGACY_HOOK_KINDS);
    assert first in HOOK_KINDS;
    if HooksIn(v).None? {
      assert LEGACY_HOOK_KINDS[0] in LEGACY_HOOK_KINDS;
      assert !ContainsBowerbird(GroupsAt(map[], LEGACY_HOOK_KINDS[0]));
    }
  }
}
