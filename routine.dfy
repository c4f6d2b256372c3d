/**
 * The routine generator (`Trainer.generateRoutine`): a muscle-group schema
 * from goal and level, per-slot candidate filtering by environment,
 * equipment, tier and variety, a tier-sorted fallback, fixed last-resort
 * defaults, and a random pick among what is left.
 */
module Routine {
  import opened Wrappers
  import opened Seqs
  import opened Exercises
  import opened Model
  import opened Trainer

  /** Where the workout happens. */
  datatype Env = Gym | Home

  /** `user.settings.equip || []`: an unconfigured equipment list reads as empty. */
  function Tools(equip: Option<seq<string>>): (r: seq<string>)
    ensures equip.Some? ==> r == equip.value
    ensures equip.None? ==> r == []
  {
    equip.GetOr([])
  }

  /** The goal's base schema. */
  function BaseSchema(goal: Goal): (s: seq<Muscle>)
    ensures |s| == (if goal == Strength then 5 else if goal == Endurance then 6 else 4)
    ensures s[..3] == [Legs, Push, Pull]
  {
    match goal
    case Strength => [Legs, Push, Pull, Legs, Push]
    case Endurance => [Legs, Push, Pull, Core, Legs, Core]
    case Hypertrophy => [Legs, Push, Pull, Core]
  }

  /**
   * The full schema: the base one, one extra push slot for advanced
   * hypertrophy, one cardio finisher at home when a rope is owned.
   */
  function Schema(goal: Goal, level: Level, env: Env, tools: seq<string>): (s: seq<Muscle>)
    ensures |s| == |BaseSchema(goal)| + (if level == Advanced && goal == Hypertrophy then 1 else 0)
                                      + (if env == Home && "rope" in tools then 1 else 0)
    ensures s[..|BaseSchema(goal)|] == BaseSchema(goal)
    ensures env == Home && "rope" in tools ==> s[|s| - 1] == Cardio
    ensures level == Advanced && goal == Hypertrophy ==> s[|BaseSchema(goal)|] == Push
    ensures Custom !in s
  {
    var base := BaseSchema(goal);
    var withVolume := if level == Advanced && goal == Hypertrophy then base + [Push] else base;
    if env == Home && "rope" in tools then withVolume + [Cardio] else withVolume
  }

  /** The fixed exceptions admitted at home without a declared equipment list. */
  const Portable: seq<string> := ["curl", "lunge", "row", "ohp"]

  predicate HasTools(req: seq<string>, tools: seq<string>) {
    forall tag :: tag in req ==> tag in tools
  }

  /** The primary filter's home check: owned equipment, or portable when none is declared. */
  predicate HomePrimaryOk(id: string, e: Entry, tools: seq<string>) {
    if e.req.Some? then HasTools(e.req.value, tools)
    else e.mode == Body || e.mode == Time || id in Portable
  }

  /**
   * The tier rule: beginners skip tier > 2, advanced users skip tier < 2. An
   * entry without a tier passes both (JavaScript compares `undefined` false).
   */
  predicate TierOk(e: Entry, level: Level) {
    && !(level == Beginner && e.tier.Some? && e.tier.value > 2)
    && !(level == Advanced && e.tier.Some? && e.tier.value < 2)
  }

  /** The primary candidate filter for one slot. */
  predicate PrimaryOk(t: Table, m: Muscle, level: Level, env: Env, tools: seq<string>, used: set<string>, id: string) {
    && id in t.entries
    && t.entries[id].muscle == m
    && (env == Home ==> HomePrimaryOk(id, t.entries[id], tools))
    && TierOk(t.entries[id], level)
    && id !in used
  }

  function Primary(t: Table, m: Muscle, level: Level, env: Env, tools: seq<string>, used: set<string>): (r: seq<string>)
    ensures forall id :: id in r <==> id in t.keys && PrimaryOk(t, m, level, env, tools, used, id)
  {
    Filter(t.keys, id => PrimaryOk(t, m, level, env, tools, used, id))
  }

  /** The fallback filter: same muscle, home equipment check without the allow-list, no tier or variety rule. */
  predicate FallbackOk(t: Table, m: Muscle, env: Env, tools: seq<string>, id: string) {
    && id in t.entries
    && t.entries[id].muscle == m
    && (env == Home ==>
          if t.entries[id].req.Some? then HasTools(t.entries[id].req.value, tools)
          else t.entries[id].mode == Body || t.entries[id].mode == Time)
  }

  /** The sort key; only custom entries lack a tier, and they never match a schema slot. */
  function TierKey(t: Table, id: string): int {
    if id in t.entries && t.entries[id].tier.Some? then t.entries[id].tier.value else 0
  }

  ghost predicate SortedDesc(t: Table, s: seq<string>) {
    forall i, j :: 0 <= i < j < |s| ==> TierKey(t, s[i]) >= TierKey(t, s[j])
  }

  /** Insert `x` in front of the first element of strictly lower tier (keeps the sort stable). */
  function InsertByTier(t: Table, x: string, s: seq<string>): (r: seq<string>)
    ensures multiset(r) == multiset(s) + multiset{x}
  {
    if s == [] || TierKey(t, x) >= TierKey(t, s[0]) then
      [x] + s
    else
      assert s == [s[0]] + s[1..];
      [s[0]] + InsertByTier(t, x, s[1..])
  }

  /** Every element of an insertion result is the inserted one or was already there. */
  lemma InsertMembers(t: Table, x: string, s: seq<string>, y: string)
    requires y in InsertByTier(t, x, s)
    ensures y == x || y in s
  {
    assert y in multiset(InsertByTier(t, x, s));
  }

  /** A head no lower than everything after it extends a sorted list. */
  lemma ConsSorted(t: Table, a: string, rest: seq<string>)
    requires SortedDesc(t, rest)
    requires forall y :: y in rest ==> TierKey(t, y) <= TierKey(t, a)
    ensures SortedDesc(t, [a] + rest)
  {
    forall i, j | 0 <= i < j < |[a] + rest|
      ensures TierKey(t, ([a] + rest)[i]) >= TierKey(t, ([a] + rest)[j])
    {
      if i == 0 {
        assert ([a] + rest)[j] == rest[j - 1];
      } else {
        assert ([a] + rest)[i] == rest[i - 1] && ([a] + rest)[j] == rest[j - 1];
      }
    }
  }

  /** Inserting into a list sorted by descending tier keeps it sorted. */
  lemma {:induction false} InsertSorted(t: Table, x: string, s: seq<string>)
    requires SortedDesc(t, s)
    ensures SortedDesc(t, InsertByTier(t, x, s))
    decreases |s|
  {
    if s != [] && TierKey(t, x) < TierKey(t, s[0]) {
      var rest := InsertByTier(t, x, s[1..]);
      InsertSorted(t, x, s[1..]);
      forall y | y in rest
        ensures TierKey(t, y) <= TierKey(t, s[0])
      {
        InsertMembers(t, x, s[1..], y);
        if y != x {
          var k :| 0 <= k < |s[1..]| && s[1..][k] == y;
          assert s[k + 1] == y;
        }
      }
      ConsSorted(t, s[0], rest);
    }
  }

  /** `.sort((a, b) => tier(b) - tier(a))`: a stable sort by descending tier. */
  function SortByTier(t: Table, s: seq<string>): (r: seq<string>)
    ensures multiset(r) == multiset(s)
    ensures SortedDesc(t, r)
  {
    if s == [] then []
    else
      assert s == [s[0]] + s[1..];
      var sorted := SortByTier(t, s[1..]);
      InsertSorted(t, s[0], sorted);
      InsertByTier(t, s[0], sorted)
  }

  /** Same elements, as sets, when the multisets agree. */
  lemma SameMembers(a: seq<string>, b: seq<string>)
    requires multiset(a) == multiset(b)
    ensures forall id :: id in a <==> id in b
  {
    forall id ensures id in a <==> id in b {
      assert id in a <==> id in multiset(a);
      assert id in b <==> id in multiset(b);
    }
  }

  /** In a tier-sorted list, whatever lies beyond the first `n` has no higher tier than what lies within. */
  lemma {:induction false} PrefixDominates(t: Table, sorted: seq<string>, n: nat)
    requires SortedDesc(t, sorted) && n <= |sorted|
    ensures forall id, x :: id in sorted && id !in sorted[..n] && x in sorted[..n] ==> TierKey(t, id) <= TierKey(t, x)
  {
    forall id, x | id in sorted && id !in sorted[..n] && x in sorted[..n] ensures TierKey(t, id) <= TierKey(t, x) {
      var p :| 0 <= p < |sorted| && sorted[p] == id;
      var q :| 0 <= q < n && sorted[..n][q] == x;
      assert p >= n;
    }
  }

  /** The catalog keys, in key order, that may serve as a fallback for the slot. */
  function Matching(t: Table, m: Muscle, env: Env, tools: seq<string>): (r: seq<string>)
    ensures forall id :: id in r <==> id in t.keys && FallbackOk(t, m, env, tools, id)
    ensures t.Valid() ==> Distinct(r)
  {
    var r := Filter(t.keys, id => FallbackOk(t, m, env, tools, id));
    if t.Valid() then
      FilterDistinct(t.keys, id => FallbackOk(t, m, env, tools, id));
      r
    else
      r
  }

  /**
   * The fallback candidates: the three highest-tier entries of the slot's
   * muscle that pass the home equipment check, or all of them when fewer
   * match; among entries of equal tier, catalog order decides.
   */
  function Fallback(t: Table, m: Muscle, env: Env, tools: seq<string>): (r: seq<string>)
    ensures |r| <= 3
    ensures forall id :: id in r ==> FallbackOk(t, m, env, tools, id)
    ensures SortedDesc(t, r)
    ensures forall id, x :: id in t.keys && FallbackOk(t, m, env, tools, id) && id !in r && x in r ==>
                            TierKey(t, id) <= TierKey(t, x)
    ensures (exists id :: id in t.keys && FallbackOk(t, m, env, tools, id)) ==> |r| > 0
    ensures |r| == if |Matching(t, m, env, tools)| < 3 then |Matching(t, m, env, tools)| else 3
    ensures multiset(r) <= multiset(Matching(t, m, env, tools))
    ensures t.Valid() ==> Distinct(r)
  {
    var sorted := SortByTier(t, Matching(t, m, env, tools));
    var n := if |sorted| < 3 then |sorted| else 3;
    TopFacts(t, m, env, tools, sorted, n);
    TakeOfPermutation(sorted, Matching(t, m, env, tools), n);
    sorted[..n]
  }

  /** The membership and order facts `Fallback` states, about the first n entries of the sorted matches. */
  lemma TopFacts(t: Table, m: Muscle, env: Env, tools: seq<string>, sorted: seq<string>, n: nat)
    requires sorted == SortByTier(t, Matching(t, m, env, tools))
    requires n == if |sorted| < 3 then |sorted| else 3
    ensures |sorted[..n]| <= 3
    ensures forall id :: id in sorted[..n] ==> FallbackOk(t, m, env, tools, id)
    ensures SortedDesc(t, sorted[..n])
    ensures forall id, x :: id in t.keys && FallbackOk(t, m, env, tools, id) && id !in sorted[..n] && x in sorted[..n] ==>
                            TierKey(t, id) <= TierKey(t, x)
    ensures (exists id :: id in t.keys && FallbackOk(t, m, env, tools, id)) ==> |sorted[..n]| > 0
  {
    var matching := Matching(t, m, env, tools);
    SameMembers(sorted, matching);
    PrefixDominates(t, sorted, n);
    assert forall id :: id in sorted[..n] ==> id in sorted;
  }

  /** The absolute last resort per muscle group. */
  function Default(m: Muscle, env: Env, tools: seq<string>): (id: string)
    ensures m == Pull && env == Home && "bar" !in tools && "dumbbells" !in tools ==> id == "superman"
    ensures m == Pull && !(env == Home && "bar" !in tools && "dumbbells" !in tools) ==> id == "pullup"
    ensures m != Pull ==> id == (if m == Legs then "squat_bw" else if m == Push then "pushup"
                                 else if m == Cardio then "jump_rope" else "plank")
  {
    match m
    case Legs => "squat_bw"
    case Push => "pushup"
    case Pull => if env == Home && "bar" !in tools && "dumbbells" !in tools then "superman" else "pullup"
    case Cardio => "jump_rope"
    case _ => "plank"
  }

  /**
   * The list the pick is drawn from: the primary candidates, or the fallback
   * when there are none; the unused ones among them when some are unused;
   * the fixed default when the list is still empty. It is never empty and
   * every id in it is a catalog key.
   */
  function Available(t: Table, m: Muscle, level: Level, env: Env, tools: seq<string>, used: set<string>): (r: seq<string>)
    requires t.Valid() && DefaultsPresent(t)
    ensures |r| > 0
    ensures forall id :: id in r ==> id in t.entries
  {
    var primary := Primary(t, m, level, env, tools, used);
    var candidates := if |primary| == 0 then Fallback(t, m, env, tools) else primary;
    var unused := Filter(candidates, id => id !in used);
    var available := if |unused| == 0 then candidates else unused;
    if |available| == 0 then [Default(m, env, tools)] else available
  }

  /**
   * When the primary list is non-empty the pick satisfies every primary rule:
   * the slot's muscle, the tier rule, not chosen before, and at home the
   * owned-equipment check.
   */
  lemma PickFromPrimary(t: Table, m: Muscle, level: Level, env: Env, tools: seq<string>, used: set<string>, id: string)
    requires t.Valid() && DefaultsPresent(t)
    requires |Primary(t, m, level, env, tools, used)| > 0
    requires id in Available(t, m, level, env, tools, used)
    ensures t.entries[id].muscle == m
    ensures level == Beginner && t.entries[id].tier.Some? ==> t.entries[id].tier.value <= 2
    ensures level == Advanced && t.entries[id].tier.Some? ==> t.entries[id].tier.value >= 2
    ensures id !in used
    ensures env == Home && t.entries[id].req.Some? ==> HasTools(t.entries[id].req.value, tools)
  {
    var primary := Primary(t, m, level, env, tools, used);
    FilterAll(primary, id => id !in used);
    assert id in primary;
  }

  /**
   * When the primary list is empty the pick comes from the fallback list, or
   * is the fixed default when that list is empty too.
   */
  lemma PickFromFallback(t: Table, m: Muscle, level: Level, env: Env, tools: seq<string>, used: set<string>, id: string)
    requires t.Valid() && DefaultsPresent(t)
    requires |Primary(t, m, level, env, tools, used)| == 0
    requires id in Available(t, m, level, env, tools, used)
    ensures |Fallback(t, m, env, tools)| > 0 ==> id in Fallback(t, m, env, tools) && FallbackOk(t, m, env, tools, id)
    ensures |Fallback(t, m, env, tools)| == 0 ==> id == Default(m, env, tools)
  {
  }

  /**
   * Variety: an id already chosen in this pass is picked again only when the
   * primary list is empty and every fallback candidate was already chosen.
   */
  lemma DuplicateOnlyWhenForced(t: Table, m: Muscle, level: Level, env: Env, tools: seq<string>, used: set<string>, id: string)
    requires t.Valid() && DefaultsPresent(t)
    requires id in Available(t, m, level, env, tools, used) && id in used
    ensures |Primary(t, m, level, env, tools, used)| == 0
    ensures forall y :: y in Fallback(t, m, env, tools) ==> y in used
  {
    var primary := Primary(t, m, level, env, tools, used);
    if |primary| > 0 {
      PickFromPrimary(t, m, level, env, tools, used, id);
    }
    var fallback := Fallback(t, m, env, tools);
    var unused := Filter(fallback, y => y !in used);
    if |unused| == 0 {
      forall y | y in fallback ensures y in used {
      }
    }
  }

  /** The set of ids chosen so far (`selectedIds`). */
  function UsedIds(plan: seq<Slot>): set<string> {
    set s | s in plan :: s.id
  }

  /** The slot emitted for a picked id: its targets come from the adaptive engine. */
  function PlannedSlot(t: Table, user: User, id: string): (s: Slot)
    requires id in t.entries
    ensures s.id == id && s.rpe.None?
    ensures var tg := SmartTargets(user.settings.goal, user.settings.level, user.history, id, t.entries[id].mode);
            s.sets == tg.sets && s.val1 == tg.val1 && s.val2 == tg.val2 && s.tip == tg.tip
  {
    var tg := SmartTargets(user.settings.goal, user.settings.level, user.history, id, t.entries[id].mode);
    Slot(id, tg.sets, tg.val1, tg.val2, tg.tip, None)
  }

  /**
   * What a generated routine is: one slot per schema entry, in schema order,
   * each slot's id drawn from the available list given the ids chosen in the
   * earlier slots, with the adaptive targets for that id.
   */
  ghost predicate IsRoutine(t: Table, user: User, env: Env, plan: seq<Slot>)
    requires t.Valid() && DefaultsPresent(t)
  {
    var tools := Tools(user.settings.equip);
    var schema := Schema(user.settings.goal, user.settings.level, env, tools);
    && |plan| == |schema|
    && forall k :: 0 <= k < |plan| ==> SlotPlanned(t, user, env, tools, schema, plan, k)
  }

  /** Slot `k` is drawn from the list available after the earlier slots, with its targets. */
  ghost predicate SlotPlanned(t: Table, user: User, env: Env, tools: seq<string>, schema: seq<Muscle>, plan: seq<Slot>, k: int)
    requires t.Valid() && DefaultsPresent(t)
    requires 0 <= k < |plan| <= |schema|
  {
    && plan[k].id in Available(t, schema[k], user.settings.level, env, tools, UsedIds(plan[..k]))
    && plan[k] == PlannedSlot(t, user, plan[k].id)
  }

  /** The routine property for the first `|plan|` slots of `schema`. */
  ghost predicate PrefixPlanned(t: Table, user: User, env: Env, tools: seq<string>, schema: seq<Muscle>, plan: seq<Slot>)
    requires t.Valid() && DefaultsPresent(t)
  {
    && |plan| <= |schema|
    && forall k :: 0 <= k < |plan| ==> SlotPlanned(t, user, env, tools, schema, plan, k)
  }

  lemma UsedIdsAppend(plan: seq<Slot>, slot: Slot)
    ensures UsedIds(plan + [slot]) == UsedIds(plan) + {slot.id}
  {
    assert forall s :: s in plan + [slot] <==> s in plan || s == slot;
  }

  /** One loop step: appending a slot picked from the current available list extends the property. */
  lemma PrefixStep(t: Table, user: User, env: Env, tools: seq<string>, schema: seq<Muscle>, plan: seq<Slot>, pick: string)
    requires t.Valid() && DefaultsPresent(t)
    requires PrefixPlanned(t, user, env, tools, schema, plan) && |plan| < |schema|
    requires pick in Available(t, schema[|plan|], user.settings.level, env, tools, UsedIds(plan))
    ensures PrefixPlanned(t, user, env, tools, schema, plan + [PlannedSlot(t, user, pick)])
  {
    var next := plan + [PlannedSlot(t, user, pick)];
    forall k | 0 <= k < |next|
      ensures SlotPlanned(t, user, env, tools, schema, next, k)
    {
      if k < |plan| {
        assert next[..k] == plan[..k] && next[k] == plan[k];
        assert SlotPlanned(t, user, env, tools, schema, plan, k);
      } else {
        assert next[..k] == plan;
      }
    }
  }

  /** `Trainer.generateRoutine`; the random pick is a nondeterministic choice. */
  method GenerateRoutine(t: Table, user: User, env: Env) returns (plan: seq<Slot>)
    requires t.Valid() && DefaultsPresent(t)
    ensures IsRoutine(t, user, env, plan)
  {
    var tools := Tools(user.settings.equip);
    var schema := Schema(user.settings.goal, user.settings.level, env, tools);
    var selected: set<string> := {};
    plan := [];
    while |plan| < |schema|
      invariant PrefixPlanned(t, user, env, tools, schema, plan)
      invariant selected == UsedIds(plan)
      decreases |schema| - |plan|
    {
      var available := Available(t, schema[|plan|], user.settings.level, env, tools, selected);
      var i :| 0 <= i < |available|;
      var pick := available[i];
      var slot := PlannedSlot(t, user, pick);
      PrefixStep(t, user, env, tools, schema, plan, pick);
      UsedIdsAppend(plan, slot);
      selected := selected + {pick};
      plan := plan + [slot];
    }
  }

  /** What a generated routine says about its slot `k`. */
  lemma RoutineSlot(t: Table, user: User, env: Env, plan: seq<Slot>, k: int)
    requires t.Valid() && DefaultsPresent(t) && IsRoutine(t, user, env, plan)
    requires 0 <= k < |plan|
    ensures var tools := Tools(user.settings.equip);
            var schema := Schema(user.settings.goal, user.settings.level, env, tools);
            && plan[k].id in Available(t, schema[k], user.settings.level, env, tools, UsedIds(plan[..k]))
            && plan[k] == PlannedSlot(t, user, plan[k].id)
  {
    var tools := Tools(user.settings.equip);
    var schema := Schema(user.settings.goal, user.settings.level, env, tools);
    assert SlotPlanned(t, user, env, tools, schema, plan, k);
  }

  /** In a generated routine a slot repeats an earlier pick only when the generator had no other choice. */
  lemma RoutineRepeatsOnlyWhenForced(t: Table, user: User, env: Env, plan: seq<Slot>, k: nat)
    requires t.Valid() && DefaultsPresent(t) && IsRoutine(t, user, env, plan)
    requires k < |plan| && plan[k].id in UsedIds(plan[..k])
    ensures var tools := Tools(user.settings.equip);
            var m := Schema(user.settings.goal, user.settings.level, env, tools)[k];
            && |Primary(t, m, user.settings.level, env, tools, UsedIds(plan[..k]))| == 0
            && forall y :: y in Fallback(t, m, env, tools) ==> y in UsedIds(plan[..k])
  {
    var tools := Tools(user.settings.equip);
    var m := Schema(user.settings.goal, user.settings.level, env, tools)[k];
    RoutineSlot(t, user, env, plan, k);
    DuplicateOnlyWhenForced(t, m, user.settings.level, env, tools, UsedIds(plan[..k]), plan[k].id);
  }

  /** Each last-resort default belongs to the muscle group it stands in for. */
  predicate DefaultsMatch(t: Table) {
    && DefaultsPresent(t)
    && t.entries["squat_bw"].muscle == Legs && t.entries["pushup"].muscle == Push
    && t.entries["superman"].muscle == Pull && t.entries["pullup"].muscle == Pull
    && t.entries["jump_rope"].muscle == Cardio && t.entries["plank"].muscle == Core
  }

  lemma BuiltInDefaultsMatch()
    ensures DefaultsMatch(BuiltIn())
  {
    SquatEntry();
    PushupEntry();
    SupermanEntry();
    PlankEntry();
    PullupEntry();
    JumpRopeEntry();
  }

  /** Every id offered for a slot trains that slot's muscle group. */
  lemma AvailableMatchesMuscle(t: Table, m: Muscle, level: Level, env: Env, tools: seq<string>, used: set<string>)
    requires t.Valid() && DefaultsMatch(t) && m != Custom
    ensures forall id :: id in Available(t, m, level, env, tools, used) ==> t.entries[id].muscle == m
  {
    forall id | id in Available(t, m, level, env, tools, used) ensures t.entries[id].muscle == m {
      if |Primary(t, m, level, env, tools, used)| > 0 {
        PickFromPrimary(t, m, level, env, tools, used, id);
      } else {
        PickFromFallback(t, m, level, env, tools, used, id);
      }
    }
  }

  /** A tier-1 exercise per muscle group of the hypertrophy schema. */
  function StarterPick(m: Muscle): string {
    match m
    case Legs => "squat_bw"
    case Push => "pushup"
    case Pull => "superman"
    case _ => "plank"
  }

  /** The catalog holds the four starters as tier-1 keys of their muscle groups. */
  predicate StartersPresent(t: Table) {
    && DefaultsMatch(t)
    && "squat_bw" in t.keys && "pushup" in t.keys && "superman" in t.keys && "plank" in t.keys
    && t.entries["squat_bw"].tier == Some(1) && t.entries["pushup"].tier == Some(1)
    && t.entries["superman"].tier == Some(1) && t.entries["plank"].tier == Some(1)
  }

  lemma BuiltInStarters()
    ensures StartersPresent(BuiltIn())
  {
    SquatEntry();
    PushupEntry();
    SupermanEntry();
    PlankEntry();
    PullupEntry();
    JumpRopeEntry();
  }

  lemma StarterPrimary(t: Table, m: Muscle, tools: seq<string>, used: set<string>)
    requires StartersPresent(t) && m in {Legs, Push, Pull, Core}
    requires forall id :: id in used ==> id in t.entries && t.entries[id].muscle != m
    ensures |Primary(t, m, Beginner, Gym, tools, used)| > 0
  {
    assert PrimaryOk(t, m, Beginner, Gym, tools, used, StarterPick(m));
    assert StarterPick(m) in Primary(t, m, Beginner, Gym, tools, used);
  }

  /** Every slot of a generated routine trains the muscle group its schema position names. */
  lemma RoutineMuscles(t: Table, user: User, env: Env, plan: seq<Slot>)
    requires t.Valid() && DefaultsMatch(t) && IsRoutine(t, user, env, plan)
    ensures var schema := Schema(user.settings.goal, user.settings.level, env, Tools(user.settings.equip));
            forall k :: 0 <= k < |plan| ==> plan[k].id in t.entries && t.entries[plan[k].id].muscle == schema[k]
  {
    var tools := Tools(user.settings.equip);
    var schema := Schema(user.settings.goal, user.settings.level, env, tools);
    forall k | 0 <= k < |plan| ensures plan[k].id in t.entries && t.entries[plan[k].id].muscle == schema[k] {
      RoutineSlot(t, user, env, plan, k);
      AvailableMatchesMuscle(t, schema[k], user.settings.level, env, tools, UsedIds(plan[..k]));
    }
  }

  /** The ids chosen before slot `k` all train other groups than slot `k` when the schema has no repeated group. */
  lemma EarlierPicksOtherGroups(t: Table, schema: seq<Muscle>, plan: seq<Slot>, k: nat)
    requires k < |plan| <= |schema|
    requires forall i, j :: 0 <= i < j < |schema| ==> schema[i] != schema[j]
    requires forall j :: 0 <= j < |plan| ==> plan[j].id in t.entries && t.entries[plan[j].id].muscle == schema[j]
    ensures forall id :: id in UsedIds(plan[..k]) ==> id in t.entries && t.entries[id].muscle != schema[k]
  {
    forall id | id in UsedIds(plan[..k]) ensures id in t.entries && t.entries[id].muscle != schema[k] {
      var s :| s in plan[..k] && s.id == id;
      var j :| 0 <= j < k && plan[..k][j] == s;
      assert plan[j] == s;
    }
  }

  /** One slot of a beginner gym routine over distinct groups that each have a starter: the primary rules apply. */
  lemma StarterSlot(t: Table, schema: seq<Muscle>, tools: seq<string>, plan: seq<Slot>, k: nat)
    requires t.Valid() && StartersPresent(t)
    requires k < |plan| <= |schema|
    requires forall i, j :: 0 <= i < j < |schema| ==> schema[i] != schema[j]
    requires forall m :: m in schema ==> m in {Legs, Push, Pull, Core}
    requires forall j :: 0 <= j < |plan| ==> plan[j].id in t.entries && t.entries[plan[j].id].muscle == schema[j]
    requires plan[k].id in Available(t, schema[k], Beginner, Gym, tools, UsedIds(plan[..k]))
    ensures t.entries[plan[k].id].tier.Some? ==> t.entries[plan[k].id].tier.value <= 2
  {
    var used := UsedIds(plan[..k]);
    EarlierPicksOtherGroups(t, schema, plan, k);
    assert schema[k] in schema;
    StarterPrimary(t, schema[k], tools, used);
    PickFromPrimary(t, schema[k], Beginner, Gym, tools, used, plan[k].id);
  }

  /**
   * A beginner gym routine whose schema names distinct groups, each with a
   * tier-1 starter, keeps every slot at tier 2 or below.
   */
  lemma BeginnerStartersTier(t: Table, user: User, plan: seq<Slot>)
    requires t.Valid() && StartersPresent(t) && user.settings.level == Beginner
    requires IsRoutine(t, user, Gym, plan)
    requires var schema := Schema(user.settings.goal, Beginner, Gym, Tools(user.settings.equip));
             && (forall i, j :: 0 <= i < j < |schema| ==> schema[i] != schema[j])
             && forall m :: m in schema ==> m in {Legs, Push, Pull, Core}
    ensures forall k :: 0 <= k < |plan| ==>
              plan[k].id in t.entries && (t.entries[plan[k].id].tier.Some? ==> t.entries[plan[k].id].tier.value <= 2)
  {
    var tools := Tools(user.settings.equip);
    var schema := Schema(user.settings.goal, Beginner, Gym, tools);
    RoutineMuscles(t, user, Gym, plan);
    forall k | 0 <= k < |plan|
      ensures plan[k].id in t.entries && (t.entries[plan[k].id].tier.Some? ==> t.entries[plan[k].id].tier.value <= 2)
    {
      RoutineSlot(t, user, Gym, plan, k);
      StarterSlot(t, schema, tools, plan, k);
    }
  }

  lemma HypertrophyGroupsDistinct()
    ensures var groups := [Legs, Push, Pull, Core];
            && (forall i, j :: 0 <= i < j < |groups| ==> groups[i] != groups[j])
            && forall m :: m in groups ==> m in {Legs, Push, Pull, Core}
  {
  }

  /**
   * A beginner hypertrophy routine at the gym has four slots, legs, push,
   * pull and core in that order, and none of them is above tier 2: each slot
   * has a tier-1 starter of its own group available, so the primary rules
   * always apply.
   */
  lemma BeginnerHypertrophyGym(t: Table, user: User, plan: seq<Slot>)
    requires t.Valid() && StartersPresent(t)
    requires user.settings.goal == Hypertrophy && user.settings.level == Beginner
    requires IsRoutine(t, user, Gym, plan)
    ensures |plan| == 4
    ensures forall k :: 0 <= k < 4 ==>
              && plan[k].id in t.entries
              && t.entries[plan[k].id].muscle == [Legs, Push, Pull, Core][k]
              && (t.entries[plan[k].id].tier.Some? ==> t.entries[plan[k].id].tier.value <= 2)
  {
    var tools := Tools(user.settings.equip);
    var schema := Schema(Hypertrophy, Beginner, Gym, tools);
    assert schema == [Legs, Push, Pull, Core];
    RoutineMuscles(t, user, Gym, plan);
    forall k | 0 <= k < 4 ensures plan[k].id in t.entries && t.entries[plan[k].id].muscle == [Legs, Push, Pull, Core][k] {
      assert t.entries[plan[k].id].muscle == schema[k];
    }
    HypertrophyGroupsDistinct();
    BeginnerStartersTier(t, user, plan);
  }
}
