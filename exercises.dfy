/**
 * The exercise catalog: a table from exercise id to its definition, kept in
 * key-insertion order because every candidate list of the routine generator is
 * built by walking the catalog's keys in that order.
 */
module Exercises {
  import opened Wrappers

  /** Target muscle group; custom exercises are filed under `Custom`. */
  datatype Muscle = Legs | Push | Pull | Core | Cardio | Custom

  /** Tracking mode: load and reps, reps only (bodyweight), or duration. */
  datatype Mode = Load | Body | Time

  /**
   * One catalog definition. Built-in entries carry a tier (1..3) and possibly a
   * list of required equipment tags; custom entries carry neither.
   * Display names are presentation only and are not part of the model.
   */
  datatype Entry = Entry(muscle: Muscle, mode: Mode, tier: Option<int>, req: Option<seq<string>>)

  /** A user-created exercise as stored in the profile. */
  datatype CustomExercise = CustomExercise(id: string, name: string, mode: Mode, muscle: Option<Muscle>)

  /** The catalog object: its keys in insertion order and the definitions. */
  datatype Table = Table(keys: seq<string>, entries: map<string, Entry>) {
    predicate Valid() {
      && (forall i, j :: 0 <= i < j < |keys| ==> keys[i] != keys[j])
      && (forall k :: k in entries ==> k in keys)
      && (forall k :: k in keys ==> k in entries)
    }
  }

  /** The ids the generator falls back on when no candidate is left. */
  predicate DefaultsPresent(t: Table) {
    && "squat_bw" in t.entries && "pushup" in t.entries && "superman" in t.entries
    && "pullup" in t.entries && "jump_rope" in t.entries && "plank" in t.entries
  }

  /** The built-in catalog ids, in declaration order. */
  const BuiltInIds: seq<string> :=
    ["squat_bw", "lunge_bw", "pushup", "knees_pushup", "plank", "crunch", "superman", "glute_bridge",
     "lunge", "row", "pullup", "dip", "curl", "ext", "weighted_crunch", "diamond_pushup",
     "squat", "deadlift", "bench", "ohp", "hanging_raise", "pistol", "archer_pushup", "jump_rope"]

  /** The built-in definitions, position by position with `BuiltInIds`. */
  const BuiltInDefs: seq<Entry> :=
    [ // tier 1: basic bodyweight
      Entry(Legs, Body, Some(1), None), Entry(Legs, Body, Some(1), None),
      Entry(Push, Body, Some(1), None), Entry(Push, Body, Some(1), None),
      Entry(Core, Time, Some(1), None), Entry(Core, Body, Some(1), None),
      Entry(Pull, Body, Some(1), None), Entry(Legs, Body, Some(1), None),
      // tier 2: weighted isolation, moderate compounds, skilled bodyweight
      Entry(Legs, Load, Some(2), Some(["dumbbells"])), Entry(Pull, Load, Some(2), Some(["dumbbells"])),
      Entry(Pull, Body, Some(2), Some(["bar"])), Entry(Push, Body, Some(2), Some(["bars"])),
      Entry(Pull, Load, Some(2), Some(["dumbbells"])), Entry(Push, Load, Some(2), Some(["dumbbells"])),
      Entry(Core, Load, Some(2), Some(["dumbbells"])), Entry(Push, Body, Some(2), None),
      // tier 3: heavy compounds, advanced calisthenics
      Entry(Legs, Load, Some(3), Some(["dumbbells"])), Entry(Pull, Load, Some(3), Some(["dumbbells"])),
      Entry(Push, Load, Some(3), Some(["dumbbells"])), Entry(Push, Load, Some(3), Some(["dumbbells"])),
      Entry(Core, Body, Some(3), Some(["bar"])), Entry(Legs, Body, Some(3), None),
      Entry(Push, Body, Some(3), None),
      // cardio
      Entry(Cardio, Time, Some(1), Some(["rope"]))
    ]

  lemma BuiltInIdsDistinct()
    ensures |BuiltInIds| == |BuiltInDefs|
    ensures forall i, j :: 0 <= i < j < |BuiltInIds| ==> BuiltInIds[i] != BuiltInIds[j]
  {
  }

  /** The catalog as the application starts it. */
  function BuiltIn(): (t: Table)
    ensures t.keys == BuiltInIds
    ensures forall i :: 0 <= i < |BuiltInIds| ==> BuiltInIds[i] in t.entries && t.entries[BuiltInIds[i]] == BuiltInDefs[i]
  {
    BuiltInIdsDistinct();
    Table(BuiltInIds, map i | 0 <= i < |BuiltInIds| :: BuiltInIds[i] := BuiltInDefs[i])
  }

  /** One built-in definition, looked up by its id. */
  lemma BuiltInAt(i: nat, id: string)
    requires i < |BuiltInIds| && BuiltInIds[i] == id
    ensures id in BuiltIn().keys
    ensures id in BuiltIn().entries && BuiltIn().entries[id] == BuiltInDefs[i]
  {
    var t := BuiltIn();
    assert t.entries[BuiltInIds[i]] == BuiltInDefs[i];
  }

  /** The last-resort defaults as the built-in catalog defines them. */
  lemma SquatEntry()
    ensures "squat_bw" in BuiltIn().keys
    ensures "squat_bw" in BuiltIn().entries && BuiltIn().entries["squat_bw"] == Entry(Legs, Body, Some(1), None)
  {
    BuiltInAt(0, "squat_bw");
  }

  lemma PushupEntry()
    ensures "pushup" in BuiltIn().keys
    ensures "pushup" in BuiltIn().entries && BuiltIn().entries["pushup"] == Entry(Push, Body, Some(1), None)
  {
    BuiltInAt(2, "pushup");
  }

  lemma SupermanEntry()
    ensures "superman" in BuiltIn().keys
    ensures "superman" in BuiltIn().entries && BuiltIn().entries["superman"] == Entry(Pull, Body, Some(1), None)
  {
    BuiltInAt(6, "superman");
  }

  lemma PlankEntry()
    ensures "plank" in BuiltIn().keys
    ensures "plank" in BuiltIn().entries && BuiltIn().entries["plank"] == Entry(Core, Time, Some(1), None)
  {
    BuiltInAt(4, "plank");
  }

  lemma PullupEntry()
    ensures "pullup" in BuiltIn().keys
    ensures "pullup" in BuiltIn().entries && BuiltIn().entries["pullup"] == Entry(Pull, Body, Some(2), Some(["bar"]))
  {
    BuiltInAt(10, "pullup");
  }

  lemma JumpRopeEntry()
    ensures "jump_rope" in BuiltIn().keys
    ensures "jump_rope" in BuiltIn().entries && BuiltIn().entries["jump_rope"] == Entry(Cardio, Time, Some(1), Some(["rope"]))
  {
    BuiltInAt(23, "jump_rope");
  }

  /** The built-in catalog is well formed and holds every last-resort default. */
  lemma BuiltInValid()
    ensures BuiltIn().Valid() && DefaultsPresent(BuiltIn())
  {
    BuiltInIdsDistinct();
    assert BuiltInIds[0] == "squat_bw" && BuiltInIds[2] == "pushup" && BuiltInIds[6] == "superman";
    assert BuiltInIds[10] == "pullup" && BuiltInIds[23] == "jump_rope" && BuiltInIds[4] == "plank";
  }

  /**
   * The home portability allow-list (curl, lunge, row, ohp) only applies to
   * entries without required equipment, and all four declare some: for the
   * built-in catalog the allow-list never admits anything.
   */
  lemma AllowListDeclaresReq(id: string)
    requires id in ["curl", "lunge", "row", "ohp"]
    ensures id in BuiltIn().entries && BuiltIn().entries[id].req.Some?
  {
    assert BuiltInIds[12] == "curl" && BuiltInIds[8] == "lunge" && BuiltInIds[9] == "row" && BuiltInIds[19] == "ohp";
  }

  /**
   * Assigning `CATALOG[id] = e`: a new id is appended to the key order, an
   * existing id keeps its position and gets the new definition.
   */
  function Registered(t: Table, id: string, e: Entry): (r: Table)
    requires t.Valid()
    ensures r.Valid()
    ensures r.entries == t.entries[id := e]
    ensures id in t.entries ==> r.keys == t.keys
    ensures id !in t.entries ==> r.keys == t.keys + [id]
  {
    Table(if id in t.entries then t.keys else t.keys + [id], t.entries[id := e])
  }

  /** The catalog definition a stored custom exercise is replayed as. */
  function CustomEntry(c: CustomExercise): (e: Entry)
    ensures e.tier.None? && e.req.None? && e.mode == c.mode
    ensures c.muscle.None? ==> e.muscle == Custom
  {
    Entry(c.muscle.GetOr(Custom), c.mode, None, None)
  }

  /** Registering a list of custom exercises one after the other. */
  function ApplyCustom(t: Table, cs: seq<CustomExercise>): (r: Table)
    requires t.Valid()
    ensures r.Valid()
    ensures DefaultsPresent(t) ==> DefaultsPresent(r)
    decreases |cs|
  {
    if cs == [] then t
    else
      var last := cs[|cs| - 1];
      Registered(ApplyCustom(t, cs[..|cs| - 1]), last.id, CustomEntry(last))
  }

  /** Replaying one more custom exercise registers it on top of the earlier ones. */
  lemma ApplyCustomStep(t: Table, cs: seq<CustomExercise>, i: int)
    requires t.Valid() && 0 <= i < |cs|
    ensures ApplyCustom(t, cs[..i + 1]) == Registered(ApplyCustom(t, cs[..i]), cs[i].id, CustomEntry(cs[i]))
  {
    assert cs[..i + 1][..i] == cs[..i];
  }

  /**
   * Registering a newly created custom exercise gives the catalog that
   * replaying the extended list at the next login rebuilds.
   */
  lemma CreateMatchesReload(t: Table, cs: seq<CustomExercise>, c: CustomExercise)
    requires t.Valid()
    ensures Registered(ApplyCustom(t, cs), c.id, CustomEntry(c)) == ApplyCustom(t, cs + [c])
  {
    assert (cs + [c])[..|cs|] == cs;
  }

  /** The definitions a custom-exercise list contributes: the last one per id wins. */
  function CustomMap(cs: seq<CustomExercise>): (m: map<string, Entry>)
    ensures forall c :: c in cs ==> c.id in m
    decreases |cs|
  {
    if cs == [] then map[]
    else
      var last := cs[|cs| - 1];
      var m' := CustomMap(cs[..|cs| - 1]);
      assert forall c :: c in cs ==> c == last || c in cs[..|cs| - 1];
      m'[last.id := CustomEntry(last)]
  }

  lemma MapUpdateOverride<K, V>(a: map<K, V>, b: map<K, V>, k: K, v: V)
    ensures (a + b)[k := v] == a + b[k := v]
  {
  }

  /** Replaying custom exercises overrides the catalog exactly with their definitions. */
  lemma {:induction false} ApplyCustomEntries(t: Table, cs: seq<CustomExercise>)
    requires t.Valid()
    ensures ApplyCustom(t, cs).entries == t.entries + CustomMap(cs)
    decreases |cs|
  {
    if cs != [] {
      var last := cs[|cs| - 1];
      var init := cs[..|cs| - 1];
      ApplyCustomEntries(t, init);
      var m' := CustomMap(init);
      calc {
        ApplyCustom(t, cs).entries;
        ApplyCustom(t, init).entries[last.id := CustomEntry(last)];
        (t.entries + m')[last.id := CustomEntry(last)];
        { MapUpdateOverride(t.entries, m', last.id, CustomEntry(last)); }
        t.entries + m'[last.id := CustomEntry(last)];
        t.entries + CustomMap(cs);
      }
    }
  }

  /** Replaying ids that are already catalog keys leaves the key order untouched. */
  lemma {:induction false} ApplyCustomKeys(t: Table, cs: seq<CustomExercise>)
    requires t.Valid()
    requires forall c :: c in cs ==> c.id in t.entries
    ensures ApplyCustom(t, cs).keys == t.keys
    decreases |cs|
  {
    if cs != [] {
      ApplyCustomKeys(t, cs[..|cs| - 1]);
      ApplyCustomEntries(t, cs[..|cs| - 1]);
    }
  }

  /**
   * Replaying the stored custom exercises is idempotent: logging in twice
   * gives the same catalog as logging in once.
   */
  lemma ApplyCustomIdempotent(t: Table, cs: seq<CustomExercise>)
    requires t.Valid()
    ensures ApplyCustom(ApplyCustom(t, cs), cs) == ApplyCustom(t, cs)
  {
    var u := ApplyCustom(t, cs);
    ApplyCustomEntries(t, cs);
    ApplyCustomEntries(u, cs);
    assert forall c :: c in cs ==> c.id in u.entries;
    ApplyCustomKeys(u, cs);
    assert (t.entries + CustomMap(cs)) + CustomMap(cs) == t.entries + CustomMap(cs);
  }

  /** The process-wide catalog object (`CATALOG`), which custom registration mutates. */
  class Catalog {
    var table: Table

    constructor ()
      ensures table == BuiltIn()
    {
      table := BuiltIn();
    }

    /** `CATALOG[id] = e`. */
    method Register(id: string, e: Entry)
      requires table.Valid()
      modifies this
      ensures table == Registered(old(table), id, e)
    {
      var keys := if id in table.entries then table.keys else table.keys + [id];
      table := Table(keys, table.entries[id := e]);
    }

    /** `loadCustomCatalog`'s loop: register every stored custom exercise in order. */
    method LoadCustom(cs: seq<CustomExercise>)
      requires table.Valid()
      modifies this
      ensures table == ApplyCustom(old(table), cs)
    {
      var i := 0;
      while i < |cs|
        invariant 0 <= i <= |cs|
        invariant table.Valid()
        invariant table == ApplyCustom(old(table), cs[..i])
      {
        ApplyCustomStep(old(table), cs, i);
        Register(cs[i].id, CustomEntry(cs[i]));
        i := i + 1;
      }
      assert cs[..|cs|] == cs;
    }
  }
}
