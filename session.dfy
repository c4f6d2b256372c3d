/**
 * The application controller of the training app (`App` in script.js and
 * `App.toggleTheme`): the signed-in profile, the plan being edited, the
 * in-session cursor (`App.sess`) and the operations that change them.
 */
module Session {
  import opened Wrappers
  import opened Exercises
  import opened Model
  import opened Trainer
  import opened Routine
  import opened Store

  /** Whether the exercise selector appends to the plan or replaces the selected row. */
  datatype SelectorMode = Add | Replace

  /** `App.sess` without its interval handle: current exercise, current set, rest countdown. */
  datatype SessState = SessState(idx: int, setNo: int, restTime: int)

  const FreshSession: SessState := SessState(0, 1, 90)

  /** `settings.rTime || 90`: an unset rest time of 0 falls back to 90 seconds. */
  function RestOf(rTime: int): (r: int)
    ensures rTime != 0 ==> r == rTime
    ensures rTime == 0 ==> r == 90
    ensures rTime > 0 ==> r > 0
  {
    if rTime == 0 then 90 else rTime
  }

  /**
   * The row `selectExercise` builds: the start-parameter set count, the
   * history-driven target pair, no tip. It is the generator's slot for the
   * same id with the tip cleared.
   */
  function ChosenSlot(t: Table, user: User, id: string): (s: Slot)
    requires id in t.entries
    ensures s == PlannedSlot(t, user, id).(tip := None)
  {
    var mode := t.entries[id].mode;
    var start := StartParams(user.settings.goal, user.settings.level, mode);
    var hist := SmartTargets(user.settings.goal, user.settings.level, user.history, id, mode);
    Slot(id, start.sets, hist.val1, hist.val2, None, None)
  }

  /** `activeWorkout.splice(i, 1)`: removes the row at `i`, a no-op outside the list. */
  function Removed(s: seq<Slot>, i: int): (r: seq<Slot>)
    ensures 0 <= i < |s| ==> |r| == |s| - 1 && multiset(r) + multiset{s[i]} == multiset(s)
    ensures 0 <= i < |s| ==> (forall j :: 0 <= j < i ==> r[j] == s[j]) && (forall j :: i <= j < |r| ==> r[j] == s[j + 1])
    ensures !(0 <= i < |s|) ==> r == s
  {
    if 0 <= i < |s| then
      assert s == s[..i] + [s[i]] + s[i + 1..];
      s[..i] + s[i + 1..]
    else s
  }

  /**
   * The two input fields `renderSet` fills for a row: reps or seconds first
   * and the load second, except in load mode, where the load comes first.
   * In time mode the second field is hidden and is never read back.
   */
  function Displayed(s: Slot, mode: Mode): (r: (real, real))
    ensures mode == Load ==> r == (s.val2, s.val1)
    ensures mode != Load ==> r == (s.val1, s.val2)
  {
    if mode == Load then (s.val2, s.val1) else (s.val1, s.val2)
  }

  /** The row after `finishSet` captures the two inputs and the effort code (default "2"). */
  function Recorded(s: Slot, mode: Mode, v1: real, v2: real, rpe: Option<string>): (r: Slot)
    ensures r.id == s.id && r.sets == s.sets && r.tip == s.tip
    ensures r.rpe == Some(rpe.GetOr("2"))
    ensures mode == Time ==> r.val1 == v1 && r.val2 == s.val2
    ensures mode == Load ==> r.val1 == v2 && r.val2 == v1
    ensures mode == Body ==> r.val1 == v1 && r.val2 == v2
  {
    var vals := if mode == Time then (v1, s.val2) else if mode == Load then (v2, v1) else (v1, v2);
    s.(val1 := vals.0, val2 := vals.1, rpe := Some(rpe.GetOr("2")))
  }

  /**
   * Finishing a set with the inputs exactly as displayed keeps the target
   * pair: display and capture are inverse in every mode, whatever the hidden
   * second field holds in time mode.
   */
  lemma RecordDisplayedKeepsTargets(s: Slot, mode: Mode, hidden: real, rpe: Option<string>)
    ensures var shown := Displayed(s, mode);
            var r := Recorded(s, mode, shown.0, if mode == Time then hidden else shown.1, rpe);
            r.val1 == s.val1 && r.val2 == s.val2
  {
  }

  /** Sum of the target set counts. */
  function TotalSets(plan: seq<Slot>): (n: int)
    ensures (forall s :: s in plan ==> s.sets >= 1) ==> n >= |plan|
  {
    if plan == [] then 0 else plan[0].sets + TotalSets(plan[1..])
  }

  /** A session cursor that points at a set of a plan whose rows each have at least one set. */
  ghost predicate CursorOk(plan: seq<Slot>, sess: SessState) {
    && 0 <= sess.idx < |plan|
    && (forall s :: s in plan ==> s.sets >= 1)
    && 1 <= sess.setNo <= plan[sess.idx].sets
  }

  /** Sets still to be finished after the current one. */
  ghost function SetsLeft(plan: seq<Slot>, sess: SessState): int
    requires 0 <= sess.idx < |plan|
  {
    plan[sess.idx].sets - sess.setNo + TotalSets(plan[sess.idx + 1..])
  }

  /** `App.toggleTheme`'s new value: "dark" becomes "light", anything else "dark". */
  function ToggledTheme(theme: string): (r: string)
    ensures r == "light" <==> theme == "dark"
    ensures r == "dark" <==> theme != "dark"
  {
    if theme == "dark" then "light" else "dark"
  }

  /** Toggling twice from a set theme restores it. */
  lemma ToggleTwice(theme: string)
    requires theme == "dark" || theme == "light"
    ensures ToggledTheme(ToggledTheme(theme)) == theme
  {
  }

  class App {
    var user: Option<User>
    var activeWorkout: seq<Slot>
    var sess: SessState
    var activeActionIdx: int
    var selectorMode: SelectorMode
    /** The display language of the screen strings (`I18n.lang`). */
    var uiLang: string
    const catalog: Catalog
    const store: UserStore

    constructor (catalog: Catalog, store: UserStore)
      ensures this.catalog == catalog && this.store == store
      ensures user.None? && activeWorkout == [] && sess == FreshSession
      ensures activeActionIdx == -1 && selectorMode == Add && uiLang == "en"
    {
      this.catalog := catalog;
      this.store := store;
      user := None;
      activeWorkout := [];
      sess := FreshSession;
      activeActionIdx := -1;
      selectorMode := Add;
      uiLang := "en";
    }

    /** `loadCustomCatalog`: replay the profile's custom exercises into the catalog. */
    method LoadCustomCatalog()
      requires catalog.table.Valid()
      modifies catalog
      ensures user.Some? ==> catalog.table == ApplyCustom(old(catalog.table), user.value.custom)
      ensures user.None? ==> catalog.table == old(catalog.table)
    {
      if user.Some? {
        catalog.LoadCustom(user.value.custom);
      }
    }

    /**
     * `App.generate(env)`: at home with the equipment never configured, open
     * the equipment selector instead and keep the plan; otherwise replace the
     * plan with a generated routine. A configured-but-empty list passes.
     */
    method Generate(env: Env) returns (askedForEquipment: bool)
      requires user.Some? && catalog.table.Valid() && DefaultsPresent(catalog.table)
      modifies this
      ensures askedForEquipment <==> env == Home && old(user).value.settings.equip.None?
      ensures askedForEquipment ==> activeWorkout == old(activeWorkout)
      ensures !askedForEquipment ==> IsRoutine(catalog.table, old(user).value, env, activeWorkout)
      ensures user == old(user) && sess == old(sess) && activeActionIdx == old(activeActionIdx)
      ensures selectorMode == old(selectorMode) && uiLang == old(uiLang)
    {
      if env == Home && user.value.settings.equip.None? {
        askedForEquipment := true;
      } else {
        var t, u := catalog.table, user.value;
        var plan := GenerateRoutine(t, u, env);
        activeWorkout := plan;
        assert IsRoutine(t, u, env, activeWorkout);
        askedForEquipment := false;
      }
    }

    /** `saveEquipAndGen`: store the chosen equipment, save the profile, generate at home. */
    method SaveEquipmentAndGenerate(equip: seq<string>)
      requires user.Some? && catalog.table.Valid() && DefaultsPresent(catalog.table)
      modifies this, store
      ensures user == Some(old(user).value.(settings := old(user).value.settings.(equip := Some(equip))))
      ensures store.users == Upserted(old(store.users), user.value)
      ensures IsRoutine(catalog.table, user.value, Home, activeWorkout)
      ensures sess == old(sess) && activeActionIdx == old(activeActionIdx)
      ensures selectorMode == old(selectorMode) && uiLang == old(uiLang)
    {
      user := Some(user.value.(settings := user.value.settings.(equip := Some(equip))));
      store.SaveUser(user.value);
      var asked := Generate(Home);
    }

    /** `openActionSheet(i)`: remember the row the action sheet acts on. */
    method OpenActionSheet(i: int)
      modifies this
      ensures activeActionIdx == i
      ensures user == old(user) && activeWorkout == old(activeWorkout) && sess == old(sess)
      ensures selectorMode == old(selectorMode) && uiLang == old(uiLang)
    {
      activeActionIdx := i;
    }

    /** `openExSelector(mode)`: remember whether the pick adds or replaces. */
    method OpenExSelector(mode: SelectorMode)
      modifies this
      ensures selectorMode == mode
      ensures user == old(user) && activeWorkout == old(activeWorkout) && sess == old(sess)
      ensures activeActionIdx == old(activeActionIdx) && uiLang == old(uiLang)
    {
      selectorMode := mode;
    }

    /**
     * `selectExercise(id)`: append the chosen row, or put it in place of the
     * selected row; in replace mode with no row selected nothing changes.
     */
    method SelectExercise(id: string)
      requires user.Some? && id in catalog.table.entries
      requires selectorMode == Replace ==> activeActionIdx < |activeWorkout|
      modifies this
      ensures old(selectorMode) == Add ==> activeWorkout == old(activeWorkout) + [ChosenSlot(catalog.table, old(user).value, id)]
      ensures old(selectorMode) == Replace && old(activeActionIdx) > -1 ==>
                activeWorkout == old(activeWorkout)[old(activeActionIdx) := ChosenSlot(catalog.table, old(user).value, id)]
      ensures old(selectorMode) == Replace && old(activeActionIdx) <= -1 ==> activeWorkout == old(activeWorkout)
      ensures user == old(user) && sess == old(sess) && activeActionIdx == old(activeActionIdx)
      ensures selectorMode == old(selectorMode) && uiLang == old(uiLang)
    {
      var row := ChosenSlot(catalog.table, user.value, id);
      if selectorMode == Add {
        activeWorkout := activeWorkout + [row];
      } else if activeActionIdx > -1 {
        activeWorkout := activeWorkout[activeActionIdx := row];
      }
    }

    /**
     * `saveCustomExercise(name, mode)` with the name already trimmed: an empty
     * name is refused; otherwise the exercise joins the profile, the profile
     * is saved, the catalog gains the entry under a fresh `cust_` id, and the
     * exercise is selected as by `selectExercise`.
     */
    method SaveCustomExercise(name: string, mode: Mode) returns (created: bool, id: string)
      requires user.Some? && catalog.table.Valid()
      requires selectorMode == Replace ==> activeActionIdx < |activeWorkout|
      modifies this, store, catalog
      ensures created <==> name != ""
      ensures !created ==> user == old(user) && activeWorkout == old(activeWorkout)
                           && catalog.table == old(catalog.table) && store.users == old(store.users)
      ensures created ==>
                var c := CustomExercise(id, name, mode, Some(Custom));
                && |id| > 5 && id[..5] == "cust_"
                && user == Some(old(user).value.(custom := old(user).value.custom + [c]))
                && store.users == Upserted(old(store.users), user.value)
                && catalog.table == Registered(old(catalog.table), id, CustomEntry(c))
      ensures created && old(selectorMode) == Add ==>
                activeWorkout == old(activeWorkout) + [ChosenSlot(catalog.table, user.value, id)]
      ensures created && old(selectorMode) == Replace && old(activeActionIdx) > -1 ==>
                activeWorkout == old(activeWorkout)[old(activeActionIdx) := ChosenSlot(catalog.table, user.value, id)]
      ensures created && old(selectorMode) == Replace && old(activeActionIdx) <= -1 ==>
                activeWorkout == old(activeWorkout)
      ensures sess == old(sess) && activeActionIdx == old(activeActionIdx)
      ensures selectorMode == old(selectorMode) && uiLang == old(uiLang)
    {
      var stamp: string :| |stamp| > 0;
      id := "cust_" + stamp;
      if name == "" {
        return false, id;
      }
      var c := CustomExercise(id, name, mode, Some(Custom));
      user := Some(user.value.(custom := user.value.custom + [c]));
      store.SaveUser(user.value);
      catalog.Register(id, CustomEntry(c));
      SelectExercise(id);
      assert id[..5] == "cust_";
      created := true;
    }

    /** `removeExercise`: splice out the selected row. */
    method RemoveExercise()
      modifies this
      ensures activeWorkout == Removed(old(activeWorkout), activeActionIdx)
      ensures user == old(user) && sess == old(sess) && activeActionIdx == old(activeActionIdx)
      ensures selectorMode == old(selectorMode) && uiLang == old(uiLang)
    {
      if activeActionIdx > -1 && activeActionIdx < |activeWorkout| {
        activeWorkout := activeWorkout[..activeActionIdx] + activeWorkout[activeActionIdx + 1..];
      }
    }

    /** `startSess`: first exercise, first set, a 90-second rest preset. */
    method StartSess()
      modifies this
      ensures sess == FreshSession
      ensures user == old(user) && activeWorkout == old(activeWorkout) && activeActionIdx == old(activeActionIdx)
      ensures selectorMode == old(selectorMode) && uiLang == old(uiLang)
    {
      sess := FreshSession;
    }

    /**
     * `finishSet`: record the inputs into the current row, then move to the
     * next set, or to the first set of the next exercise (both start a rest
     * of the profile's rest time), or, after the last set of the last
     * exercise, append the workout to the history and save the profile.
     */
    method FinishSet(v1: real, v2: real, rpe: Option<string>, now: int) returns (saved: bool)
      requires user.Some? && 0 <= sess.idx < |activeWorkout|
      requires activeWorkout[sess.idx].id in catalog.table.entries
      modifies this, store
      ensures var ex := old(activeWorkout)[old(sess).idx];
              activeWorkout == old(activeWorkout)[old(sess).idx := Recorded(ex, catalog.table.entries[ex.id].mode, v1, v2, rpe)]
      ensures old(sess).setNo < old(activeWorkout)[old(sess).idx].sets ==>
                !saved && sess == SessState(old(sess).idx, old(sess).setNo + 1, RestOf(old(user).value.settings.rTime))
      ensures old(sess).setNo >= old(activeWorkout)[old(sess).idx].sets && old(sess).idx < |activeWorkout| - 1 ==>
                !saved && sess == SessState(old(sess).idx + 1, 1, RestOf(old(user).value.settings.rTime))
      ensures saved <==> old(sess).setNo >= old(activeWorkout)[old(sess).idx].sets && old(sess).idx >= |activeWorkout| - 1
      ensures saved ==> user == Some(old(user).value.(history := old(user).value.history + [Session(now, activeWorkout)]))
      ensures saved ==> store.users == Upserted(old(store.users), user.value) && sess == old(sess)
      ensures !saved ==> user == old(user) && store.users == old(store.users)
      ensures CursorOk(old(activeWorkout), old(sess)) ==> (saved <==> SetsLeft(old(activeWorkout), old(sess)) == 0)
      ensures CursorOk(old(activeWorkout), old(sess)) && !saved ==>
                CursorOk(activeWorkout, sess) && SetsLeft(activeWorkout, sess) == SetsLeft(old(activeWorkout), old(sess)) - 1
      ensures activeActionIdx == old(activeActionIdx) && selectorMode == old(selectorMode) && uiLang == old(uiLang)
    {
      var ex := activeWorkout[sess.idx];
      var mode := catalog.table.entries[ex.id].mode;
      var oldPlan := activeWorkout;
      activeWorkout := activeWorkout[sess.idx := Recorded(ex, mode, v1, v2, rpe)];
      assert activeWorkout[sess.idx + 1..] == oldPlan[sess.idx + 1..];
      if sess.setNo < ex.sets {
        sess := sess.(setNo := sess.setNo + 1, restTime := RestOf(user.value.settings.rTime));
        saved := false;
      } else if sess.idx < |activeWorkout| - 1 {
        assert oldPlan[sess.idx + 1..] == [oldPlan[sess.idx + 1]] + oldPlan[sess.idx + 2..];
        sess := SessState(sess.idx + 1, 1, RestOf(user.value.settings.rTime));
        saved := false;
        assert CursorOk(oldPlan, old(sess)) ==> oldPlan[sess.idx] in oldPlan;
      } else {
        user := Some(user.value.(history := user.value.history + [Session(now, activeWorkout)]));
        store.SaveUser(user.value);
        saved := true;
      }
    }

    /** `adjustTimer(delta)`: shift the rest countdown, never below zero. */
    method AdjustTimer(delta: int)
      modifies this
      ensures sess == old(sess).(restTime := if old(sess).restTime + delta < 0 then 0 else old(sess).restTime + delta)
      ensures sess.restTime >= 0
      ensures old(sess).restTime + delta >= 0 ==> sess.restTime - old(sess).restTime == delta
      ensures user == old(user) && activeWorkout == old(activeWorkout) && activeActionIdx == old(activeActionIdx)
      ensures selectorMode == old(selectorMode) && uiLang == old(uiLang)
    {
      var r := sess.restTime + delta;
      if r < 0 {
        r := 0;
      }
      sess := sess.(restTime := r);
    }

    /**
     * `updateSettings`: copy the four chosen values into the profile; when
     * any of them differs, save the profile; a new language also switches the
     * display language.
     */
    method UpdateSettings(lang: string, theme: string, goal: Goal, level: Level) returns (changed: bool)
      requires user.Some?
      modifies this, store
      ensures user == Some(old(user).value.(settings := old(user).value.settings.(lang := lang, theme := theme, goal := goal, level := level)))
      ensures var s := old(user).value.settings;
              changed <==> s.lang != lang || s.theme != theme || s.goal != goal || s.level != level
      ensures changed ==> store.users == Upserted(old(store.users), user.value)
      ensures !changed ==> user == old(user) && store.users == old(store.users)
      ensures uiLang == if old(user).value.settings.lang != lang then lang else old(uiLang)
      ensures activeWorkout == old(activeWorkout) && sess == old(sess)
      ensures activeActionIdx == old(activeActionIdx) && selectorMode == old(selectorMode)
    {
      var s := user.value.settings;
      changed := s.lang != lang || s.theme != theme || s.goal != goal || s.level != level;
      if s.lang != lang {
        uiLang := lang;
      }
      user := Some(user.value.(settings := s.(lang := lang, theme := theme, goal := goal, level := level)));
      if changed {
        store.SaveUser(user.value);
      }
    }

    /** `App.toggleTheme`: flip the profile's theme and save it; without a profile nothing happens. */
    method ToggleTheme()
      modifies this, store
      ensures old(user).None? ==> user == old(user) && store.users == old(store.users)
      ensures old(user).Some? ==>
                && user == Some(old(user).value.(settings := old(user).value.settings.(theme := ToggledTheme(old(user).value.settings.theme))))
                && store.users == Upserted(old(store.users), user.value)
      ensures activeWorkout == old(activeWorkout) && sess == old(sess) && activeActionIdx == old(activeActionIdx)
      ensures selectorMode == old(selectorMode) && uiLang == old(uiLang)
    {
      if user.None? {
        return;
      }
      var newTheme := if user.value.settings.theme == "dark" then "light" else "dark";
      user := Some(user.value.(settings := user.value.settings.(theme := newTheme)));
      store.SaveUser(user.value);
    }

    /**
     * `register`: a missing name or email is refused; otherwise a profile with
     * the default settings (Spanish, dark, hypertrophy, intermediate, 90 s
     * rest, equipment never configured) is saved, signed in and its language
     * applied.
     */
    method Register(name: string, email: string) returns (ok: bool)
      modifies this, store
      ensures ok <==> name != "" && email != ""
      ensures !ok ==> user == old(user) && store.users == old(store.users) && uiLang == old(uiLang)
      ensures ok ==> user == Some(User(name, email, [], [], Settings("es", "dark", Hypertrophy, Intermediate, 90, None)))
      ensures ok ==> store.users == Upserted(old(store.users), user.value)
      ensures ok ==> Find(store.users, email) == user && uiLang == "es"
      ensures activeWorkout == old(activeWorkout) && sess == old(sess)
      ensures activeActionIdx == old(activeActionIdx) && selectorMode == old(selectorMode)
    {
      if name == "" || email == "" {
        return false;
      }
      var u := User(name, email, [], [], Settings("es", "dark", Hypertrophy, Intermediate, 90, None));
      store.SaveUser(u);
      FindAfterSave(old(store.users), u);
      user := Some(u);
      uiLang := u.settings.lang;
      ok := true;
    }

    /**
     * `login(email)`: a stored profile is signed in, its custom exercises are
     * replayed into the catalog and its language applied; an unknown email
     * changes nothing.
     */
    method Login(email: string) returns (found: bool)
      requires catalog.table.Valid()
      modifies this, catalog
      ensures found <==> Find(store.users, email).Some?
      ensures found ==> user == Find(store.users, email) && user.value.email == email
      ensures found ==> catalog.table == ApplyCustom(old(catalog.table), user.value.custom)
      ensures found ==> uiLang == user.value.settings.lang
      ensures !found ==> user == old(user) && catalog.table == old(catalog.table) && uiLang == old(uiLang)
      ensures activeWorkout == old(activeWorkout) && sess == old(sess)
      ensures activeActionIdx == old(activeActionIdx) && selectorMode == old(selectorMode)
    {
      var u := Find(store.users, email);
      if u.None? {
        return false;
      }
      user := u;
      LoadCustomCatalog();
      uiLang := u.value.settings.lang;
      found := true;
    }

    /** `logout`: forget the signed-in profile; the stored profiles stay. */
    method Logout()
      modifies this
      ensures user.None?
      ensures activeWorkout == old(activeWorkout) && sess == old(sess) && uiLang == old(uiLang)
      ensures activeActionIdx == old(activeActionIdx) && selectorMode == old(selectorMode)
    {
      user := None;
    }

    /**
     * `deleteAccount`: after the confirmation dialog and the typed word
     * (`ELIMINAR` when the screen is in Spanish, `DELETE` otherwise) the
     * profile is removed from the store and signed out; anything else
     * changes nothing. `typed` is `None` when the prompt was cancelled.
     */
    method DeleteAccount(confirmed: bool, typed: Option<string>) returns (deleted: bool)
      requires user.Some?
      modifies this, store
      ensures deleted <==> confirmed && typed == Some(if uiLang == "es" then "ELIMINAR" else "DELETE")
      ensures deleted ==> user.None? && store.users == Deleted(old(store.users), old(user).value.email)
      ensures deleted ==> Find(store.users, old(user).value.email).None?
      ensures !deleted ==> user == old(user) && store.users == old(store.users)
      ensures activeWorkout == old(activeWorkout) && sess == old(sess) && uiLang == old(uiLang)
      ensures activeActionIdx == old(activeActionIdx) && selectorMode == old(selectorMode)
    {
      var confirmText := if uiLang == "es" then "ELIMINAR" else "DELETE";
      if !confirmed || typed != Some(confirmText) {
        return false;
      }
      var email := user.value.email;
      store.DeleteUser(email);
      user := None;
      deleted := true;
    }
  }
}
