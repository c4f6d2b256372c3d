/**
 * The first-run tutorial of the training app (tutorial.js): six slides
 * walked forwards and backwards, a goal chosen on the second slide, and a
 * persisted "completed" flag that keeps it from showing again.
 */
module Onboarding {
  import opened Wrappers
  import opened Model
  import opened Store
  import opened Session

  /** The number of slides. */
  const SlideCount := 6

  /** The slide a "next" press shows, short of the last one. */
  function NextSlide(i: int): (j: int)
    requires 0 <= i < SlideCount - 1
    ensures 0 < j < SlideCount && j == i + 1
  {
    i + 1
  }

  /** The slide a "previous" press shows; the first slide stays put. */
  function PrevSlide(i: int): (j: int)
    requires 0 <= i < SlideCount
    ensures 0 <= j < SlideCount
    ensures i > 0 ==> j == i - 1
    ensures i == 0 ==> j == 0
  {
    if i > 0 then i - 1 else i
  }

  class Tutorial {
    var isActive: bool
    var currentSlide: int
    /** The persisted `evo_tutorial_completed` flag. */
    var completed: bool

    ghost predicate Valid()
      reads this
    {
      0 <= currentSlide < SlideCount
    }

    constructor (completed: bool)
      ensures Valid() && !isActive && currentSlide == 0 && this.completed == completed
    {
      isActive := false;
      currentSlide := 0;
      this.completed := completed;
    }

    /** `hasCompleted()`. */
    method HasCompleted() returns (done: bool)
      ensures done == completed
    {
      return completed;
    }

    /** `markCompleted()`. */
    method MarkCompleted()
      modifies this
      ensures completed && isActive == old(isActive) && currentSlide == old(currentSlide)
    {
      completed := true;
    }

    /** `reset()`: forget the flag so that the tutorial shows again. */
    method Reset()
      modifies this
      ensures !completed && isActive == old(isActive) && currentSlide == old(currentSlide)
    {
      completed := false;
    }

    /** `show()`: open on the first slide. */
    method Show()
      modifies this
      ensures Valid() && isActive && currentSlide == 0 && completed == old(completed)
    {
      isActive := true;
      currentSlide := 0;
    }

    /** `hide()`. */
    method Hide()
      modifies this
      ensures !isActive && currentSlide == old(currentSlide) && completed == old(completed)
    {
      isActive := false;
    }

    /** `skip()`: close and never show again. */
    method Skip()
      modifies this
      ensures completed && !isActive && currentSlide == old(currentSlide)
    {
      MarkCompleted();
      Hide();
    }

    /**
     * `next()`: advance one slide; on the last slide finish instead, and
     * report whether a profile without sessions is sent to the hub.
     */
    method Next(app: App) returns (loadsHub: bool)
      requires Valid()
      modifies this
      ensures Valid()
      ensures old(currentSlide) < SlideCount - 1 ==>
                currentSlide == NextSlide(old(currentSlide)) && isActive == old(isActive)
                && completed == old(completed) && !loadsHub
      ensures old(currentSlide) == SlideCount - 1 ==>
                currentSlide == old(currentSlide) && completed && !isActive
                && (loadsHub <==> app.user.Some? && |app.user.value.history| == 0)
    {
      if currentSlide < SlideCount - 1 {
        currentSlide := currentSlide + 1;
        loadsHub := false;
      } else {
        MarkCompleted();
        Hide();
        loadsHub := app.user.Some? && |app.user.value.history| == 0;
      }
    }

    /** `prev()`: step back, staying on the first slide. */
    method Prev()
      requires Valid()
      modifies this
      ensures Valid() && currentSlide == PrevSlide(old(currentSlide))
      ensures isActive == old(isActive) && completed == old(completed)
    {
      if currentSlide > 0 {
        currentSlide := currentSlide - 1;
      }
    }

    /**
     * `setGoal(goal)`: with a profile, store the chosen goal in its settings,
     * save it, and advance; without one nothing happens.
     */
    method SetGoal(app: App, goal: Goal) returns (loadsHub: bool)
      requires Valid()
      modifies this, app, app.store
      ensures Valid()
      ensures old(app.user).None? ==>
                app.user == old(app.user) && app.store.users == old(app.store.users)
                && currentSlide == old(currentSlide) && isActive == old(isActive)
                && completed == old(completed) && !loadsHub
      ensures old(app.user).Some? ==>
                var u := old(app.user).value;
                app.user == Some(u.(settings := u.settings.(goal := goal)))
                && app.store.users == Upserted(old(app.store.users), app.user.value)
      ensures old(app.user).Some? && old(currentSlide) < SlideCount - 1 ==>
                currentSlide == NextSlide(old(currentSlide)) && isActive == old(isActive)
                && completed == old(completed) && !loadsHub
      ensures old(app.user).Some? && old(currentSlide) == SlideCount - 1 ==>
                currentSlide == old(currentSlide) && completed && !isActive
                && (loadsHub <==> |old(app.user).value.history| == 0)
      ensures app.activeWorkout == old(app.activeWorkout) && app.sess == old(app.sess)
      ensures app.activeActionIdx == old(app.activeActionIdx) && app.selectorMode == old(app.selectorMode)
              && app.uiLang == old(app.uiLang)
    {
      loadsHub := false;
      if app.user.Some? {
        var u := app.user.value;
        app.user := Some(u.(settings := u.settings.(goal := goal)));
        app.store.SaveUser(app.user.value);
        loadsHub := Next(app);
      }
    }

    /** `checkAndShow()`: whether the tutorial is scheduled to open (after a delay). */
    method CheckAndShow() returns (scheduled: bool)
      ensures scheduled <==> !completed
    {
      return !completed;
    }
  }

  /**
   * `App.clearCache`: once confirmed, the profile's session history is
   * emptied and saved, and the tutorial flag is cleared so that it shows
   * again; the account and its settings stay. Without confirmation nothing
   * changes.
   */
  method ClearCache(app: App, tutorial: Tutorial, confirmed: bool)
    requires app.user.Some?
    modifies app, app.store, tutorial
    ensures confirmed ==> app.user == Some(old(app.user).value.(history := []))
    ensures confirmed ==> app.store.users == Upserted(old(app.store.users), app.user.value)
    ensures confirmed ==> !tutorial.completed
    ensures !confirmed ==> app.user == old(app.user) && app.store.users == old(app.store.users)
                           && tutorial.completed == old(tutorial.completed)
    ensures tutorial.isActive == old(tutorial.isActive) && tutorial.currentSlide == old(tutorial.currentSlide)
    ensures app.activeWorkout == old(app.activeWorkout) && app.sess == old(app.sess)
    ensures app.activeActionIdx == old(app.activeActionIdx) && app.selectorMode == old(app.selectorMode)
            && app.uiLang == old(app.uiLang)
  {
    if !confirmed {
      return;
    }
    app.user := Some(app.user.value.(history := []));
    app.store.SaveUser(app.user.value);
    tutorial.Reset();
  }
}
