/**
 * The kitchen session: the dishes being cooked, the kitchen timers, the page
 * to return to when the kitchen closes, the per-timer expiry callbacks and
 * the screen wake lock held while there is something to cook.
 *
 * Dishes and timers are opaque ids. The host's `setTimeout`/`clearTimeout`
 * are modelled by the `scheduled` table of callbacks that have been
 * scheduled and have neither run nor been cleared. Router navigation, the
 * expiry modal, wake-lock requests and releases are recorded in `effects`,
 * in the order the service performs them.
 */
module Kitchen {
  import opened Common
  import Recipes

  type TimerId = nat
  type DishId = nat

  /** A dish: its identity and the recipe being cooked. */
  datatype Dish = Dish(id: DishId, recipe: Recipes.Recipe)

  /** Where `close` returns to, and how that page's header was shown. */
  datatype LastPage = LastPage(route: RouteLocation, showLogo: bool, fullBleedHeader: bool)

  /** The router's current route: its name (unset for an unnamed route), its params and its `fullBleedHeader` meta. */
  datatype CurrentRoute = CurrentRoute(name: Option<string>, params: map<string, Option<string>>, fullBleedHeader: bool)

  /**
   * How `navigator.wakeLock` answers one `lockScreen` call: the API is
   * missing, `request` throws at once, or it returns a request (whose
   * later rejection is only reported, so the reference is kept either way).
   */
  datatype WakeLockApi = Unsupported | RequestThrows | RequestIssued

  datatype Effect =
    | NavigateToStage(dish: DishId)
    | NavigateToKitchen
    | NavigateTo(route: RouteLocation)
    | RequestWakeLock(request: nat)
    | ReleaseWakeLock(request: nat)
    | ReportWakeLockError
    | StopTimer(timer: TimerId)
    | ScheduleTimeout(handle: nat, timer: TimerId)
    | ClearTimeout(handle: nat)
    | OpenTimeoutModal(timer: TimerId)
    | TimersRefreshed
    | DishesRefreshed

  /** The fields of the kitchen state that are persisted. */
  datatype PersistedState = PersistedState(dishes: seq<Dish>, timers: seq<TimerId>, wakeLock: bool, lastPage: Option<LastPage>)

  /** `active`: the route name matches `^kitchen(\.[^.]+)?$`. */
  function IsKitchenRoute(name: Option<string>): (active: bool)
    ensures active ==> name.Some? && StartsWith(name.value, "kitchen")
    ensures active && name.value != "kitchen" ==>
      |name.value| > 8 && name.value[7] == '.' && '.' !in name.value[8..]
  {
    name.Some? &&
    (name.value == "kitchen" ||
      (|name.value| > 8 && name.value[..8] == "kitchen." && forall i :: 8 <= i < |name.value| ==> name.value[i] != '.'))
  }

  /** A kitchen page and its stages are kitchen routes; a deeper or longer name is not. */
  lemma KitchenRouteNames()
    ensures IsKitchenRoute(Some("kitchen")) && IsKitchenRoute(Some("kitchen.stage"))
    ensures !IsKitchenRoute(Some("kitchen.stage.timer")) && !IsKitchenRoute(Some("kitchenette")) && !IsKitchenRoute(None)
  {
    assert "kitchen.stage.timer"[13] == '.';
  }

  /**
   * The route name matches `^kitchen(\.[^.]+)?|recipes\.show$`. The
   * alternation binds loosest, so this is "starts with `kitchen`" or "ends
   * with `recipes.show`".
   */
  predicate ShowsOnRoute(name: Option<string>) {
    name.Some? && (StartsWith(name.value, "kitchen") || EndsWith(name.value, "recipes.show"))
  }

  lemma KitchenRoutesShow(name: Option<string>)
    requires IsKitchenRoute(name)
    ensures ShowsOnRoute(name)
  {
    assert name.value[..7] == "kitchen" by {
      if name.value != "kitchen" { assert name.value[..7] == name.value[..8][..7]; }
    }
  }

  /**
   * The computed `show`: never while the app is not mounted or the viewer is
   * active; always when there are dishes; otherwise only on a kitchen or
   * recipe page and only until dismissed.
   */
  function Show(appMounted: bool, viewerActive: bool, routeName: Option<string>, dismissed: bool, dishes: seq<Dish>): (show: bool)
    ensures show ==> appMounted && !viewerActive
    ensures appMounted && !viewerActive && |dishes| > 0 ==> show
    ensures |dishes| == 0 ==> (show <==> appMounted && !viewerActive && !dismissed && ShowsOnRoute(routeName))
  {
    if !appMounted || viewerActive then false
    else if |dishes| > 0 then true
    else !dismissed && ShowsOnRoute(routeName)
  }

  /** `findDish`: the first dish whose recipe `is` the given one. */
  function FindDish(dishes: seq<Dish>, recipe: Recipes.Recipe): (found: Option<Dish>)
    ensures found.Some? ==> found.value in dishes && Recipes.Is(found.value.recipe, recipe)
    ensures found.Some? ==>
      (exists k :: 0 <= k < |dishes| && dishes[k] == found.value
        && forall j :: 0 <= j < k ==> !Recipes.Is(dishes[j].recipe, recipe))
    ensures found.None? <==> forall d :: d in dishes ==> !Recipes.Is(d.recipe, recipe)
  {
    if dishes == [] then None
    else if Recipes.Is(dishes[0].recipe, recipe) then Some(dishes[0])
    else
      var rest := FindDish(dishes[1..], recipe);
      assert forall d :: d in dishes ==> d == dishes[0] || d in dishes[1..];
      if rest.Some? then
        var k :| 0 <= k < |dishes[1..]| && dishes[1..][k] == rest.value
          && forall j :: 0 <= j < k ==> !Recipes.Is(dishes[1..][j].recipe, recipe);
        assert dishes[k + 1] == rest.value;
        rest
      else rest
  }

  /**
   * Restored dishes are distinct objects; a dish's id stands for its object,
   * so no two dishes share one.
   */
  predicate DistinctIds(dishes: seq<Dish>) {
    forall i, j :: 0 <= i < j < |dishes| ==> dishes[i].id != dishes[j].id
  }

  /** `arrayWithout` keeps the dishes it does not remove, so their ids stay distinct. */
  lemma {:induction false} WithoutKeepsDistinctIds(dishes: seq<Dish>, dish: Dish)
    requires DistinctIds(dishes)
    ensures DistinctIds(Without(dishes, dish))
    ensures forall d :: d in Without(dishes, dish) ==> d in dishes
  {
    var kept := Without(dishes, dish);
    forall d | d in kept ensures d in dishes {
      assert multiset(kept)[d] > 0;
    }
    if dishes != [] {
      var rest := Without(dishes[1..], dish);
      WithoutKeepsDistinctIds(dishes[1..], dish);
      if dishes[0] != dish {
        forall k | 0 <= k < |rest| ensures rest[k].id != dishes[0].id {
          assert rest[k] in rest;
          assert rest[k] in dishes[1..];
          var j :| 0 <= j < |dishes[1..]| && dishes[1..][j] == rest[k];
          assert dishes[j + 1] == rest[k];
        }
        assert kept == [dishes[0]] + rest;
      }
    }
  }

  /** With distinct ids a dish occurs at most once, so `arrayWithout` removes at most one dish. */
  lemma {:induction false} DistinctIdsOccurOnce(dishes: seq<Dish>, dish: Dish)
    requires DistinctIds(dishes)
    ensures multiset(dishes)[dish] <= 1
    ensures dish in dishes ==> |Without(dishes, dish)| == |dishes| - 1
  {
    if dishes != [] {
      assert dishes == [dishes[0]] + dishes[1..];
      DistinctIdsOccurOnce(dishes[1..], dish);
      if dishes[0] == dish {
        assert dish !in dishes[1..] by {
          forall k | 0 <= k < |dishes[1..]| ensures dishes[1..][k] != dish {
            assert dishes[k + 1].id != dishes[0].id;
          }
        }
      }
    }
    var kept := Without(dishes, dish);
    assert |multiset(kept)| == |kept|;
    assert |multiset(dishes)| == |dishes|;
  }

  /** The page `open` records when it is called outside the kitchen. */
  function PageBefore(route: CurrentRoute): (page: LastPage)
    requires route.name.Some?
    ensures page.route.name == route.name.value && page.route.params == route.params && page.route.query == map[]
    ensures page.showLogo <==> route.name == Some("home")
    ensures page.fullBleedHeader == route.fullBleedHeader
  {
    LastPage(RouteLocation(route.name.value, route.params, map[]), route.name == Some("home"), route.fullBleedHeader)
  }

  /** Where `open` navigates: the given dish's stage, the only dish's stage, or the kitchen index. */
  function OpenTarget(dish: Option<Dish>, dishes: seq<Dish>): (target: Effect)
    requires |dishes| > 0
    ensures target.NavigateToStage? || target.NavigateToKitchen?
    ensures target.NavigateToKitchen? <==> dish.None? && |dishes| > 1
    ensures dish.Some? ==> target == NavigateToStage(dish.value.id)
    ensures dish.None? && |dishes| == 1 ==> target == NavigateToStage(dishes[0].id)
  {
    if dish.Some? then NavigateToStage(dish.value.id)
    else if |dishes| == 1 then NavigateToStage(dishes[0].id)
    else NavigateToKitchen
  }

  class KitchenService {
    var dishes: seq<Dish>
    var timers: seq<TimerId>
    var dismissed: bool
    var wakeLock: bool
    var lastPage: Option<LastPage>

    /** `screenLock`: the pending wake-lock request, by its request number. */
    var screenLock: Option<nat>
    /** Number of wake-lock requests made so far. */
    var lockRequests: nat

    /** `timeouts`: the expiry callback handle tracked for each timer. */
    var timeouts: map<TimerId, nat>
    /** The host's scheduled callbacks that have neither run nor been cleared, with the timer each is for. */
    var scheduled: map<nat, TimerId>
    /** The next handle `setTimeout` gives out; handles are positive. */
    var nextHandle: nat

    var nextDishId: DishId
    /** One entry per listener set the service has registered on a timer. */
    var timerListeners: multiset<TimerId>
    /** One entry per listener set the service has registered on a dish. */
    var dishListeners: multiset<Dish>
    /** Whether the logout handler has been registered. */
    var listensForLogout: bool
    var effects: seq<Effect>

    /**
     * Every scheduled callback is the one tracked for its timer: no stale
     * callback is ever pending, and no timer has two pending callbacks
     * (both would be `timeouts[t]`). Handles are positive and fresh, and a
     * timer with a tracked callback has the service's listeners, and each
     * dish stands for one object.
     */
    ghost predicate Valid()
      reads this
    {
      && (forall h :: h in scheduled ==> scheduled[h] in timeouts && timeouts[scheduled[h]] == h)
      && (forall t :: t in timeouts ==> timeouts[t] in scheduled && scheduled[timeouts[t]] == t)
      && 0 < nextHandle
      && (forall h :: h in scheduled ==> 0 < h < nextHandle)
      && (forall t :: t in timeouts ==> t in timerListeners)
      && (screenLock.Some? ==> screenLock.value < lockRequests)
      && DishesIdentified()
    }

    /** Each dish stands for one object: dish ids are distinct and below `nextDishId`. */
    ghost predicate DishesIdentified()
      reads this`dishes, this`nextDishId
    {
      DistinctIds(dishes) && forall d :: d in dishes ==> d.id < nextDishId
    }

    /** The wake lock is held only while there are dishes. */
    ghost predicate LockHeldOnlyWithDishes()
      reads this`screenLock, this`dishes
    {
      screenLock.Some? ==> |dishes| > 0
    }

    /** The persisted projection: dishes, timers, wakeLock and lastPage; `dismissed` is not persisted. */
    function Persisted(): (p: PersistedState)
      reads this
      ensures p.dishes == dishes && p.timers == timers && p.wakeLock == wakeLock && p.lastPage == lastPage
    {
      PersistedState(dishes, timers, wakeLock, lastPage)
    }

    /** `getInitialState`, with no callback scheduled and no lock held. */
    constructor ()
      ensures Valid() && LockHeldOnlyWithDishes()
      ensures dishes == [] && timers == [] && !dismissed && wakeLock && lastPage.None?
      ensures screenLock.None? && timeouts == map[] && scheduled == map[]
      ensures timerListeners == multiset{} && dishListeners == multiset{} && !listensForLogout && effects == []
      ensures lockRequests == 0 && nextDishId == 0
    {
      dishes, timers, dismissed, wakeLock, lastPage := [], [], false, true, None;
      screenLock, lockRequests := None, 0;
      timeouts, scheduled, nextHandle := map[], map[], 1;
      nextDishId := 0;
      timerListeners, dishListeners := multiset{}, multiset{};
      listensForLogout := false;
      effects := [];
    }

    /**
     * The initial state merged with a restored snapshot: the persisted
     * fields come from the snapshot, `dismissed` starts false.
     */
    constructor Restored(snapshot: PersistedState, firstDishId: DishId)
      requires DistinctIds(snapshot.dishes) && forall d :: d in snapshot.dishes ==> d.id < firstDishId
      ensures Valid() && Persisted() == snapshot && !dismissed && nextDishId == firstDishId
      ensures screenLock.None? && timeouts == map[] && scheduled == map[]
      ensures timerListeners == multiset{} && dishListeners == multiset{} && !listensForLogout && effects == []
    {
      dishes, timers, dismissed, wakeLock, lastPage := snapshot.dishes, snapshot.timers, false, snapshot.wakeLock, snapshot.lastPage;
      screenLock, lockRequests := None, 0;
      timeouts, scheduled, nextHandle := map[], map[], 1;
      nextDishId := firstDishId;
      timerListeners, dishListeners := multiset{}, multiset{};
      listensForLogout := false;
      effects := [];
    }

    /** `open(dish)`. Returns false when the current route has no name (`fail()` throws). */
    method Open(dish: Option<Dish>, route: CurrentRoute) returns (ok: bool)
      requires Valid()
      modifies this`lastPage, this`effects
      ensures Valid()
      ensures |dishes| == 0 ==> ok && lastPage == old(lastPage) && effects == old(effects)
      ensures |dishes| > 0 ==> (ok <==> route.name.Some?)
      ensures !ok ==> lastPage == old(lastPage) && effects == old(effects)
      ensures |dishes| > 0 && ok ==>
        && lastPage == (if IsKitchenRoute(route.name) then old(lastPage) else Some(PageBefore(route)))
        && effects == old(effects) + [OpenTarget(dish, dishes)]
    {
      if |dishes| == 0 {
        return true;
      }
      if !IsKitchenRoute(route.name) {
        if route.name.None? {
          return false;
        }
        lastPage := Some(PageBefore(route));
      }
      effects := effects + [OpenTarget(dish, dishes)];
      ok := true;
    }

    /** `close`: back to the recorded page, which is then forgotten; nothing without one. */
    method Close()
      requires Valid()
      modifies this`lastPage, this`effects
      ensures Valid()
      ensures lastPage.None?
      ensures effects == old(effects) + (if old(lastPage).Some? then [NavigateTo(old(lastPage).value.route)] else [])
    {
      if lastPage.None? {
        return;
      }
      effects := effects + [NavigateTo(lastPage.value.route)];
      lastPage := None;
    }

    /** `cook(recipe)`: the existing dish for the recipe, or a new one, is opened. */
    method Cook(recipe: Recipes.Recipe, route: CurrentRoute, api: WakeLockApi) returns (dish: Dish, ok: bool)
      requires Valid()
      modifies this`dishes, this`nextDishId, this`dishListeners, this`screenLock, this`lockRequests, this`effects, this`lastPage
      ensures Valid()
      ensures old(LockHeldOnlyWithDishes()) ==> LockHeldOnlyWithDishes()
      ensures dish in dishes && Recipes.Is(dish.recipe, recipe)
      ensures ok <==> route.name.Some?
      ensures FindDish(old(dishes), recipe).Some? ==>
        && dish == FindDish(old(dishes), recipe).value && dishes == old(dishes)
        && dishListeners == old(dishListeners) && nextDishId == old(nextDishId)
      ensures FindDish(old(dishes), recipe).None? ==>
        && dish == Dish(old(nextDishId), recipe) && dishes == old(dishes) + [dish]
        && dishListeners == old(dishListeners) + multiset{dish} && nextDishId == old(nextDishId) + 1
      ensures var locks := FindDish(old(dishes), recipe).None? && old(|dishes|) == 0;
        && (locks ==> LockedScreen(api, old(screenLock), old(lockRequests), screenLock, lockRequests))
        && (!locks ==> screenLock == old(screenLock) && lockRequests == old(lockRequests))
        && effects == old(effects) + (if locks then LockEffects(api, old(lockRequests)) else [])
          + (if ok then [NavigateToStage(dish.id)] else [])
      ensures lastPage == (if ok && !IsKitchenRoute(route.name) then Some(PageBefore(route)) else old(lastPage))
    {
      var found := FindDish(dishes, recipe);
      if found.Some? {
        dish := found.value;
      } else {
        dish := AddRecipe(recipe, api);
        Recipes.IsReflexive(recipe);
      }
      ok := Open(Some(dish), route);
    }

    /** `addTimer`: the timer goes last and gets exactly one listener set. */
    method AddTimer(timer: TimerId)
      requires Valid()
      modifies this`timers, this`timerListeners
      ensures Valid()
      ensures timers == old(timers) + [timer]
      ensures timerListeners == old(timerListeners) + multiset{timer}
    {
      timers := timers + [timer];
      timerListeners := timerListeners + multiset{timer};
    }

    /**
     * `removeTimer`: the timer leaves the list and is stopped; its stop
     * notification reaches this service's listener, which cancels the
     * tracked callback.
     */
    method RemoveTimer(timer: TimerId)
      requires Valid()
      modifies this`timers, this`effects, this`timeouts, this`scheduled
      ensures Valid()
      ensures timers == Without(old(timers), timer)
      ensures timeouts == old(timeouts) - {timer}
      ensures forall h :: h in scheduled ==> scheduled[h] != timer
      ensures scheduled == (if timer in old(timeouts) then old(scheduled) - {old(timeouts)[timer]} else old(scheduled))
      ensures effects == old(effects) + [StopTimer(timer)]
        + (if timer in old(timeouts) then [ClearTimeout(old(timeouts)[timer])] else [])
    {
      DropTimer(timer);
      assert timer in timeouts ==> timer in timerListeners;
      if timer in timerListeners {
        OnTimerStopped(timer);
      }
    }

    /** `complete(dish)`: the dish is dropped, the screen released when none remain, and the kitchen closed. */
    method Complete(dish: Dish)
      requires Valid()
      modifies this`dishes, this`screenLock, this`lastPage, this`effects
      ensures Valid()
      ensures old(LockHeldOnlyWithDishes()) ==> LockHeldOnlyWithDishes()
      ensures dishes == Without(old(dishes), dish)
      ensures screenLock == (if |dishes| == 0 then None else old(screenLock))
      ensures lastPage.None?
      ensures effects == old(effects)
        + (if |dishes| == 0 && old(screenLock).Some? then [ReleaseWakeLock(old(screenLock).value)] else [])
        + (if old(lastPage).Some? then [NavigateTo(old(lastPage).value.route)] else [])
    {
      ClearDish(dish);
      Close();
    }

    /** The dish object leaves the list; the wake lock is released with the last dish. */
    method ClearDish(dish: Dish)
      requires Valid()
      modifies this`dishes, this`screenLock, this`effects
      ensures Valid()
      ensures old(LockHeldOnlyWithDishes()) ==> LockHeldOnlyWithDishes()
      ensures dishes == Without(old(dishes), dish)
      ensures screenLock == (if |dishes| == 0 then None else old(screenLock))
      ensures effects == old(effects) + (if |dishes| == 0 && old(screenLock).Some? then [ReleaseWakeLock(old(screenLock).value)] else [])
    {
      DropDish(dish);
      if |dishes| == 0 {
        ReleaseScreen();
      }
    }

    /** `arrayWithout(dishes, dish)`: the dish object, if listed, leaves the list. */
    method DropDish(dish: Dish)
      requires Valid()
      modifies this`dishes
      ensures Valid() && dishes == Without(old(dishes), dish)
    {
      WithoutKeepsDistinctIds(dishes, dish);
      dishes := Without(dishes, dish);
    }

    /** `arrayWithout(timers, timer)` and `timer.stop()`: every entry of the timer leaves the list. */
    method DropTimer(timer: TimerId)
      requires Valid()
      modifies this`timers, this`effects
      ensures Valid() && timers == Without(old(timers), timer)
      ensures effects == old(effects) + [StopTimer(timer)]
    {
      timers := Without(timers, timer);
      effects := effects + [StopTimer(timer)];
    }

    /** `dismiss`: hides the empty kitchen for the session; this is not persisted. */
    method Dismiss()
      modifies this`dismissed
      ensures dismissed && Persisted() == old(Persisted())
    {
      dismissed := true;
    }

    /**
     * `boot`: registers the logout handler and, when dishes were restored,
     * resumes them (`Resume`).
     */
    method Boot(running: set<TimerId>, api: WakeLockApi)
      requires Valid()
      modifies this`listensForLogout, this`screenLock, this`lockRequests, this`effects
      modifies this`dishListeners, this`timerListeners, this`timeouts, this`scheduled, this`nextHandle
      ensures Valid() && listensForLogout
      ensures old(LockHeldOnlyWithDishes()) ==> LockHeldOnlyWithDishes()
      ensures |dishes| == 0 ==>
        && dishListeners == old(dishListeners) && timerListeners == old(timerListeners)
        && timeouts == old(timeouts) && scheduled == old(scheduled)
        && screenLock == old(screenLock) && lockRequests == old(lockRequests) && effects == old(effects)
        && nextHandle == old(nextHandle)
      ensures |dishes| > 0 ==>
        Resumed(running, api, old(screenLock), old(lockRequests), old(dishListeners), old(timerListeners), old(timeouts), old(nextHandle), old(effects))
    {
      listensForLogout := true;
      if |dishes| > 0 {
        Resume(running, api);
      }
    }

    /**
     * What resuming restored dishes does: the screen is locked once, every
     * dish and every timer gets one listener set, and each running timer
     * (`running`: started and not over time) without a tracked callback has
     * one scheduled (`RestoreTimers`), after the lock's effects.
     */
    ghost predicate Resumed(running: set<TimerId>, api: WakeLockApi, lock0: Option<nat>, requests0: nat,
                            dishListeners0: multiset<Dish>, timerListeners0: multiset<TimerId>, timeouts0: map<TimerId, nat>,
                            next0: nat, effects0: seq<Effect>)
      reads this
    {
      && LockedScreen(api, lock0, requests0, screenLock, lockRequests)
      && dishListeners == dishListeners0 + multiset(dishes)
      && timerListeners == timerListeners0 + multiset(timers)
      && var restored := RestoreTimers(timers, running, timeouts0, next0);
      && timeouts == restored.0 && nextHandle == restored.1
      && effects == effects0 + LockEffects(api, requests0) + restored.2
    }

    /** `boot` with restored dishes. */
    method Resume(running: set<TimerId>, api: WakeLockApi)
      requires Valid() && |dishes| > 0
      modifies this`screenLock, this`lockRequests, this`effects
      modifies this`dishListeners, this`timerListeners, this`timeouts, this`scheduled, this`nextHandle
      ensures Valid() && LockHeldOnlyWithDishes()
      ensures Resumed(running, api, old(screenLock), old(lockRequests), old(dishListeners), old(timerListeners), old(timeouts),
                      old(nextHandle), old(effects))
    {
      LockScreen(api);
      ListenToDishes();
      ListenToRestoredTimers(running);
    }

    /** The dish half of `boot`: one listener set per restored dish. */
    method ListenToDishes()
      modifies this`dishListeners
      ensures dishListeners == old(dishListeners) + multiset(dishes)
    {
      var i := 0;
      while i < |dishes|
        invariant 0 <= i <= |dishes|
        invariant dishListeners == old(dishListeners) + multiset(dishes[..i])
      {
        assert dishes[..i + 1] == dishes[..i] + [dishes[i]];
        dishListeners := dishListeners + multiset{dishes[i]};
        i := i + 1;
      }
      assert dishes[..i] == dishes;
    }

    /**
     * The timer half of `boot`: one listener set per restored timer, and the
     * expiry callback of each running one scheduled.
     */
    method ListenToRestoredTimers(running: set<TimerId>)
      requires Valid()
      modifies this`timerListeners, this`timeouts, this`scheduled, this`nextHandle, this`effects
      ensures Valid()
      ensures timerListeners == old(timerListeners) + multiset(timers)
      ensures var restored := RestoreTimers(timers, running, old(timeouts), old(nextHandle));
        timeouts == restored.0 && nextHandle == restored.1 && effects == old(effects) + restored.2
    {
      ghost var restored := RestoreTimers(timers, running, timeouts, nextHandle);
      var j := 0;
      while j < |timers|
        invariant 0 <= j <= |timers|
        invariant Valid()
        invariant timerListeners == old(timerListeners) + multiset(timers[..j])
        invariant RestoringFrom(j, running, restored, old(effects))
      {
        ListenToRestoredTimer(j, running, restored, old(timerListeners), old(effects));
        j := j + 1;
      }
      assert timers[..j] == timers;
    }

    /** The restored timers from position `j` on still yield `restored`, whose effects follow `effects0`. */
    ghost predicate RestoringFrom(j: nat, running: set<TimerId>, restored: (map<TimerId, nat>, nat, seq<Effect>), effects0: seq<Effect>)
      reads this`timers, this`timeouts, this`nextHandle, this`effects
      requires j <= |timers|
    {
      var rest := RestoreTimers(timers[j..], running, timeouts, nextHandle);
      rest.0 == restored.0 && rest.1 == restored.1 && effects + rest.2 == effects0 + restored.2
    }

    /** The timer at position `j` of the restored list: its listener set, and its callback when running. */
    method ListenToRestoredTimer(j: nat, running: set<TimerId>, ghost restored: (map<TimerId, nat>, nat, seq<Effect>),
                                 ghost listeners0: multiset<TimerId>, ghost effects0: seq<Effect>)
      requires j < |timers| && Valid()
      requires timerListeners == listeners0 + multiset(timers[..j])
      requires RestoringFrom(j, running, restored, effects0)
      modifies this`timerListeners, this`timeouts, this`scheduled, this`nextHandle, this`effects
      ensures Valid()
      ensures timerListeners == listeners0 + multiset(timers[..j + 1])
      ensures RestoringFrom(j + 1, running, restored, effects0)
    {
      var timer := timers[j];
      assert timers[..j + 1] == timers[..j] + [timer];
      assert timers[j..][0] == timer && timers[j..][1..] == timers[j + 1..];
      ghost var timeouts0, next0, before := timeouts, nextHandle, effects;
      RestoreTimersStep(timers[j..], running, timeouts0, next0);
      ListenToTimer(timer, timer in running);
      ghost var rest := RestoreTimers(timers[j + 1..], running, timeouts, nextHandle);
      assert effects + rest.2 == before + RestoreTimers(timers[j..], running, timeouts0, next0).2;
    }

    /** One timer of `boot`: its listener set, and its expiry callback when it is running. */
    method ListenToTimer(timer: TimerId, isRunning: bool)
      requires Valid()
      modifies this`timerListeners, this`timeouts, this`scheduled, this`nextHandle, this`effects
      ensures Valid()
      ensures timerListeners == old(timerListeners) + multiset{timer}
      ensures isRunning ==> timer in timeouts && timeouts[timer] in scheduled && scheduled[timeouts[timer]] == timer
      ensures var starts := isRunning && timer !in old(timeouts);
        && timeouts == (if starts then old(timeouts)[timer := old(nextHandle)] else old(timeouts))
        && scheduled == (if starts then old(scheduled)[old(nextHandle) := timer] else old(scheduled))
        && nextHandle == (if starts then old(nextHandle) + 1 else old(nextHandle))
        && effects == old(effects) + (if starts then [ScheduleTimeout(old(nextHandle), timer)] else [])
    {
      timerListeners := timerListeners + multiset{timer};
      if isRunning {
        OnTimerStarted(timer);
      }
    }

    /**
     * The logout handler, as written: every listed timer's callback is
     * cancelled and dishes, timers and lastPage are reset. The wake lock is
     * left as it is.
     */
    method OnLogout()
      requires Valid() && listensForLogout
      modifies this`timeouts, this`scheduled, this`effects, this`dishes, this`timers, this`lastPage, this`screenLock
      ensures Valid()
      ensures dishes == [] && timers == [] && lastPage.None?
      ensures timeouts == Untrack(old(timers), old(timeouts))
      ensures forall t :: t in timeouts <==> t in old(timeouts) && t !in old(timers)
      ensures forall t :: t in timeouts ==> timeouts[t] == old(timeouts)[t]
      ensures KeptScheduled(old(timers), old(scheduled), scheduled)
      ensures effects == old(effects) + ClearEffects(old(timers), old(timeouts))
      ensures screenLock == old(screenLock) && lockRequests == old(lockRequests)
      ensures dismissed == old(dismissed) && wakeLock == old(wakeLock) && listensForLogout
      ensures timerListeners == old(timerListeners) && dishListeners == old(dishListeners)
    {
      CancelTimeouts();
      dishes, timers, lastPage := [], [], None;
    }

    /**
     * The logout handler as evidently intended: as above, and the wake lock
     * is released since no dish remains.
     */
    method OnLogoutReleasingScreen()
      requires Valid() && listensForLogout
      modifies this`timeouts, this`scheduled, this`effects, this`dishes, this`timers, this`lastPage, this`screenLock
      ensures Valid() && LockHeldOnlyWithDishes()
      ensures dishes == [] && timers == [] && lastPage.None? && screenLock.None?
      ensures timeouts == Untrack(old(timers), old(timeouts))
      ensures forall t :: t in timeouts <==> t in old(timeouts) && t !in old(timers)
      ensures forall t :: t in timeouts ==> timeouts[t] == old(timeouts)[t]
      ensures KeptScheduled(old(timers), old(scheduled), scheduled)
      ensures effects == old(effects) + ClearEffects(old(timers), old(timeouts))
        + (if old(screenLock).Some? then [ReleaseWakeLock(old(screenLock).value)] else [])
      ensures dismissed == old(dismissed) && wakeLock == old(wakeLock) && listensForLogout
      ensures timerListeners == old(timerListeners) && dishListeners == old(dishListeners)
    {
      OnLogout();
      ReleaseScreen();
    }

    /** `timers.forEach(timer => onTimerStopped(timer))`. */
    method CancelTimeouts()
      requires Valid()
      modifies this`timeouts, this`scheduled, this`effects
      ensures Valid()
      ensures timeouts == Untrack(timers, old(timeouts))
      ensures forall t :: t in timeouts <==> t in old(timeouts) && t !in timers
      ensures forall t :: t in timeouts ==> timeouts[t] == old(timeouts)[t]
      ensures KeptScheduled(timers, old(scheduled), scheduled)
      ensures effects == old(effects) + ClearEffects(timers, old(timeouts))
    {
      var i := 0;
      while i < |timers|
        invariant 0 <= i <= |timers|
        invariant Valid()
        invariant CancellingFrom(i, old(timeouts), old(effects))
        invariant KeptScheduled(timers[..i], old(scheduled), scheduled)
      {
        CancelTimeoutAt(i, old(timeouts), old(scheduled), old(effects));
        i := i + 1;
      }
      assert timers[i..] == [] && timers[..i] == timers;
      UntrackedTimers(timers, old(timeouts));
    }

    /** The timers from position `i` on still clear down to what clearing all of them from `timeouts0` gives. */
    ghost predicate CancellingFrom(i: nat, timeouts0: map<TimerId, nat>, effects0: seq<Effect>)
      reads this`timers, this`timeouts, this`effects
      requires i <= |timers|
    {
      && Untrack(timers[i..], timeouts) == Untrack(timers, timeouts0)
      && effects + ClearEffects(timers[i..], timeouts) == effects0 + ClearEffects(timers, timeouts0)
    }

    /** Stops the timer at position `i` of the list. */
    method CancelTimeoutAt(i: nat, ghost timeouts0: map<TimerId, nat>, ghost scheduled0: map<nat, TimerId>, ghost effects0: seq<Effect>)
      requires i < |timers| && Valid()
      requires CancellingFrom(i, timeouts0, effects0) && KeptScheduled(timers[..i], scheduled0, scheduled)
      modifies this`timeouts, this`scheduled, this`effects
      ensures Valid()
      ensures CancellingFrom(i + 1, timeouts0, effects0) && KeptScheduled(timers[..i + 1], scheduled0, scheduled)
    {
      var timer := timers[i];
      ghost var before, tracked, pending := effects, timeouts, scheduled;
      OnTimerStopped(timer);
      assert timer !in tracked ==> tracked - {timer} == tracked;
      CancelStep(timers[i..], tracked, before, timeouts, effects);
      assert timers[i..][1..] == timers[i + 1..];
      KeptAfterStop(timers[..i], timer, scheduled0, pending, tracked, scheduled);
      assert timers[..i + 1] == timers[..i] + [timer];
    }

    /** `addRecipe`: a new dish with one listener set is pushed; the screen is locked when it is the only dish. */
    method AddRecipe(recipe: Recipes.Recipe, api: WakeLockApi) returns (dish: Dish)
      requires Valid()
      modifies this`dishes, this`nextDishId, this`dishListeners, this`screenLock, this`lockRequests, this`effects
      ensures Valid()
      ensures old(LockHeldOnlyWithDishes()) ==> LockHeldOnlyWithDishes()
      ensures dish == Dish(old(nextDishId), recipe) && nextDishId == old(nextDishId) + 1
      ensures dishes == old(dishes) + [dish]
      ensures dishListeners == old(dishListeners) + multiset{dish}
      ensures old(|dishes|) > 0 ==> screenLock == old(screenLock) && lockRequests == old(lockRequests) && effects == old(effects)
      ensures old(|dishes|) == 0 ==>
        && LockedScreen(api, old(screenLock), old(lockRequests), screenLock, lockRequests)
        && effects == old(effects) + LockEffects(api, old(lockRequests))
    {
      dish := Dish(nextDishId, recipe);
      nextDishId := nextDishId + 1;
      dishListeners := dishListeners + multiset{dish};
      dishes := dishes + [dish];
      if |dishes| == 1 {
        LockScreen(api);
      }
    }

    /** `lockScreen`: requests the wake lock and keeps the request, unless the API is missing or throws. */
    method LockScreen(api: WakeLockApi)
      requires Valid()
      modifies this`screenLock, this`lockRequests, this`effects
      ensures Valid()
      ensures LockedScreen(api, old(screenLock), old(lockRequests), screenLock, lockRequests)
      ensures effects == old(effects) + LockEffects(api, old(lockRequests))
    {
      match api
      case Unsupported =>
      case RequestThrows =>
        effects := effects + [ReportWakeLockError];
      case RequestIssued =>
        screenLock := Some(lockRequests);
        effects := effects + [RequestWakeLock(lockRequests)];
        lockRequests := lockRequests + 1;
    }

    /** `releaseScreen`: releases the held request, if any, and forgets it. */
    method ReleaseScreen()
      requires Valid()
      modifies this`screenLock, this`effects
      ensures Valid() && screenLock.None?
      ensures effects == old(effects) + (if old(screenLock).Some? then [ReleaseWakeLock(old(screenLock).value)] else [])
    {
      if screenLock.None? {
        return;
      }
      effects := effects + [ReleaseWakeLock(screenLock.value)];
      screenLock := None;
    }

    /** `onTimerUpdated`: the timers list is replaced by a copy so that observers refresh. */
    method OnTimerUpdated()
      modifies this`effects
      ensures effects == old(effects) + [TimersRefreshed]
    {
      effects := effects + [TimersRefreshed];
    }

    /** A dish's `onUpdated` listener: the dishes list is replaced by a copy so that observers refresh. */
    method OnDishUpdated()
      modifies this`effects
      ensures effects == old(effects) + [DishesRefreshed]
    {
      effects := effects + [DishesRefreshed];
    }

    /**
     * `onTimerStarted`, reached through the listener set registered on the
     * timer: schedules the expiry callback unless one is already tracked.
     */
    method OnTimerStarted(timer: TimerId)
      requires Valid() && timer in timerListeners
      modifies this`timeouts, this`scheduled, this`nextHandle, this`effects
      ensures Valid()
      ensures timer in timeouts
      ensures old(timer in timeouts) ==> unchanged(this)
      ensures old(timer !in timeouts) ==>
        && timeouts == old(timeouts)[timer := old(nextHandle)]
        && scheduled == old(scheduled)[old(nextHandle) := timer]
        && nextHandle == old(nextHandle) + 1
        && effects == old(effects) + [ScheduleTimeout(old(nextHandle), timer)]
    {
      if timer in timeouts {
        return;
      }
      var handle := nextHandle;
      nextHandle := nextHandle + 1;
      scheduled := scheduled[handle := timer];
      timeouts := timeouts[timer := handle];
      effects := effects + [ScheduleTimeout(handle, timer)];
    }

    /** `onTimerStopped`: cancels and forgets the tracked callback; nothing when none is tracked. */
    method OnTimerStopped(timer: TimerId)
      requires Valid()
      modifies this`timeouts, this`scheduled, this`effects
      ensures Valid()
      ensures timer !in timeouts
      ensures forall h :: h in scheduled ==> scheduled[h] != timer
      ensures old(timer !in timeouts) ==> unchanged(this)
      ensures old(timer in timeouts) ==>
        && timeouts == old(timeouts) - {timer}
        && scheduled == old(scheduled) - {old(timeouts)[timer]}
        && effects == old(effects) + [ClearTimeout(old(timeouts)[timer])]
    {
      if timer !in timeouts {
        return;
      }
      var handle := timeouts[timer];
      scheduled := scheduled - {handle};
      timeouts := timeouts - {timer};
      effects := effects + [ClearTimeout(handle)];
    }

    /**
     * The host runs a scheduled callback: the timeout modal opens for its
     * timer, the timer's entry is dropped and the timers list is refreshed.
     * The callback that runs is always the one tracked for its timer.
     */
    method TimeoutFired(handle: nat)
      requires Valid() && handle in scheduled
      modifies this`timeouts, this`scheduled, this`effects
      ensures Valid()
      ensures old(scheduled[handle]) in old(timeouts) && old(timeouts)[old(scheduled[handle])] == handle
      ensures timeouts == old(timeouts) - {old(scheduled[handle])}
      ensures scheduled == old(scheduled) - {handle}
      ensures effects == old(effects) + [OpenTimeoutModal(old(scheduled[handle])), TimersRefreshed]
    {
      var timer := scheduled[handle];
      scheduled := scheduled - {handle};
      effects := effects + [OpenTimeoutModal(timer)];
      timeouts := timeouts - {timer};
      OnTimerUpdated();
    }
  }

  /** What one `lockScreen` call does to the lock reference and the request count. */
  ghost predicate LockedScreen(api: WakeLockApi, lock0: Option<nat>, requests0: nat, lock: Option<nat>, requests: nat)
  {
    match api
    case RequestIssued => lock == Some(requests0) && requests == requests0 + 1
    case _ => lock == lock0 && requests == requests0
  }

  /** The effects of one `lockScreen` call, `request` being the number the next request gets. */
  function LockEffects(api: WakeLockApi, request: nat): (effects: seq<Effect>)
    ensures |effects| <= 1
    ensures ReleaseWakeLock(request) !in effects
    ensures RequestWakeLock(request) in effects <==> api.RequestIssued?
  {
    match api
    case Unsupported => []
    case RequestThrows => [ReportWakeLockError]
    case RequestIssued => [RequestWakeLock(request)]
  }

  /**
   * The expiry callbacks `boot` schedules for the restored timers `ts`, in
   * order: each running timer without a tracked callback gets the next
   * handle. Returns the tracked callbacks, the next handle and the
   * scheduling effects.
   */
  function RestoreTimers(ts: seq<TimerId>, running: set<TimerId>, tracked: map<TimerId, nat>, next: nat)
    : (r: (map<TimerId, nat>, nat, seq<Effect>))
    ensures next <= r.1 && |r.2| == r.1 - next
    decreases |ts|
  {
    if ts == [] then (tracked, next, [])
    else
      var starts := ts[0] in running && ts[0] !in tracked;
      var rest := RestoreTimers(ts[1..], running, if starts then tracked[ts[0] := next] else tracked, if starts then next + 1 else next);
      if starts then (rest.0, rest.1, [ScheduleTimeout(next, ts[0])] + rest.2) else rest
  }

  /**
   * After `RestoreTimers`, exactly the tracked timers and the running listed
   * ones have a callback; tracked ones keep theirs, and each new one has a
   * fresh handle whose scheduling is among the effects.
   */
  lemma {:induction false} RestoredTimers(ts: seq<TimerId>, running: set<TimerId>, tracked: map<TimerId, nat>, next: nat)
    ensures var r := RestoreTimers(ts, running, tracked, next);
      && (forall t :: t in r.0 <==> t in tracked || (t in ts && t in running))
      && (forall t :: t in tracked ==> r.0[t] == tracked[t])
      && (forall t :: t in r.0 && t !in tracked ==> next <= r.0[t] < r.1 && ScheduleTimeout(r.0[t], t) in r.2)
    decreases |ts|
  {
    if ts != [] {
      var starts := ts[0] in running && ts[0] !in tracked;
      var tracked' := if starts then tracked[ts[0] := next] else tracked;
      var next' := if starts then next + 1 else next;
      RestoredTimers(ts[1..], running, tracked', next');
      assert forall t :: t in ts <==> t == ts[0] || t in ts[1..];
    }
  }

  /** `RestoreTimers` takes the first timer, then restores the rest. */
  lemma RestoreTimersStep(ts: seq<TimerId>, running: set<TimerId>, tracked: map<TimerId, nat>, next: nat)
    requires ts != []
    ensures var starts := ts[0] in running && ts[0] !in tracked;
      var rest := RestoreTimers(ts[1..], running, if starts then tracked[ts[0] := next] else tracked, if starts then next + 1 else next);
      RestoreTimers(ts, running, tracked, next) == if starts then (rest.0, rest.1, [ScheduleTimeout(next, ts[0])] + rest.2) else rest
  {
  }

  /** The tracked callbacks left once those of the timers `ts` are cleared. */
  function Untrack(ts: seq<TimerId>, tracked: map<TimerId, nat>): map<TimerId, nat>
    decreases |ts|
  {
    if ts == [] then tracked else Untrack(ts[1..], tracked - {ts[0]})
  }

  /** `Untrack` leaves exactly the tracked timers outside `ts`, with their callbacks. */
  lemma {:induction false} UntrackedTimers(ts: seq<TimerId>, tracked: map<TimerId, nat>)
    ensures forall t :: t in Untrack(ts, tracked) <==> t in tracked && t !in ts
    ensures forall t :: t in Untrack(ts, tracked) ==> Untrack(ts, tracked)[t] == tracked[t]
    decreases |ts|
  {
    if ts != [] {
      UntrackedTimers(ts[1..], tracked - {ts[0]});
      assert Untrack(ts, tracked) == Untrack(ts[1..], tracked - {ts[0]});
      forall t ensures t in ts <==> t == ts[0] || t in ts[1..] {
        assert ts == [ts[0]] + ts[1..];
      }
    }
  }

  /** `Untrack` and `ClearEffects` take the first timer, then the rest. */
  lemma UntrackStep(ts: seq<TimerId>, tracked: map<TimerId, nat>)
    requires ts != []
    ensures Untrack(ts, tracked) == Untrack(ts[1..], tracked - {ts[0]})
    ensures ClearEffects(ts, tracked)
      == (if ts[0] in tracked then [ClearTimeout(tracked[ts[0]])] else []) + ClearEffects(ts[1..], tracked - {ts[0]})
  {
  }

  /** Stopping the first timer of `ts` leaves the rest to untrack and clear. */
  lemma CancelStep(ts: seq<TimerId>, tracked: map<TimerId, nat>, before: seq<Effect>,
                   timeouts: map<TimerId, nat>, effects: seq<Effect>)
    requires ts != [] && timeouts == tracked - {ts[0]}
    requires effects == before + (if ts[0] in tracked then [ClearTimeout(tracked[ts[0]])] else [])
    ensures Untrack(ts[1..], timeouts) == Untrack(ts, tracked)
    ensures effects + ClearEffects(ts[1..], timeouts) == before + ClearEffects(ts, tracked)
  {
    UntrackStep(ts, tracked);
  }

  /**
   * Exactly the callbacks in `scheduled0`, minus those of the timers `ts`,
   * are in `scheduled`.
   */
  ghost predicate KeptScheduled(ts: seq<TimerId>, scheduled0: map<nat, TimerId>, scheduled: map<nat, TimerId>) {
    && (forall h :: h in scheduled ==> h in scheduled0 && scheduled[h] == scheduled0[h] && scheduled[h] !in ts)
    && (forall h :: h in scheduled0 && scheduled0[h] !in ts ==> h in scheduled)
  }

  /**
   * Stopping one more timer, whose tracked callback is the only one
   * scheduled for it, keeps `KeptScheduled` with that timer added.
   */
  lemma KeptAfterStop(ts: seq<TimerId>, timer: TimerId, scheduled0: map<nat, TimerId>,
                      pending: map<nat, TimerId>, tracked: map<TimerId, nat>, scheduled: map<nat, TimerId>)
    requires KeptScheduled(ts, scheduled0, pending)
    requires forall h :: h in pending ==> pending[h] in tracked && tracked[pending[h]] == h
    requires forall t :: t in tracked ==> tracked[t] in pending && pending[tracked[t]] == t
    requires scheduled == if timer in tracked then pending - {tracked[timer]} else pending
    ensures KeptScheduled(ts + [timer], scheduled0, scheduled)
  {
    forall h | h in scheduled0 && scheduled0[h] !in ts + [timer] ensures h in scheduled {
      assert scheduled0[h] !in ts;
    }
  }

  /** The `clearTimeout` calls made while stopping the timers `ts` in order, one per tracked callback. */
  function ClearEffects(ts: seq<TimerId>, tracked: map<TimerId, nat>): (effects: seq<Effect>)
    ensures |effects| <= |ts|
    decreases |ts|
  {
    if ts == [] then []
    else (if ts[0] in tracked then [ClearTimeout(tracked[ts[0]])] else []) + ClearEffects(ts[1..], tracked - {ts[0]})
  }

  /** Every effect of `ClearEffects` clears a tracked callback, and each listed timer's callback is cleared. */
  lemma {:induction false} ClearedCallbacks(ts: seq<TimerId>, tracked: map<TimerId, nat>)
    ensures forall e :: e in ClearEffects(ts, tracked) ==> e.ClearTimeout? && e.handle in tracked.Values
    ensures forall t :: t in tracked && t in ts ==> ClearTimeout(tracked[t]) in ClearEffects(ts, tracked)
    decreases |ts|
  {
    if ts != [] {
      var rest := ClearEffects(ts[1..], tracked - {ts[0]});
      ClearedCallbacks(ts[1..], tracked - {ts[0]});
      assert forall t :: t in ts ==> t == ts[0] || t in ts[1..];
      assert forall e :: e in rest ==> e.handle in tracked.Values by {
        forall e | e in rest ensures e.handle in tracked.Values {
          var t :| t in tracked - {ts[0]} && (tracked - {ts[0]})[t] == e.handle;
          assert tracked[t] == e.handle;
        }
      }
    }
  }

  /** A booted kitchen whose only dish holds the first wake-lock request. */
  method KitchenWithOneDish() returns (kitchen: KitchenService)
    ensures fresh(kitchen) && kitchen.Valid() && kitchen.listensForLogout
    ensures |kitchen.dishes| == 1 && kitchen.timers == []
    ensures kitchen.screenLock == Some(0) && kitchen.lockRequests == 1
    ensures kitchen.effects == [RequestWakeLock(0)]
  {
    var recipe := Recipes.Recipe(Some("https://example.org/cookbook/pasta#it"), None, [], [], None, None);
    kitchen := new KitchenService();
    kitchen.Boot({}, RequestIssued);
    var dish := kitchen.AddRecipe(recipe, RequestIssued);
  }

  /** Logging out with a dish in the kitchen leaves the wake lock held with no dish. */
  method LogoutKeepsScreenLocked() returns (kitchen: KitchenService)
    ensures fresh(kitchen) && kitchen.Valid()
    ensures kitchen.dishes == [] && kitchen.screenLock == Some(0) && !kitchen.LockHeldOnlyWithDishes()
    ensures kitchen.lockRequests == 1 && kitchen.effects == [RequestWakeLock(0)]
  {
    kitchen := KitchenWithOneDish();
    kitchen.OnLogout();
  }

  /** Cooking again after that logout overwrites the held request, which is never released. */
  method RelockLeaksFirstRequest() returns (kitchen: KitchenService)
    ensures kitchen.screenLock == Some(1)
    ensures kitchen.effects == [RequestWakeLock(0), RequestWakeLock(1)]
    ensures ReleaseWakeLock(0) !in kitchen.effects
  {
    kitchen := LogoutKeepsScreenLocked();
    var recipe := Recipes.Recipe(Some("https://example.org/cookbook/soup"), None, [], [], None, None);
    var dish := kitchen.AddRecipe(recipe, RequestIssued);
  }

  /** With the lock released on logout, the first request is released before the second is made. */
  method RelockAfterReleasingLogout() returns (kitchen: KitchenService)
    ensures kitchen.screenLock == Some(1) && kitchen.LockHeldOnlyWithDishes()
    ensures kitchen.effects == [RequestWakeLock(0), ReleaseWakeLock(0), RequestWakeLock(1)]
  {
    kitchen := KitchenWithOneDish();
    kitchen.OnLogoutReleasingScreen();
    var recipe := Recipes.Recipe(Some("https://example.org/cookbook/soup"), None, [], [], None, None);
    var dish := kitchen.AddRecipe(recipe, RequestIssued);
  }
}
