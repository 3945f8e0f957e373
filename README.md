# Kitchen, recipe, authentication and error-reporting services of a recipe manager

This project models, in Dafny, the business logic of a recipe-management web
application:

- **Recipes** (`recipe.dfy`, module `Recipes`): the values a recipe derives from
  its fields. These are its image, its slug inside a cookbook, its servings
  breakdown and re-rendering, its instructions sorted by position, its link list,
  its routes, the `is` identity test, the export options of its JSON-LD and the url
  given to a new recipe. These are pure functions. The cookbook urls, the document
  url and the default url parts are parameters.
- **Kitchen** (`kitchen.dfy`, module `Kitchen`): the kitchen session as a class
  whose methods update its fields in place. It holds the dishes being cooked, the
  kitchen timers, the page to return to, one expiry callback per running timer and
  the screen wake lock. The host's `setTimeout`/`clearTimeout` are a table of
  scheduled callbacks. Router navigation, modals and wake-lock requests are
  recorded as effects, in order.
- **Authentication** (`auth.dfy`, module `Auth`): the session, its record in local
  storage under the key `auth`, and the listener pairs registered on
  authenticators. Authenticators are foreign objects: the registry maps each key to
  an object, two keys may map to the same one, and listener pairs are counted per
  object. A session carries its authenticator object, and the record stores that
  object's `name`. What each call into an authenticator does is a parameter:
  return, start a session, end a session or throw.
- **Errors** (`errors.dfy`, module `Errors`): the enabled flag, the error snackbar
  shown by `report` and the error report it carries.
- `common.dfy` (module `Common`) holds the JavaScript behaviours shared by the
  rest. These are `Option` for `undefined`/`null`, `startsWith`/`endsWith`,
  truthiness, `arrayWithout` and router locations.

The main invariant of the kitchen is `KitchenService.Valid`: every callback still
scheduled with the host is the one tracked for its timer. So no stale callback can
fire for a stopped timer, and no timer has two pending callbacks. `Valid` also
says that each dish carries a distinct id below the next one handed out. A dish
stands for one JavaScript object, and `arrayWithout` compares objects by identity,
so completing a dish removes that one object only.

## Model

| member | source | states |
|---|---|---|
| Common.Without | src/services/KitchenService.ts:118 | `arrayWithout`: the result has the elements of the input minus every occurrence of the item (multiset), and is the input when the item is absent; the kept elements stay in order (`Common.WithoutAppend`, `Common.WithoutSingle`) |
| Common.WithoutSingle | src/services/KitchenService.ts:118 | a one-element list loses its element exactly when it is the item removed, and is kept as it is otherwise |
| Common.WithoutAppend | src/services/KitchenService.ts:118 | removing an item from a concatenation is removing it from each part and concatenating, so the kept elements keep their relative order |
| Recipes.ImageUrl | src/models/Recipe.ts:52-54 | no image exactly when there are no image urls; otherwise the first image url |
| Recipes.SlashesToDashes | src/models/Recipe.ts:62 | `replaceAll('/', '-')`: same length, no `/` left, every other character kept |
| Recipes.SlugGroupEndsAtRunEnd | src/models/Recipe.ts:62 | a match of group 1 of `([^#]+)(#.*)?$` ends where the run of non-`#` characters from its start ends (greedy, no backtracking alternative) |
| Recipes.SlugMatchFrom | src/models/Recipe.ts:62 | the leftmost match of the pattern: a match at the returned start, none at any earlier start, none at all when it returns none |
| Recipes.SlugMatchIsFirstRun | src/models/Recipe.ts:62 | on a path without line terminators the match is the first maximal non-`#` run, and there is none only when the path is all `#` |
| Recipes.SlugOfPath | src/models/Recipe.ts:61-63 | `getSlug`: a slug found is non-empty and has no `/` and no `#` |
| Recipes.Slug | src/models/Recipe.ts:56-74 | `slug`: null without a (truthy) url; a slug found is non-empty, has no `/` and no `#` |
| Recipes.SlugPrefersRemoteCookbook | src/models/Recipe.ts:65-67 | when the remote cookbook url is set and prefixes the url, the slug is taken after it, whatever the local cookbook url |
| Recipes.SlugOutsideCookbooks | src/models/Recipe.ts:65-73 | a url under neither cookbook has no slug |
| Recipes.NewUrl | src/models/Recipe.ts:173-178 | `newUrl`: the document url (the given one, else the default), then `#`, then the resource hash (the given one, else the default); nothing else |
| Recipes.NewUrlSplitsBack | src/models/Recipe.ts:173-178 | for every given or defaulted document url and resource hash without `#`, the new url splits at its last `#` back into exactly those two |
| Recipes.SlugOfNewUrl | src/models/Recipe.ts:173-178 | for a non-empty `name` with no `#`, with no line terminator in `name` or `hash`, and a url `local + name + "#" + hash` that does not start with a truthy remote cookbook url, the slug of that new url is `name` with `/` turned into `-` |
| Recipes.SlugOfNamedPath | src/models/Recipe.ts:61-63 | for a non-empty `name` with no `#` and no line terminator in `name` or in `hash`, the slug of the path `name#hash` is `name` with `/` turned into `-` |
| Recipes.FirstDigitRun | src/models/Recipe.ts:99 | `match(/\d+/)`: the first maximal run of digits; none exactly when there is no digit |
| Recipes.ParseDigits | src/models/Recipe.ts:107 | `parseInt` of a run of `n` decimal digits is a natural number below 10 to the `n` |
| Recipes.NatToDecimal | src/models/Recipe.ts:108 | `toString()` of a natural number: digits only, parses back to the number, no leading zero |
| Recipes.IntToDecimal | src/models/Recipe.ts:108 | `toString()` of an integer quantity: for a natural number, digits without leading zero that parse back to it; for a negative one, `-` then the digits of its magnitude, without leading zero |
| Recipes.DecimalOfParsedDigits | src/models/Recipe.ts:107-108 | `parseInt` then `toString()` gives back a digit string exactly as it was, when it has no leading zero |
| Recipes.DecimalOfDigitsIff | src/models/Recipe.ts:107-108 | a run of digits is the `toString()` of its `parseInt` exactly when it has no leading zero |
| Recipes.IndexOf | src/models/Recipe.ts:108 | `indexOf`: the first position where the pattern occurs, none when it never occurs |
| Recipes.ReplaceFirstSplices | src/models/Recipe.ts:108 | the contract of `ReplaceFirst`, which models `replace` with a string pattern: the input when the pattern does not occur; otherwise the text before its first occurrence, then the replacement, then the text after that occurrence, nothing else |
| Recipes.ServingsBreakdownOf | src/models/Recipe.ts:97-110 | `servingsBreakdown`: null exactly when the servings are unset or have no digit; otherwise the original text, the first digit run and its value |
| Recipes.BreakdownMatchesFirstRun | src/models/Recipe.ts:99 | the matched digits are the first digit run of the servings text |
| Recipes.QuantityMatchFoundAtFirstRun | src/models/Recipe.ts:99-108 | the first occurrence of the matched digits is that first run itself |
| Recipes.RenderQuantitySplices | src/models/Recipe.ts:108 | the contract of `RenderQuantity`, which models the `renderQuantity(q)` closure: the original text when the matched digits do not occur in it; otherwise their first occurrence is replaced by the decimal text of `q` and the text around it is kept |
| Recipes.RenderQuantityReplacesFirstRun | src/models/Recipe.ts:108 | `renderQuantity(q)` is the text before the first digit run, the decimal of `q`, then the text after that run |
| Recipes.RenderParsedQuantityRoundTrip | src/models/Recipe.ts:105-109 | rendering the parsed quantity gives back the original text exactly when the matched digits have no leading zero |
| Recipes.LeadingZeroServingsNotReproduced | src/models/Recipe.ts:107-108 | "02 people" parses to 2 and renders back as "2 people" |
| Recipes.InsertByPosition | src/models/Recipe.ts:113 | inserting a step keeps every element, plus the step (multiset) |
| Recipes.InsertKeepsBound | src/models/Recipe.ts:113 | inserting a step never puts a position below a bound that the step and every sorted step respect |
| Recipes.InsertKeepsSorted | src/models/Recipe.ts:113 | inserting into steps sorted by position keeps them sorted |
| Recipes.SortByPosition | src/models/Recipe.ts:113 | `arraySorted(steps, 'position')`: sorted by position and a permutation of the input |
| Recipes.SortedInstructions | src/models/Recipe.ts:112-114 | `sortedInstructions`: sorted by position, a permutation of the instructions, empty when they are unset |
| Recipes.TruthyValues | src/models/Recipe.ts:117-121 | `arrayFilter`: exactly the set, non-empty values; when all are truthy, all are kept in order; a single value is kept exactly when it is truthy |
| Recipes.TruthyValuesAppend | src/models/Recipe.ts:117-121 | filtering a concatenation filters each part and concatenates the results, so the kept values stay in input order |
| Recipes.LinkCandidates | src/models/Recipe.ts:117-121 | the array filtered by `autoLinks`: the url, the document url, then each external url |
| Recipes.LinkCandidatesContain | src/models/Recipe.ts:117-121 | a value is a candidate exactly when it is the url, the document url or an external url |
| Recipes.AutoLinks | src/models/Recipe.ts:116-122 | `autoLinks`: a string is listed exactly when it is non-empty and is the url, the document url or an external url |
| Recipes.AutoLinksInOrder | src/models/Recipe.ts:116-122 | `autoLinks` is the url, then the document url, then the external urls in their order, each kept only when set and non-empty |
| Recipes.AutoLinksKeepOrder | src/models/Recipe.ts:116-122 | with every link set and non-empty, the list is url, document url, external urls, in that order |
| Recipes.Route | src/models/Recipe.ts:124-130 | `route(type)`: the viewer route (url as query) exactly for type `viewer`; otherwise `recipes.<type>`, `show` by default, with the slug as `recipe` param |
| Recipes.Is | src/models/Recipe.ts:132-135 | `is`: a recipe `is` another with the same url (both without one included); against a recipe without url it holds exactly when it has none; otherwise it holds exactly for the same url or one of its external urls |
| Recipes.IsReflexive | src/models/Recipe.ts:132-135 | every recipe `is` itself |
| Recipes.IsNotSymmetric | src/models/Recipe.ts:132-135 | there are recipes `a`, `b` with `a.is(b)` and not `b.is(a)`, since only `a`'s external urls are searched |
| Recipes.ExternalJsonLDOptions | src/models/Recipe.ts:148-154 | `ids` is the caller's choice, else whether the url starts with `http`, else unset; timestamps and history both follow `includeHistory`, false by default |
| Kitchen.IsKitchenRoute | src/services/KitchenService.ts:56-58 | `active`: the route name is `kitchen`, or `kitchen.` followed by one non-empty segment without `.` |
| Kitchen.KitchenRouteNames | src/services/KitchenService.ts:56-58 | `kitchen` and `kitchen.stage` are kitchen routes; `kitchen.stage.timer`, `kitchenette` and an unnamed route are not |
| Kitchen.KitchenRoutesShow | src/services/KitchenService.ts:189 | every route that makes the kitchen `active` also matches the `show` pattern |
| Kitchen.Show | src/services/KitchenService.ts:180-190 | `show`: never when the app is not mounted or the viewer is active; always otherwise with dishes; with none, only on a route matching `^kitchen(\.[^.]+)?\|recipes\.show$` and not dismissed |
| Kitchen.FindDish | src/services/KitchenService.ts:60-62 | `findDish`: a dish found is the first whose recipe `is` the given one; none exactly when no dish's recipe `is` it |
| Kitchen.PageBefore | src/services/KitchenService.ts:70-77 | the page `open` records: the current route's name and params with no query, the logo shown exactly on `home`, and the route's `fullBleedHeader` |
| Kitchen.OpenTarget | src/services/KitchenService.ts:80-86 | the given dish's stage, else the only dish's stage; the kitchen index exactly when no dish is given and there are several |
| Kitchen.LockEffects | src/services/KitchenService.ts:230-246 | one `lockScreen` call records at most one effect, never a release; a new request exactly when the API issues one |
| Kitchen.RestoredTimers | src/services/KitchenService.ts:154-164 | after restoring the timers, exactly the timers already tracked and the running listed ones have a callback; tracked ones keep theirs; each new one has a fresh handle whose scheduling is recorded |
| Kitchen.UntrackedTimers | src/services/KitchenService.ts:142 | after stopping the listed timers, exactly the tracked timers that are not listed still have a callback, and each keeps its own |
| Kitchen.ClearedCallbacks | src/services/KitchenService.ts:142 | stopping the listed timers clears only tracked callbacks, and clears the callback of every listed timer that has one |
| Kitchen.KeptAfterStop | src/services/KitchenService.ts:276-285 | stopping one more timer, whose tracked callback is the only one scheduled for it, removes exactly that callback from those still scheduled |
| Kitchen.KitchenService.Persisted | src/services/KitchenService.ts:51 | the persisted fields are dishes, timers, wakeLock and lastPage, and `dismissed` is not one of them |
| Kitchen.KitchenService.constructor | src/services/KitchenService.ts:168-176 | `getInitialState`: no dishes, no timers, not dismissed, wake lock wanted, no last page; no callback scheduled, no lock held |
| Kitchen.KitchenService.Restored | src/services/KitchenService.ts:208-214 | restoring a snapshot whose dishes have distinct ids, all below `firstDishId`, gives a valid state whose persisted projection is that snapshot, with `dismissed` false and the next dish id `firstDishId` |
| Kitchen.KitchenService.Open | src/services/KitchenService.ts:64-87 | `open`: nothing without dishes; outside the kitchen it records the current page, failing when the route has no name; inside, the last page is kept; then it navigates to `OpenTarget` |
| Kitchen.KitchenService.Close | src/services/KitchenService.ts:89-99 | `close`: back to the recorded page, which is forgotten; nothing without one |
| Kitchen.KitchenService.Cook | src/services/KitchenService.ts:101-105 | `cook`: the existing dish for the recipe, or a new dish with the next id, appended with one listener; the screen is locked exactly when that new dish is the first; when the route is named it navigates to the dish's stage and, outside the kitchen, records the page before; fails otherwise; timers, callbacks, `dismissed` and `wakeLock` are untouched |
| Kitchen.KitchenService.AddTimer | src/services/KitchenService.ts:107-115 | `addTimer`: the timer is appended and gets exactly one more listener set |
| Kitchen.KitchenService.RemoveTimer | src/services/KitchenService.ts:117-121 | `removeTimer`: the timer leaves the list and is stopped; its tracked callback, if any, is cleared and no callback for it remains |
| Kitchen.KitchenService.Complete | src/services/KitchenService.ts:123-131 | `complete`: the dish is removed, the wake lock released exactly when no dish remains, and the kitchen closed |
| Kitchen.WithoutKeepsDistinctIds | src/services/KitchenService.ts:123-131 | removing a dish from dishes with distinct ids keeps the ids distinct and adds no dish |
| Kitchen.DistinctIdsOccurOnce | src/services/KitchenService.ts:123-131 | in dishes with distinct ids each dish occurs at most once, so completing a listed dish removes exactly one entry |
| Kitchen.KitchenService.Dismiss | src/services/KitchenService.ts:133-135 | `dismiss`: dismissed, with the persisted state unchanged |
| Kitchen.KitchenService.Boot | src/services/KitchenService.ts:137-166 | `boot`: the logout handler is registered; without dishes nothing else changes; with dishes the kitchen is resumed (`Resumed`): the screen locked once, one listener set per dish and timer, a callback scheduled, with the next handle and in list order, for each running timer that has none |
| Kitchen.KitchenService.Resume | src/services/KitchenService.ts:147-165 | the screen is locked once; every dish and timer gets one listener set; callbacks, handles and scheduling effects are those `RestoreTimers` gives, so every running timer has a callback scheduled and earlier callbacks are kept |
| Kitchen.KitchenService.ListenToDishes | src/services/KitchenService.ts:150-152 | one more listener on each dish |
| Kitchen.KitchenService.ListenToRestoredTimers | src/services/KitchenService.ts:154-164 | one more listener set on each timer; the tracked callbacks, the next handle and the effects are those of `RestoreTimers` over the timers in order; every tracked callback is scheduled (`Valid`) |
| Kitchen.KitchenService.ListenToTimer | src/services/KitchenService.ts:155-163 | one timer: one listener set; when it is running and has no callback, one is scheduled and tracked with the next handle, and its scheduling is recorded; otherwise nothing else changes |
| Kitchen.KitchenService.OnLogout | src/services/KitchenService.ts:141-145 | the logout handler: dishes, timers and last page reset; the listed timers' callbacks are cleared, in list order, and every other scheduled callback is kept; the wake lock is left as it is |
| Kitchen.KitchenService.CancelTimeouts | src/services/KitchenService.ts:142 | every listed timer's callback is cleared and forgotten, with one `clearTimeout` each in list order; the other tracked and scheduled callbacks are kept |
| Kitchen.KitchenService.OnLogoutReleasingScreen | src/services/KitchenService.ts:141-145 | the logout handler with the wake lock also released after the callbacks are cleared, so it is never held without dishes |
| Kitchen.KitchenService.AddRecipe | src/services/KitchenService.ts:216-228 | `addRecipe`: a new dish with one listener is appended; the screen is locked, with its effects, exactly when it is the only dish |
| Kitchen.KitchenService.LockScreen | src/services/KitchenService.ts:230-246 | `lockScreen`: no change without the API; an error reported when the request throws; otherwise a new request is held, replacing any reference held before; the effects are `LockEffects` |
| Kitchen.KitchenService.ReleaseScreen | src/services/KitchenService.ts:248-255 | `releaseScreen`: the held request, if any, is released; afterwards none is held |
| Kitchen.KitchenService.OnTimerUpdated | src/services/KitchenService.ts:257-259 | the timers list is refreshed for observers |
| Kitchen.KitchenService.OnDishUpdated | src/services/KitchenService.ts:219 | the dishes list is refreshed for observers |
| Kitchen.KitchenService.OnTimerStarted | src/services/KitchenService.ts:261-274 | `onTimerStarted`: idempotent; a fresh callback is scheduled and tracked only when none is tracked |
| Kitchen.KitchenService.OnTimerStopped | src/services/KitchenService.ts:276-285 | `onTimerStopped`: the tracked callback is cleared and forgotten; afterwards no callback for the timer is scheduled |
| Kitchen.KitchenService.TimeoutFired | src/services/KitchenService.ts:266-271 | a callback that runs is the one tracked for its timer; the timeout modal opens, the entry is dropped and the timers are refreshed |
| Kitchen.KitchenWithOneDish | src/services/KitchenService.ts:216-246 | a booted kitchen given one recipe holds the first wake-lock request, with one dish and no timer |
| Kitchen.LogoutKeepsScreenLocked | src/services/KitchenService.ts:141-145 | after logging out of a kitchen with one dish, no dish remains and the wake lock is still held |
| Kitchen.RelockLeaksFirstRequest | src/services/KitchenService.ts:223-224 | cooking again after that logout replaces the held request, and the first one is never released |
| Kitchen.RelockAfterReleasingLogout | src/services/KitchenService.ts:141-145 | with the corrected handler the first request is released before the second is made |
| Auth.SessionAuthenticator | src/framework/core/services/Auth.ts:78 | the computed `authenticator` is set exactly when there is a session, and is the session's authenticator object |
| Auth.SessionUser | src/framework/core/services/Auth.ts:80 | the computed `user` is set exactly when there is a session (`loggedIn`), and is the session's; this is what `isLoggedIn` narrows on |
| Auth.LoggedIn | src/framework/core/services/Auth.ts:79 | `loggedIn`: there is a session, so `isLoggedIn` can narrow to a set user and authenticator |
| Auth.Delivered | src/framework/core/services/Auth.ts:87-102 | a session started or ended through `n` listener pairs emits `n` events, each `login` with the new session's user or each `logout`; nothing otherwise, never the alert |
| Auth.SessionAfter | src/framework/core/services/Auth.ts:87-102 | the session after a call: the started session or none once a start or end reaches a listener pair; the same session otherwise |
| Auth.StorageAfter | src/framework/core/services/Auth.ts:87-102 | storage after a call: only the `auth` key changes, and only when a session start or end reaches a listener pair |
| Auth.CallKeepsRecord | src/framework/core/services/Auth.ts:87-102 | a call keeps the session and the `auth` record in agreement, and a delivered start or end makes them agree |
| Auth.AuthService.constructor | src/framework/core/services/Auth.ts:70-74 | `getInitialState`: no session, so not logged in |
| Auth.AuthService.SessionStarted | src/framework/core/services/Auth.ts:88-94 | `onSessionStarted`: the session is kept, storage key `auth` holds the `name` of its authenticator object, `login` is emitted with its user |
| Auth.AuthService.SessionEnded | src/framework/core/services/Auth.ts:95-101 | `onSessionEnded`: no session, storage key `auth` removed, `logout` emitted |
| Auth.AuthService.Dispatch | src/framework/core/services/Auth.ts:87-104 | a call into an authenticator object fails exactly when it throws; its events, session and storage are `Delivered`, `SessionAfter` and `StorageAfter` over the listener pairs registered on it |
| Auth.AuthService.BootAuthenticator | src/framework/core/services/Auth.ts:84-107 | an unknown name fails with nothing changed; otherwise one more listener pair is registered on the object the name maps to, that object is booted with its events, session and storage as `Dispatch` gives them, and the result fails exactly when the boot throws |
| Auth.AuthService.Login | src/framework/core/services/Auth.ts:37-50 | nothing when logged in (`'default'` when no name is given); otherwise boot then, unless the boot throws, login, each delivered to every listener pair on the object the key maps to; the session, storage and events after each outcome; the alert exactly when the name is unknown or either call throws; never a failure to the caller |
| Auth.AuthService.Logout | src/framework/core/services/Auth.ts:52-57 | nothing when logged out; otherwise the session's own authenticator object logs out, its session change delivered to every listener pair on that object, and a throw propagates |
| Auth.AuthService.Boot | src/framework/core/services/Auth.ts:59-68 | nothing without the `auth` key; an unreadable record or unknown name fails with nothing changed; otherwise the object the stored name maps to is booted, with the session, storage and events `BootAuthenticator` gives |
| Auth.LoginAfterBootNotifiesTwice | src/framework/core/services/Auth.ts:84-102 | after a boot that restores no session, logging in with the same authenticator delivers the new session to two listener pairs, so `login` is emitted twice |
| Auth.AliasedDefaultNotifiesTwice | src/framework/core/services/Auth.ts:37-42 | when `'default'` maps to the object stored under another key, booting by that key and then `login()` register two listener pairs on one object, so `login` is emitted twice |
| Auth.LogoutThroughSessionAuthenticator | src/framework/core/services/Auth.ts:52-57 | logout goes through the session's own authenticator object, not the one logged in with: a session started by an object with no listener pair on it stays after logout |
| Auth.SessionRestoredOnNextBoot | src/framework/core/services/Auth.ts:59-68 | a new service over the storage a login left boots the object its stored `name` maps to, and that boot restores the session with the same record |
| Errors.ErrorReportOf | src/framework/core/services/ErrorsService.ts:59-66 | `getErrorReport`: a string is its own title, with no error; any other value is the error, titled by its `message` or the "unknown" text; null or undefined cannot be read |
| Errors.NoticeText | src/framework/core/services/ErrorsService.ts:45 | the snackbar text is the given message, else the generic notice |
| Errors.ErrorsService.constructor | src/framework/core/services/ErrorsService.ts:17 | the service starts enabled |
| Errors.ErrorsService.Enable | src/framework/core/services/ErrorsService.ts:19-21 | enabled afterwards |
| Errors.ErrorsService.Disable | src/framework/core/services/ErrorsService.ts:23-25 | disabled afterwards |
| Errors.ErrorsService.Inspect | src/framework/core/services/ErrorsService.ts:27-31 | `inspect`: the reason's report is opened; fails when the reason is null or undefined |
| Errors.ErrorsService.Report | src/framework/core/services/ErrorsService.ts:33-57 | `report`: logged in development; rethrown unchanged when disabled, with no snackbar; otherwise one error snackbar with the message or the notice, carrying the reason's report |
| Errors.DisableThenEnable | src/framework/core/services/ErrorsService.ts:19-41 | a disabled service throws a report back, and enabling it again brings the snackbar back |

## Left out

- Asynchrony: promises, `await` and the order in which concurrent calls interleave are not modelled. Every operation runs to completion, in program order.
- The service runtime these services extend is not part of this model. That covers state containers, computed-state recomputation, the persistence backend, boot ordering and the facades. `Persisted` and `Restored` stand for the persisted projection and its restoration.
- `toJson`/`fromJson` of dishes and timers are taken as the identity. Dish and timer internals are not modelled (stage routes, running and over-time tests, time left). `Boot` gets the running, not-over-time timers as the parameter `running`.
- The delay given to `setTimeout` (the time left on the timer) is not modelled. The host runs a scheduled callback through `TimeoutFired`. Handles are positive integers, as in browsers.
- `Kitchen.KitchenService.RemoveTimer`: `timer.stop()` is taken to notify the service's listener whenever it registered one. A timer that is not running has no tracked callback, so the outcome is the same.
- A wake-lock request that is issued and later rejected is only reported, and that report is not modelled. `LockScreen` keeps the request either way, as the source does. `release()` is a recorded effect.
- `Router.currentRouteIs` is not part of this model. Route patterns are tested against the current route name, and a route without a name matches none.
- `Kitchen.KitchenService.Open`: the `fullBleedHeader` meta is a boolean here; the source keeps any falsy value.
- Recipe members outside the derived values above are not modelled: `sortedExternalUrls`, `sortedIngredients`, `download`, permissions, relationships and the JSON-LD serialiser itself. `getDocumentUrl()` is a field of the recipe. The default document url (`urlResolve` and `stringToSlug`) and `defaultResourceHash` are parameters of `NewUrl`.
- `Recipes.ServingsBreakdownOf`: the quantity is the exact value of the digits, whereas `parseInt` loses precision beyond 2^53.
- `Recipes.RenderQuantitySplices`: quantities are integers. The decimal text of non-integer numbers is not modelled.
- `Recipes.IntToDecimal`: the exponent form `toString()` gives from 1e21 on is not modelled; every integer is written out in full.
- `Recipes.ReplaceFirstSplices`: the `$` substitution patterns of `replace` (such as `$&`) are not modelled. A rendered quantity is digits and an optional `-`, so it never contains one.
- `Common.Without`: `arrayWithout` comes from a utility library that is not part of this model. It is taken to remove every occurrence and keep the order.
- Authenticators, the storage backend and the event bus are foreign code. Their effects are the `AuthenticatorCall` parameter, the `storage` map and the `events` sequence. A stored value that does not parse is `Unreadable`.
- An authenticator object's identity is the `id` of an `Authenticator` value, and its `name` property is the `name` field. The model does not tie a call's result to the object it is made on: a session a call starts may carry any authenticator object, as foreign code may.
- `console.error`, `alert` and `translate` are not modelled. The alert is an event, and translated texts are their keys.
- The snackbar's "view details" action is not modelled as an operation. It hides the snackbar and opens the report, and that report is the one the snackbar carries.

## Findings

| source | as written | input that shows it | evidently intended | confidence | as-written member | corrected member |
|---|---|---|---|---|---|---|
| src/services/KitchenService.ts:141-145 | the logout handler empties the dishes but never calls `releaseScreen`, so the wake lock stays held with no dish; the next `addRecipe` overwrites `screenLock`, and the first request is never released | boot, `addRecipe` with the wake-lock API present, then logout: no dish, lock request 0 held; `addRecipe` again: request 1 held, request 0 never released | logout releases the screen lock along with the dishes, as `complete` does when the last dish goes | medium, not executed | Kitchen.KitchenService.OnLogout, Kitchen.LogoutKeepsScreenLocked, Kitchen.RelockLeaksFirstRequest | Kitchen.KitchenService.OnLogoutReleasingScreen, Kitchen.RelockAfterReleasingLogout |
