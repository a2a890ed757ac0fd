# Autotracking in @pago/reactive, modelled in Dafny

@pago/reactive tracks which reactive values a computation reads and reruns the computation
only when one of them has changed. This is autotracking: a global revision clock, tags that
carry revision stamps, an ambient "current computation" that records the tags read, and
memoized functions that reuse their value while the newest revision of the tags they read
last time is the one they recorded.

This project models that engine in three parts:

- **src/tag.ts**, the engine used by the library. It has:
  - the clock;
  - tags with subscriber sets, and `createTag`, `dirtyTag`, `consumeTag` and `getMax`;
  - the microtask scheduler, `schedule` and `drainQueue`;
  - `SubscriptionController`, with `setObservedTags`, `subscribe` and `unsubscribe`;
  - `memoize` with an optional controller, `collectSubscriptions` and `watchEffect`.
- **src/reactive.ts**, an earlier copy of the engine. It has the same clock, tags, current
  computation and `memoizeFunction`, and a single `onTagDirtied` callback instead of per-tag
  subscriptions.
- **src/utils.ts**, `mergePropsIntoReactive`. It reconciles a component's reactive props
  object with new props, in place.

## Layout

| file | module | contents |
|---|---|---|
| wrappers.dfy | `Wrappers` | `Option` |
| sequences.dfy | `Sequences` | `Distinct`: a sequence without repetitions |
| revisions.dfy | `Revisions` | revisions, `getMax`, the effect of a run of `dirtyTag` calls, and the cache-validity lemmas |
| scopes.dfy | `Scopes` | the current computation as an insertion-ordered set; `add`, adding each of a list, and bubbling |
| computations.dfy | `Computations` | errors, and user functions described by their reads and their outcome |
| tag.dfy | `Tags` | src/tag.ts |
| reactive.dfy | `Reactive` | src/reactive.ts |
| props.dfy | `Props` | src/utils.ts |

## Modelling decisions

- **Engine state.** The module-level variables of each engine file are the fields of one
  `Engine` object.
  - The clock is `clock`.
  - The stamp and the subscribers of each tag are `revs` and `subs`.
  - `currentComputation` is `current`.
  - `scheduledTags` and `nextTick` are `scheduled` and `tickPending`.
  - The `subscriptions` array of `collectSubscriptions` is `collecting`.
  - In src/reactive.ts, `onTagDirtied` is a field of its own.
- **Tags** are indices into `revs` and `subs`.
- **Effects, teardowns and callbacks** are identities. A fresh effect closure comes from
  `NewEffect`.
- **`currentComputation`** is a JavaScript `Set`, which iterates in insertion order. It is
  held as a sequence without repetitions, so `Array.from(currentComputation)` is that sequence.
- **`getMax([])`** is `Math.max()`, which is `-Infinity`. Revisions are never negative, so
  `NoRevision` (-1) stands for it.
- **User code** is not visible to the engine. A user function is described by the tags it
  consumes, in order, and whether it returns a value or throws.
  - A `watchEffect` body is also described by the teardown it hands to `onInvalidate`, if any.
  - An operation that would call user code returns which code it calls. Examples: the effects
    a flush fires, the catch-up call of `subscribe`, the teardown `unsubscribe` runs, and the
    `onTagDirtied` callback `dirtyTag` calls. The caller runs that code.
- **The microtask** that `schedule` queues is the explicit `Flush` method.
- **`collectSubscriptions(fn)`**: `fn` is modelled as starting a list of watchers in turn and
  then ending as a given status says.
- **A throw** from a user function is the `Failed` status or the `Raised` reply. Keeping it
  has these effects:
  - a memoized function that threw keeps its old value and the new cache key;
  - `collectSubscriptions` restores the list in force before;
  - a `watchEffect` whose first run throws is neither listed nor subscribed.
- **A throw inside `collectSubscriptions`.** When `fn` throws, `collectSubscriptions`
  restores the previous list and lets the error propagate. The controllers started before
  the throw are neither returned nor disposed of.
- **Props objects.** A JavaScript object is its own keys, in `Object.keys` order, plus a map
  from those keys to values. `delete` removes a key. Assigning to a key keeps the place of an
  existing key and appends a new one.

## Model

| member | source | states |
|---|---|---|
| Revisions.GetMax | src/tag.ts:80-82 | the newest revision of the listed tags: it bounds every listed stamp and is attained; an empty list gives NoRevision, and only an empty list does (`getMax` of src/reactive.ts:46-48 is identical) |
| Revisions.StampAll | src/tag.ts:59-64 | the stamps after a run of successful `dirtyTag` calls; the table keeps its size |
| Revisions.MaxIgnoresOtherTag | src/tag.ts:80-82 | re-stamping a tag outside a list leaves the list's maximum unchanged |
| Revisions.StampAllBounds | src/tag.ts:59-64 | dirtying never lowers a stamp, and never stamps past the clock it ends at |
| Revisions.StampAllAppend | src/tag.ts:59-64 | two runs of `dirtyTag` calls, the second starting at the clock the first ended at, stamp exactly as the single run of both lists |
| Revisions.StampedTagIsNew | src/tag.ts:59-64 | a tag dirtied at some point in the run ends up newer than the starting clock |
| Revisions.UntouchedKeepsMax | test/tag.test.ts:13-22 | dirtying only tags outside a list keeps the list's maximum, so an unread tag never invalidates a cache |
| Revisions.CacheValidIffUntouched | test/tag.test.ts:13-34 | after any run of `dirtyTag` calls, a memoized function still hits exactly when none of the dirtied tags was read: both directions |
| Scopes.Add | src/tag.ts:74-78 | `Set.add`: the contents gain exactly the tag; the length grows by at most one |
| Scopes.AddAll | src/tag.ts:199-201 | adding each tag of a list to the set in turn: the contents are the union; the length is bounded by both lists |
| Scopes.AddKeepsDistinct | src/tag.ts:76 | adding keeps the scope free of repetitions |
| Scopes.AddAllKeepsDistinct | src/tag.ts:212 | `Array.from(currentComputation)` lists each consumed tag once |
| Scopes.AddAllKeepsOrder | src/tag.ts:215-217 | adding never reorders: the earlier contents stay in front, in their order |
| Scopes.AddAllValid | src/tag.ts:212-218 | a scope of existing tags stays one when existing tags are added |
| Scopes.Bubbled | src/tag.ts:215-217 | bubbling leaves a missing enclosing computation missing; otherwise it adds exactly the recorded tags |
| Scopes.BubbledKeepsDistinct | src/tag.ts:215-217 | the enclosing computation stays free of repetitions |
| Scopes.BubbledKeepsOrder | src/tag.ts:215-217 | bubbling only appends to the enclosing computation |
| Tags.Due | src/tag.ts:20-25 | the effects subscribed to any of a set of tags: what a flush of those tags owes |
| Tags.Engine.constructor | src/tag.ts:5-12 | the clock starts at 0; no tags, no computation, nothing scheduled, no tick pending |
| Tags.Engine.NewEffect | src/tag.ts:282 | a fresh effect, subscribed to no tag |
| Tags.Engine.CreateTag | src/tag.ts:38-53 | a new tag carries the current clock and no subscribers, so no existing stamp is newer |
| Tags.Engine.TagSubscribe | src/tag.ts:42-44 | the effect joins exactly that tag's subscribers |
| Tags.Engine.TagUnsubscribe | src/tag.ts:46-48 | the effect leaves exactly that tag's subscribers |
| Tags.Engine.Schedule | src/tag.ts:13-18 | the tag joins the queue and a tick is pending; the invariant "a tick is pending exactly when the queue is non-empty" holds, so at most one flush is outstanding |
| Tags.Engine.DirtyTag | src/tag.ts:59-68 | a tag the current computation has read is refused with the cycle error and nothing changes; otherwise the clock rises by one, the tag takes it (one step of StampAll) and is strictly newest, and it is queued exactly when it has subscribers |
| Tags.Engine.ConsumeTag | src/tag.ts:74-78 | inside a computation the tag is added; outside one nothing changes |
| Tags.Engine.ConsumeEach | src/tag.ts:199-201 | consuming each tag of a list in turn is bubbling that list |
| Tags.Engine.Flush | src/tag.ts:20-28 | the queue is emptied and the tick cancelled; the effects fired are exactly those subscribed to a queued tag when the drain runs, each once, so an effect unsubscribed before the drain does not fire |
| Tags.DueStep | src/tag.ts:23-25 | one more queued tag owes exactly its own subscribers |
| Tags.SubscribeEach | src/tag.ts:126-128 | the effect is added to exactly the listed tags |
| Tags.UnsubscribeEach | src/tag.ts:129-131 | the effect is removed from exactly the listed tags |
| Tags.Bound | src/tag.ts:126-131 | the subscription invariant: a subscribed controller's effect is on exactly its tags, an unsubscribed one's on none |
| Tags.SubscriptionController.constructor | src/tag.ts:88-108 | a controller starts with no tags, unsubscribed, at revision 0, without cleanup |
| Tags.SubscriptionController.SubscribeToTags | src/tag.ts:126-128 | the loop registers the effect on every tag of the list and nowhere else |
| Tags.SubscriptionController.UnsubscribeFromTags | src/tag.ts:129-131 | the loop removes the effect from every tag of the list and nowhere else |
| Tags.SubscriptionController.SetObservedTags | src/tag.ts:115-124 | on both paths the list and the revision are replaced; a subscribed controller moves its effect from the old tags to the new ones, and on neither path does the "subscribed exactly on its tags" invariant break |
| Tags.SubscriptionController.Subscribe | src/tag.ts:138-157 | idempotent. The first call registers the effect on exactly its tags and fires the effect once, synchronously, exactly when a tag is newer than the revision last observed; an empty list never fires |
| Tags.SubscriptionController.Unsubscribe | src/tag.ts:162-169 | idempotent. The first call removes the effect from every tag and runs the cleanup if one is set |
| Tags.Memo.constructor | src/tag.ts:189-195 | nothing is cached |
| Tags.Memo.Call | src/tag.ts:197-204 | on a hit `fn` is not invoked, the cached value comes back unchanged and the cached tags bubble into the enclosing computation; `fn` runs exactly when the cache misses; a function that read nothing never runs again; afterwards the cache hits |
| Tags.Memo.Recompute | src/tag.ts:206-223 | whether `fn` returns or throws, the key is the consumed tags (each once, in read order) and their maximum; the enclosing computation is restored with those tags added; the controller receives the tags and the revision; the value changes only when `fn` returns, and an error is passed on |
| Tags.Memo.Finish | src/tag.ts:211-221 | the `finally` block: the recorded tags and their maximum become the key and go to the controller, and the previous computation is current again with the tags added |
| Tags.Watcher.constructor | src/tag.ts:282-289 | a fresh effect, its controller and the memoized body, nothing cached |
| Tags.Watcher.TearDown | src/tag.ts:283-288 | the `cleanup` wrapper runs its teardown and unsets itself |
| Tags.Watcher.OnInvalidate | src/tag.ts:283-288 | a registered teardown becomes the cleanup |
| Tags.Watcher.Effect | src/tag.ts:298-306 | a registered teardown runs first and is cleared, so it runs once per registration; the body reruns only on a cache miss, and only a body that ran can register a new teardown; afterwards the memoized body hits its cache; a rerun moves a subscribed effect from the old tags to the new ones |
| Tags.Watcher.Start | src/tag.ts:289-290 | `watchEffect` runs its body once at once: the tags it read, each once, and their newest revision are observed; the memo's cache then hits; the registered teardown is on record; nothing is subscribed yet; a throw is passed on |
| Tags.Watcher.Launch | src/tag.ts:289-296 | after the first run the controller observes the tags read and their newest revision and the memo hits; the controller is listed when a list is being collected, or subscribed to exactly its tags otherwise; a first run that throws leaves it neither |
| Tags.Watcher.Enlist | src/tag.ts:292-296 | listed and not subscribed inside `collectSubscriptions`; subscribed otherwise, and the catch-up call cannot fire here |
| Tags.Watcher.Dispose | src/tag.ts:308 | the disposer leaves the effect on no tag, leaves every other subscriber in place, and runs the registered teardown of a subscribed watcher; the teardown on record is cleared once it has run, so it cannot run again, and an unsubscribed watcher keeps its teardown |
| Tags.WatchEffect | src/tag.ts:279-309 | `watchEffect` end to end: a fresh effect numbered by the engine, one immediate run whose tags and newest revision the controller observes and whose result the memo caches, then listed or subscribed to exactly its tags; a throwing first run is neither listed nor subscribed. The watcher is returned, so its effect and disposer can be called |
| Tags.FirstFailure | src/tag.ts:233-237 | the status `collectSubscriptions` ends with: the error of the first watcher body that throws, or else how `fn` ends |
| Tags.Returned | src/tag.ts:233-235 | how many watchers `fn` starts before the first one whose body throws: every one counted returned, and the next one, if any, threw |
| Tags.FirstFailureAt | src/tag.ts:233-237 | the error `collectSubscriptions` ends with is the first watcher body that throws, or else how `fn` ends |
| Tags.AfterFirstRuns | src/tag.ts:233-235 | the enclosing computation after the watchers' first runs: present exactly when it was present before |
| Tags.AfterFirstRunsSkipsEmpty | src/tag.ts:215-217 | first runs that read no tag leave the enclosing computation as it was |
| Tags.Controllers | src/tag.ts:232-238 | the list of controllers of a list of watchers, position by position |
| Tags.ControllersCons | src/tag.ts:293 | pushing one controller and then the rest is listing them all |
| Tags.StateOf | src/tag.ts:282-289 | what can be observed of a watcher: its controller's tags, revision, subscription and cleanup, and its memo's cache key |
| Tags.FirstRunState | src/tag.ts:211-218 | the state a first run leaves: the observed tags exist, are listed each once, and the observed revision is their newest |
| Tags.Increasing | src/tag.ts:282 | each watcher of a list has a newer effect than those before it, which makes the watchers pairwise distinct |
| Tags.NumberedAreIncreasing | src/tag.ts:282 | effects numbered consecutively from a value are increasing and all lie between it and the counter |
| Tags.CollectedCons | src/tag.ts:233-235 | a collected watcher in front of the ones collected after it is again a list of collected watchers, in order, with effects numbered consecutively from its own |
| Tags.CollectedAreValid | src/tag.ts:282-296 | collected watchers, whose effects are new, are consistent with the engine: each effect is on no tag |
| Tags.CollectingWatchEffect | src/tag.ts:289-294 | inside a collection the new controller is appended to the list, subscribes to nothing, and holds exactly what its first run left (Collected) |
| Tags.CollectEach | src/tag.ts:232-235 | `fn` inside a collection: watchers start in order until one throws; the watchers made are exactly those before the first throw (Returned), and the list grows by exactly their controllers; each holds what its first run left, and their effects are the consecutive numbers from the counter's old value; the enclosing computation is as AfterFirstRuns gives it; the error is FirstFailure; no subscriber set changes |
| Tags.CollectAfter | src/tag.ts:232-235 | the watchers after a first one that returned: it stays in front, and the others follow as CollectEach states, with the next effect numbers |
| Tags.CollectSubscriptions | src/tag.ts:227-239 | the previous list is restored whether `fn` returns or throws; on success the controllers of every watcher started are handed back in order, each fresh, unsubscribed, consistent with the engine and holding what its first run left; their effects are consecutive new numbers, so the watchers, controllers and effects are pairwise distinct; on a throw no list is returned and the error is the first one thrown; no subscriber set changes |
| Reactive.Engine.constructor | src/reactive.ts:5-38 | the clock starts at 0, no computation, and the no-op callback |
| Reactive.Engine.CreateTag | src/reactive.ts:11-17 | a new tag carries the current clock, so no stamp is newer |
| Reactive.Engine.SetOnTagDirtied | src/reactive.ts:21-25 | the callback replaces the previous one |
| Reactive.Engine.DirtyTag | src/reactive.ts:27-34 | a tag the current computation has read is refused with the cycle error, and nothing changes or is called; otherwise the clock rises by one, the tag takes it (one step of StampAll) and is strictly newest, and the installed callback is called exactly once |
| Reactive.Engine.ConsumeTag | src/reactive.ts:40-44 | inside a computation the tag is added; outside one nothing changes |
| Reactive.Engine.ConsumeEach | src/reactive.ts:57-59 | consuming each tag of a list in turn is bubbling that list |
| Reactive.Memo.constructor | src/reactive.ts:51-53 | nothing is cached |
| Reactive.Memo.Call | src/reactive.ts:55-62 | on a hit `fn` is not invoked, the cached value comes back and the cached tags bubble into the enclosing computation; `fn` runs exactly when the cache misses; a function that read nothing never runs again |
| Reactive.Memo.Recompute | src/reactive.ts:64-81 | whether `fn` returns or throws, the key is the consumed tags and their maximum, the previous computation is restored with those tags added, the value changes only when `fn` returns, and an error is passed on |
| Reactive.Memo.Finish | src/reactive.ts:69-78 | the `finally` block: the recorded tags and their maximum become the key, and the previous computation is current again with the tags added |
| Props.Drop | src/utils.ts:4 | the keys of a list outside another, in order |
| Props.Only | src/utils.ts:5-6 | the keys of a list inside another, in order |
| Props.Without | src/utils.ts:5 | after the deletes, exactly the keys not deleted remain, with their values |
| Props.Assigned | src/utils.ts:6 | after the assignments, the keys are the old ones plus the assigned ones, and the assigned values win |
| Props.Merged | src/utils.ts:1-8 | the object the merge leaves: the old keys `newProps` still has, in their places, then its other keys in its order, all holding its values |
| Props.DropKeepsDistinct | src/utils.ts:3-5 | filtering keeps keys unique |
| Props.OnlyKeepsDistinct | src/utils.ts:5-6 | filtering keeps keys unique |
| Props.DropTwice | src/utils.ts:4 | deleting names one after another is deleting them all |
| Props.DropStep | src/utils.ts:4-5 | one more name deleted, in list order |
| Props.DropExtend | src/utils.ts:6 | one more key appended by the assignment, in list order |
| Props.AssignStep | src/utils.ts:6 | a key `Object.assign` writes is already present exactly when the object had it before the assignment began |
| Props.DropIsOnly | src/utils.ts:3-5 | deleting the stale names keeps exactly the old keys that `newProps` also has |
| Props.DropAgrees | src/utils.ts:6 | filtering by two lists that agree on a sequence's elements gives the same result |
| Props.DropAll | src/utils.ts:6 | when every key is already present, nothing is appended |
| Props.DropNothing | src/utils.ts:3 | deleting no names changes nothing |
| Props.MergedWellFormed | src/utils.ts:1-8 | the merged object again has unique keys, each holding a value |
| Props.MergedHoldsNewProps | test/utils.test.ts:5-51 | after the merge the keys are exactly those of `newProps`, each holding the new value, and every old key `newProps` lacks is gone |
| Props.MergedKeepsOrder | test/utils.test.ts:19-34 | surviving keys keep their relative order in front, and only keys the object lacked are appended |
| Props.SameKeysKeepOrder | test/utils.test.ts:5-17 | when only values change, the key order is unchanged |
| Props.Idempotent | src/utils.ts:1-8 | merging the same props twice gives what merging once gives |
| Props.Props.constructor | src/utils.ts:1 | the props object holds the given record |
| Props.Props.Delete | src/utils.ts:5 | deleting a property removes the key and its value, and nothing else |
| Props.Props.Assign | src/utils.ts:6 | writing a property stores the value; an existing key keeps its place and a new one goes last |
| Props.Props.DeleteAll | src/utils.ts:5 | the delete loop removes exactly the listed names |
| Props.Props.AssignAll | src/utils.ts:6 | `Object.assign`: existing keys stay in place, new keys are appended in `newProps` order, and the new values win |
| Props.Props.MergePropsIntoReactive | src/utils.ts:1-8 | the same object is returned, updated in place to the `Merged` record: exactly the stale keys are deleted, and the values and key order are as the lemmas above state |
| Props.StaleNames | src/utils.ts:3-4 | the old key names with every key of `newProps` struck out, in order |

## Left out

- Promise and microtask timing: the flush is the explicit `Flush` method, which may run
  at any point.
- Tags.Engine.Flush: it returns the effects the drain calls, in order, but does not run them.
  An effect that throws part way through a flush, which skips the effects after it, is not
  modelled.
- The order in which `Set.forEach` visits the queued tags and their subscribers. `Flush`
  keeps each effect once and fires exactly the owed ones, but picks the visiting order freely.
- User closures are described by their reads, their outcome and the teardown they register.
  A body that dirties tags, or reads a tag after calling `onInvalidate`, is not modelled
  beyond that.
- `Math.max` over floating-point numbers, and `-Infinity`: revisions are natural numbers and
  NoRevision is -1.
- The reactive primitives the tests use: `ref`, `reactive`, `toRefs`, `toRef`, `derive` and
  `derived`. The test "does not recalculate if values are unchanged" in test/utils.test.ts
  depends on the reactive proxy not dirtying a tag when an equal value is assigned, and the
  proxy is not part of this model.
- Props: integer-like keys, which `Object.keys` lists first in ascending order, symbol keys,
  and the dirtying that `delete` and assignment cause through the reactive proxy.
- Tags.Watcher.TearDown, Tags.SubscriptionController.Unsubscribe, Tags.Watcher.Effect and
  Tags.Watcher.Dispose: teardowns are taken to return normally. In the code, a teardown
  that throws stays registered, because the `cleanup` wrapper unsets itself only after the
  teardown returns; `unsubscribe` then leaves `isSubscribed` set with the effect on no tag,
  and `effect()` skips the body. The model clears the cleanup and the subscription and runs
  the body unconditionally, so it does not capture a throwing teardown running again or
  the later `subscribe()` calls that then do nothing.
- Tags.CollectEach and Tags.CollectSubscriptions: the effects handed out are given their
  exact numbers, but the final effect counter is only bounded from below. It does not say
  that a watcher whose first run threw also used up one number.
- Revisions are JavaScript numbers, so past 2^53 `++CURRENT_REVISION` would stop
  increasing. The model's clock is an unbounded natural number, so this case is not
  modelled; no program reaches it in practice.
- src/component.ts, src/hooks.ts, src/jsx-runtime.ts, src/store.ts, src/index.tsx, the
  preact wrappers, stories and examples. These are the UI adapters, a wrapper over `ref` and
  re-exports, and they are not part of this model.
