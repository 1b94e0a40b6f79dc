# libtween in Dafny

A model of libtween's tweening engine (`libtween/tween.c`), with proofs about it. An
engine keeps a list of active tweens. Each tween interpolates a vector of properties
from a start vector to a target vector over a duration. Each call of the engine's
update walks the list and updates every tween, at the time it is given. Other parts
of the engine:

- A tween waits until its start time, which is the time it was started plus its delay.
- Its start callback fires once.
- Progress is the elapsed time over the duration, capped at 1.
- A tween may repeat, optionally in yoyo fashion: target and repeat vector swap and
  the direction flag flips.
- When a tween finishes, it starts every tween chained to it, fires its complete
  callback and leaves the list.

The model has two layers.

- **Values.**
  - `Props` holds property vectors and the interpolation.
  - `Lifecycle` holds a tween's fields as a `TweenState` and `Step`, the effect of
    `Tween_UpdateTween` on them.
  - `ActiveList` holds the first-match search and unlink of `Tween_StopTween`.
  - `Scheduler` holds the engine as a `World`: tween states, chains, the active list
    and a log of fired callbacks. It also holds the chain start, one tween's update
    inside the engine (`UpdateAt`), and the walk of `Tween_UpdateEngine` (`Pass`).
- **Objects.**
  - `Tweens` has the classes `Engine` and `Tween`, with the fields of the C records.
  - Their methods change those fields in place, in the order the C code does.
  - The engine's methods, and a tween's `Start`, `Update` and `Stop`, are proved to
    act on the engine's abstract value (`Engine.Abs()`) exactly as the corresponding
    value-level function says.
  - A tween's `Chain` states its effect on that value directly: its own entry in the
    chain map gets the successor appended, and nothing else changes.
  - `FireComplete` only appends the complete callback, when set, to the callback log.
  - The steps inside a tween's update, `UpdateOwn` and `NextCycle`, are stated on the
    tween's own fields (`Tween.State()`). Until `UpdateAndRecord` writes the new state
    into the engine's ghost copy of the tween states, that copy is stale.
  - `Tween.Register` is ghost bookkeeping with no counterpart in tween.c: it enters a
    new tween in the engine's ghost record of the tweens it knows.

The walk of `Tween_UpdateEngine` can see the list grow while it runs. A finishing
tween starts its chain, which appends to the list being walked. The model walks an
index over a sequence that may grow. It proves that the walk terminates, that it
visits every entry in order (including the appended ones), and that it keeps exactly
the entries whose update reported the tween active.

With yoyo, the first, third, and later odd-numbered cycles end at the target, and
the even-numbered ones end at the original start. The first cycle runs from start to
target, and only then do the target and repeat vector swap (`Lifecycle.CycleEndpoints`).

## Model

| member | source | states |
|---|---|---|
| Props.Lerp | libtween/tween.c:275 | interpolating keeps the length of the vectors |
| Props.LerpEndpoints | libtween/tween.c:275 | at eased progress 0 the live vector is the start vector; at 1 it is the target |
| Props.LerpMidpoint | libtween/tween.c:275 | interpolation is linear: eased progress 1/2 gives the componentwise mean of start and target |
| ActiveList.IndexOf | libtween/tween.c:230-248 | the position found holds the tween and no earlier entry does |
| ActiveList.FirstOccurrenceIsIndexOf | libtween/tween.c:232-233 | a position holding the tween with none before it is the position the scan stops at |
| ActiveList.Splice | libtween/tween.c:79-89 | unlinking the entry at a position makes the list one shorter; the entries before it stay where they are and the later ones close up in order |
| ActiveList.RemoveFirst | libtween/tween.c:230-249 | stop removes exactly one entry of the tween (multiset minus one) if there is one: the earlier entries, none of which is the tween, stay in place, and the later ones close up in order; if there is none, nothing changes |
| ActiveList.FindEntry | libtween/tween.c:230-249 | the list walk finds an entry exactly when the tween is listed, and stops at its first entry |
| Lifecycle.AddU32 | libtween/tween.c:198-199 | `time + delay` in uint32_t: the sum below 2^32, otherwise the sum minus 2^32 |
| Lifecycle.Created | libtween/tween.c:103-123 | a new tween's live, start and repeat vectors are the given start vector and its target is the given target. It is not started, has no repeat, no delay, no yoyo, no start or complete callback, and its start flag is clear. It is well formed iff the duration is positive and the vectors have one length |
| Lifecycle.CreatedEx | libtween/tween.c:129-141 | the extended form sets repeat, delay, yoyo and the start and complete callbacks as given; with those reset, it is the plain `Created` |
| Lifecycle.CreatedExInitialState | libtween/tween.c:103-141 | a created tween has live, start and repeat vectors equal to the given start vector, and its target is the given target. It is not started, not reversed and has its start flag clear. Repeat, delay, yoyo and the callbacks are as given by the extended form and zero/unset otherwise. It is well formed iff the duration is positive and the vectors have one length |
| Lifecycle.Started | libtween/tween.c:198-201 | start sets the start time to `time + delay` (uint32) and the live vector to the start vector, and changes no other field |
| Lifecycle.StartedTwice | libtween/tween.c:198-201 | the state effect of a start at one time is idempotent |
| Lifecycle.Progress | libtween/tween.c:272-273 | the capped elapsed fraction lies in [0, 1] and equals 1 iff at least `duration` ticks have passed since the start time |
| Lifecycle.QuotientBelowOne | libtween/tween.c:272-273 | the quotient of elapsed ticks by duration is below 1 iff the elapsed ticks are below the duration |
| Lifecycle.Step | libtween/tween.c:256-312 | an update leaves a well-formed tween well formed |
| Lifecycle.PendingUpdateIsNoOp | libtween/tween.c:260-262 | before the start time an update reports active, changes nothing and fires nothing |
| Lifecycle.StepFinishesIff | libtween/tween.c:281-308 | an update reports the tween finished iff its cycle completes and no repeat is left (a negative count counts as none) |
| Lifecycle.StartCallbackFlag | libtween/tween.c:264-270 | the start flag is set iff it was set or the start time is reached, and is never cleared; the start callback fires exactly on the update that sets the flag, if the callback is set |
| Lifecycle.Advanced | libtween/tween.c:264-279 | the running part of an update keeps the tween well formed, sets the start flag and changes no other field than the live vector; when the cycle completes and the curve maps 1 to 1, the live vector is the target |
| Lifecycle.Repeated | libtween/tween.c:282-293 | the repeat branch uses one repeat and restarts the cycle at `time + delay` (uint32) from the repeat vector, which the start vector then equals. With yoyo the repeat vector and target are exchanged and the direction flips; without yoyo they stay. Live vector, start flag and configuration are unchanged, and the tween stays well formed |
| Lifecycle.RunningStep | libtween/tween.c:264-279 | an update inside the cycle keeps the tween active and changes only the start flag and the live vector, which becomes the interpolation at the eased progress |
| Lifecycle.RepeatStep | libtween/tween.c:281-293 | a completed cycle with repeats left: one repeat is used up and the tween stays active. The next cycle starts at `time + delay` from the repeat vector. With yoyo the repeat vector and target are exchanged and the direction flips; without yoyo both stay |
| Lifecycle.FinishStep | libtween/tween.c:295-307 | a completed cycle with no repeat left reports finished and changes only the start flag and live vector; the complete callback fires iff it is set, and last |
| Lifecycle.CompletionReachesTarget | libtween/tween.c:272-275 | the update that completes a cycle leaves the live vector at the target when the curve maps 1 to 1 |
| Lifecycle.StepKeepsBaseline | libtween/tween.c:285-290 | start vector and repeat vector stay equal through updates and starts |
| Lifecycle.StepKeepsConfiguration | libtween/tween.c:256-312 | updates never change duration, delay, yoyo, easing or callbacks; the start time stays or moves to `time + delay` |
| Lifecycle.YoyoTwoCyclesRestore | libtween/tween.c:285-288 | two yoyo repeats restore the target, the repeat vector and the direction, using two repeats |
| Lifecycle.StartFiresAtMostOnce | libtween/tween.c:264-270 | over any run of updates the start callback fires at most once, and never if the flag was already set |
| Lifecycle.InCycleStep | libtween/tween.c:260-279 | an update before the start time or inside a cycle keeps the tween active and changes nothing but the live vector and the start flag |
| Lifecycle.RepeatCycles | libtween/tween.c:260-293 | with `repeat = N >= 0`, for any run of updates (any number of them inside each cycle), the tween finishes exactly on the update that completes its (N+1)-th cycle: it is still active iff at most N updates completed a cycle. After k <= N completed cycles, N - k repeats remain, start equals repeat vector, and start, target and direction are the original ones, swapped after odd k with yoyo |
| Lifecycle.Run | libtween/tween.c:256-312 | a run of updates, stopping at the one that finishes the tween, keeps it well formed, never changes its configuration, and never clears its start flag |
| Lifecycle.CycleEndpoints | libtween/tween.c:275-290 | with a curve mapping 1 to 1, after any run of updates that leaves the tween active with k completed cycles, the (k+1)-th cycle ends at the original target, except with yoyo and odd k, where it ends at the original start |
| Scheduler.StartOne | libtween/tween.c:194-219 | start appends exactly one entry for the tween at the tail of the list and keeps the earlier entries, all chains and the log |
| Scheduler.AddClosed | libtween/tween.c:106-109 | registering a new well-formed tween with an empty chain keeps the engine closed |
| Scheduler.ChainClosed | libtween/tween.c:147-167 | chaining two tweens of the engine keeps it closed |
| Scheduler.SetStateClosed | libtween/tween.c:256-312 | replacing a tween's state by a well-formed one keeps the engine closed |
| Scheduler.StartOneClosed | libtween/tween.c:194-219 | a start keeps the engine closed |
| Scheduler.StartAll | libtween/tween.c:296-301 | the chain loop appends the chain to the list in chain order and keeps chains, log and the set of tweens |
| Scheduler.StartAllSnoc | libtween/tween.c:298-300 | one more iteration of the chain loop is one more start |
| Scheduler.StartAllAt | libtween/tween.c:296-301 | after the chain loop a chained tween has the state of one start at `time` (also when chained twice) and every other tween is unchanged |
| Scheduler.StartAllLog | libtween/tween.c:296-301 | starting tweens does not look at or touch the log |
| Scheduler.UpdateAt | libtween/tween.c:256-312 | an update keeps the set of tweens and the chains. It keeps the list when the tween stays active, and appends the tween's chain when it finishes |
| Scheduler.UpdateAtInSourceOrder | libtween/tween.c:264-307 | the callbacks before the chain loop, then the chain loop, then the complete callback, amount to `UpdateAt` |
| Scheduler.UpdateAtEffect | libtween/tween.c:256-312 | the updated tween takes the state `Step` gives. If it finished, each chained tween is then started at `time`, so a tween chained to itself restarts. No other tween changes, and the fired callbacks are logged in order |
| Scheduler.UpdateAtClosed | libtween/tween.c:256-312 | an update keeps the engine closed |
| Scheduler.Unlink | libtween/tween.c:78-91 | unlinking an entry shortens the list by one; the entries before it stay where they are, the later ones close up in order, and states, chains and log are unchanged |
| Scheduler.UnlinkKeepsClosed | libtween/tween.c:78-91 | unlinking keeps the engine closed |
| Scheduler.UpdateAtShrinksBudget | libtween/tween.c:77-94 | every visit of the walk keeps the engine closed and strictly lowers a measure of the work left, so the walk ends even though it appends entries |
| Scheduler.PassStep | libtween/tween.c:77-94 | after a visit the walk goes on from the next entry if the tween stayed, and from the same position without the entry otherwise |
| Scheduler.Pass | libtween/tween.c:77-94 | the walk ends (its measure of the work left decreases on every visit), changes no chain and keeps the set of tweens |
| Scheduler.PassVisits | libtween/tween.c:77-94 | the walk visits every entry from its position on, in list order, then the chains of the tweens that finished, in the order they finished |
| Scheduler.PassKeeps | libtween/tween.c:77-94 | the list the walk leaves is the entries before its position, then exactly the visited entries whose tween reported active, in visiting order |
| Scheduler.PassStartedEntriesStay | libtween/tween.c:77-94 | entries whose start time is not before `time` are visited and kept |
| Scheduler.AppendedEntriesSurvive | libtween/tween.c:77-94 | every entry appended during the walk (a chained tween started at the walk's time) is visited in the same walk and stays in the list |
| Scheduler.PassLogGrows | libtween/tween.c:77-94 | the walk only appends to the callback log |
| Scheduler.ChainedStartAtCompletion | libtween/tween.c:296-300 | a tween of duration 100 started at 0, chained to a tween with delay 5: the update at 100 finishes it, appends its successor, and the successor's start time is 105 |
| Scheduler.UpdateEngine | libtween/tween.c:67-97 | the result is 0 exactly when the list is empty, and then nothing changes; otherwise it is 1 and the list becomes the survivors of the walk in visiting order. Chains and the set of tweens are kept and the log only grows |
| Scheduler.SelfChainedVisit | libtween/tween.c:77-94 | a finished tween chained to itself, with no repeat left, restarts at `time + delay` (uint32) and the unlink gives back a one-entry list |
| Scheduler.WrappedSelfChainRepeats | libtween/tween.c:77-94 | a tween of duration 100 and delay 1000 chained to itself, updated at 2^32 - 10, restarts at 990 and finishes again on every visit, and each visit leaves the walk the list it began with |
| Tweens.Engine.constructor | libtween/tween.c:36-43 | a new engine has an empty list and knows no tween |
| Tweens.Engine.Update | libtween/tween.c:67-97 | returns 0 and changes nothing on an empty list; otherwise walks the list as `Pass` does, unlinking finished tweens' entries, and returns 1 |
| Tweens.Engine.UnlinkEntry | libtween/tween.c:79-91 | the entry at the position is taken out of the list and nothing else changes |
| Tweens.Engine.StartEach | libtween/tween.c:296-301 | the chain loop starts each successor in order, as `StartAll` |
| Tweens.Tween.constructor | libtween/tween.c:103-123 | the new tween's fields are those of `Created`, its chain is empty, and the engine knows it without listing it |
| Tweens.Tween.Ex | libtween/tween.c:129-141 | the extended form: the fields of `CreatedEx` |
| Tweens.Tween.Chain | libtween/tween.c:147-168 | the successor is appended at the end of the chain; nothing else changes |
| Tweens.Tween.Start | libtween/tween.c:194-220 | the fields and the list change as `StartOne` says |
| Tweens.Tween.UpdateOwn | libtween/tween.c:256-295 | the tween's fields become `Step`'s next state, the result is `Step`'s, and the callbacks fired before the chain loop are logged in order |
| Tweens.Tween.NextCycle | libtween/tween.c:282-293 | the repeat branch changes the fields as `Repeated` says |
| Tweens.Tween.UpdateAndRecord | libtween/tween.c:256-312 | the tween's update up to the complete callback: the result is `Step`'s, the engine's copy of the tween's state becomes `Step`'s next state, and the callbacks fired are logged; chains and list are unchanged |
| Tweens.Tween.FireComplete | libtween/tween.c:303-305 | the complete callback is logged iff it is set |
| Tweens.Tween.Update | libtween/tween.c:256-312 | the engine's value and the result are those of `UpdateAt` |
| Tweens.Tween.Stop | libtween/tween.c:226-250 | the first entry of the tween is unlinked (none if absent); the tween's fields, every chain and the rest of the list in order are unchanged |

## Left out

- `Tween_DestroyEngine` and `Tween_DestroyTween` (libtween/tween.c:49-61, 174-188) only release memory. Memory is not modelled, so neither is the dangling entry left when a listed tween is destroyed.
- `Tween_CopyProps`, `Tween_SwapProps`, `Tween_UpdateProps` and the easing table are defined outside tween.c. Vectors are sequences of reals and copy and swap are assignments. Interpolation is `Props.Lerp` on exact reals. The easing table is a parameter.
- The `double` arithmetic of the elapsed fraction is read on exact reals, so floating-point rounding is not modelled. The completion test `elapsed == 1` becomes "at least `duration` ticks passed".
- Tweens.Tween.constructor: requires a positive duration and vectors of one length. For other inputs the C code's behaviour is undefined (division by zero, out-of-bounds copy), so the model does not state it.
- Tweens.Tween.Ex: requires a positive duration and vectors of one length, for the same reason.
- Tweens.Tween.Chain: requires both tweens to be created on one engine. The C code would also chain a tween of another engine, which its start then appends to the other engine's list.
- Tweens.Engine.Update: requires `time + delay` to stay below 2^32 for every tween. Without that, a tween chained to itself can keep the walk from ending (see Findings). Start and the repeat branch model the uint32_t wrap-around itself (`Lifecycle.AddU32`).
- Scheduler.Pass and Scheduler.UpdateEngine: require `time + delay` to stay below 2^32 for every tween, for the same reason.
- Callbacks are recorded only by whether they are set, and firing appends an event to a ghost log. Their code, the `data` pointer and callbacks that call back into the engine are not modelled.
- The singly linked lists are sequences. Walking to the tail and linking a node is appending. Allocating and freeing nodes is not modelled, and neither is an allocation failure.

## Findings

| source | as written | input that shows it | evidently intended | confidence | as-written member | corrected member |
|---|---|---|---|---|---|---|
| libtween/tween.c:77-94 | a finished tween restarts its chain at `time + delay` in uint32_t. When that sum wraps, the restarted tween's start time has already passed. A tween chained back to itself then finishes again on the same walk, and the walk of `Tween_UpdateEngine` never ends | a tween of duration 100 and delay 1000 chained to itself, updated at 2^32 - 10 (a millisecond clock wraps about every 49.7 days): it restarts at 990 and finishes again on every visit | every call of `Tween_UpdateEngine` returns, and a tween started during the walk is updated in the same walk but cannot finish in it | not executed | Scheduler.WrappedSelfChainRepeats | Scheduler.Pass |
