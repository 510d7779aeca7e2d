# Hotkey lifecycle recorder

A Dafny model of `SimpleRecorder`, the hotkey recorder of Human-Analytics-Tracker
(`src/util/recorder.py`). The model proves properties about it.

A user registers callbacks (`GenericCallback`) under hotkey combinations such
as `"<ctrl>+h"`. Each activation of a hotkey resumes a generator bound to it.
That generator alternately calls the callback's `begin` and `end`, and it
moves the hotkey's phase (`GenericCallbackState`: Begin, Update, End) along
the way. On every game tick, `update(packet)` calls the `update` hook of each
callback whose hotkey is in Update, in registration order.

Files:

- `callback_state.dfy` (module `CallbackState`): the phase enum.
  - The integer values, and the conversion from an integer that may fail.
  - The enum's `__iadd__` as written, next to the cyclic addition it was
    meant to be.
- `generic_callback.dfy` (module `Callbacks`): the callback base class.
  - A callback is its name plus whether it overrides `update`.
  - The bodies of user-written hooks are not modelled.
- `recorder.dfy` (module `Recorder`): the recorder and its operations.
  - The operations are `Init`, `Register`, `Activate` (one hotkey
    activation), `Tick` (the `update` method) and `Replay` (a run of
    events).
  - Every operation is a pure function. It returns the new recorder, the
    callback calls made in order, and whether an exception was raised.
- `lifecycle.dfy` (module `Lifecycle`): properties of runs of events.
  - Strict begin/end alternation.
  - The phase after n activations.
  - Independence of different hotkeys.
  - Exactly-once update dispatch.
  - Duplicate registration.
  - Two concrete usage scenarios.

How the source's state is represented:

- **The generator.** It is replaced by the point where it is suspended
  (`Resume`): not started, after `begin`, or after `end`.
- **The three dictionaries.** `mapping`, `update_func` and `states` are
  always written together under the same key. They are modelled as one list
  of entries in insertion order. Python dictionaries iterate in insertion
  order, so the list order is the order `update` visits hotkeys.
- **The invariant.** `Recorder.Valid` holds after every operation:
  - no hotkey appears twice;
  - each hotkey's stored phase is the one its generator left behind;
  - its update function belongs to the callback its generator calls.
- **The phase after `end`.** After the second activation the phase stays End
  until the next activation. That activation resets it to Begin and steps it
  to Update at once (lines 96-98).
- **Runs.** A run is a sequence of activations and ticks, fed in one at a
  time. Activations come from the listener thread and ticks from the game
  loop, so an exception raised by one event does not stop the events after
  it. An event that raises leaves the recorder as it was.

## Model

| member | source | states |
|---|---|---|
| CallbackState.FromValue | Human-Analytics-Tracker/src/util/recorder.py:9-14 | `GenericCallbackState(v)` gives the member whose value is v exactly when 0 <= v <= 2 (`Max` aliases End), and a ValueError carrying v otherwise |
| CallbackState.Value | Human-Analytics-Tracker/src/util/recorder.py:11-13 | the phases have the values 0, 1 and 2, none of them above `Max` |
| CallbackState.ValueRoundTrip | Human-Analytics-Tracker/src/util/recorder.py:9-14 | converting a phase's value back with `GenericCallbackState(v)` gives that phase |
| CallbackState.ValueInjective | Human-Analytics-Tracker/src/util/recorder.py:11-13 | two phases have the same value only if they are the same phase, so `Max` can name no fourth phase |
| CallbackState.IAddAsWritten | Human-Analytics-Tracker/src/util/recorder.py:16-22 | `p += k` as written: a negative sum raises ValueError; a sum up to 3 agrees with cyclic addition; past Max the result is a member only for an odd sum, and that member is always Begin |
| CallbackState.IAddAgreesExactly | Human-Analytics-Tracker/src/util/recorder.py:16-22 | `__iadd__` as written agrees with cyclic addition exactly when the sum is between 0 and 3, or has the form 6m + 3 |
| CallbackState.EndPlusTwoFails | Human-Analytics-Tracker/src/util/recorder.py:16-22 | `End += 2` raises ValueError(-1) where the cycle gives Update |
| CallbackState.BeginPlusFiveMisfolds | Human-Analytics-Tracker/src/util/recorder.py:16-22 | `Begin += 5` gives Begin where the cycle gives End |
| CallbackState.Add | Human-Analytics-Tracker/src/util/recorder.py:16-22 | corrected `+=`: the value of the result is the sum taken modulo the cycle length 3 |
| CallbackState.AddCompose | Human-Analytics-Tracker/src/util/recorder.py:16-22 | adding a and then b is adding a + b |
| CallbackState.AddPeriod | Human-Analytics-Tracker/src/util/recorder.py:16-22 | adding any whole number of cycles leaves the phase unchanged |
| CallbackState.Advance | Human-Analytics-Tracker/src/util/recorder.py:91 | one step always changes the phase, and moves its value by one modulo 3 |
| CallbackState.AdvanceIsAddOne | Human-Analytics-Tracker/src/util/recorder.py:91 | one step is the corrected addition of 1 |
| CallbackState.IAddOneIsAdvance | Human-Analytics-Tracker/src/util/recorder.py:91 | the recorder's `+= 1` never hits the faulty fold: it is exactly the cyclic step |
| CallbackState.AdvancePeriod | Human-Analytics-Tracker/src/util/recorder.py:91-98 | three steps return to the starting phase, and two do not |
| Callbacks.Base | Human-Analytics-Tracker/src/util/recorder.py:28-47 | a plain `GenericCallback(name)` keeps its name, its `begin` and `end` return, and its `update` raises NotImplementedError |
| Callbacks.CallHook | Human-Analytics-Tracker/src/util/recorder.py:31-47 | a hook call raises NotImplementedError exactly when it is `update` and the callback does not override it; the default `begin` and `end` always return |
| Recorder.Init | Human-Analytics-Tracker/src/util/recorder.py:54-59 | a new recorder satisfies the invariant and has no hotkey registered |
| Recorder.Registered | Human-Analytics-Tracker/src/util/recorder.py:74 | `sequence in self.mapping`: whether some entry has the hotkey as its key |
| Recorder.RegisteredIffListed | Human-Analytics-Tracker/src/util/recorder.py:74 | a hotkey is registered exactly when it is among the keys of the entries |
| Recorder.Lookup | Human-Analytics-Tracker/src/util/recorder.py:77-105 | the values stored under a registered hotkey in `mapping`, `update_func` and `states`: the entry has that key, and in a recorder that keeps the invariant its update function is its generator's callback and its phase is the one the generator left behind |
| Recorder.Register | Human-Analytics-Tracker/src/util/recorder.py:61-106 | returns True exactly for a new hotkey; a duplicate changes nothing; a new hotkey is appended last, with a fresh generator over the callback, the callback's update function and phase Begin; every other hotkey keeps its registration, its values and its place in the order; the invariant is kept |
| Recorder.Activate | Human-Analytics-Tracker/src/util/recorder.py:88-103 | an unregistered hotkey raises KeyError and changes nothing; otherwise the generator moves on one suspension point, with exactly one call made: `begin` (phase now Update) when it was not started or after `end`, and `end` (phase now End) after `begin`; other hotkeys are untouched; no hotkey moves in the order; the invariant is kept |
| Recorder.Dispatch | Human-Analytics-Tracker/src/util/recorder.py:125-128 | the calls are the update calls, with the packet, of a prefix of the entries in Update, in order, all of them overriding `update`; it completes exactly when the prefix is all of them, and otherwise raises NotImplementedError for the next one, which inherits `update` |
| Recorder.Tick | Human-Analytics-Tracker/src/util/recorder.py:121-128 | the recorder is unchanged; every call is an update with that packet for a registered hotkey in Update; the calls follow the order of the entries in Update, with none skipped before the last; the tick completes exactly when every registered hotkey in Update overrides `update`, and otherwise raises for such a hotkey that does not |
| Recorder.DispatchCompletes | Human-Analytics-Tracker/src/util/recorder.py:125-128 | a dispatch over the entries in Update completes exactly when every registered hotkey in Update overrides `update` |
| Recorder.RaisedWitness | Human-Analytics-Tracker/src/util/recorder.py:125-128 | when a dispatch raises, the hotkey named in the error is registered, is in Update, and does not override `update` |
| Recorder.Apply | Human-Analytics-Tracker/src/util/recorder.py:103 | one activation or tick keeps the invariant and the set of registered hotkeys; one that raises leaves the recorder as it was |
| Recorder.Replay | Human-Analytics-Tracker/src/util/recorder.py:103 | a run of events keeps the invariant and the set of registered hotkeys |
| Recorder.ReplayKeepsOrder | Human-Analytics-Tracker/src/util/recorder.py:91-98 | over any run, the hotkeys keep the order they were registered in: activations only reassign values under existing keys, and ticks change nothing |
| Recorder.InUpdate | Human-Analytics-Tracker/src/util/recorder.py:125-126 | the entries in Update, each of them from the list, all of the list's entries in Update, in the list's order |
| Lifecycle.ApplyTracksPress | Human-Analytics-Tracker/src/util/recorder.py:88-103 | one event moves a hotkey's generator one step exactly when it is that hotkey's activation, and makes that hotkey's single `begin` or `end` call; ticks and other activations leave it alone |
| Lifecycle.ReplayTracksPresses | Human-Analytics-Tracker/src/util/recorder.py:88-103 | over any run, whatever other hotkeys' callbacks raise, a hotkey's `begin`/`end` calls strictly alternate, continuing from its suspension point, one per activation of it; its generator and phase end n activations further on |
| Lifecycle.FreshHotkeyLifecycle | Human-Analytics-Tracker/src/util/recorder.py:77-98 | after n activations of a newly registered hotkey, in any run, whatever other hotkeys' callbacks raise: its calls alternate starting with `begin`, ceil(n/2) of `begin` and floor(n/2) of `end`; its phase is Begin before any activation, Update after an odd count and End after an even one |
| Lifecycle.AlternationAt | Human-Analytics-Tracker/src/util/recorder.py:88-98 | n alternating calls that start with `begin` have `begin` at the even positions and `end` at the odd ones |
| Lifecycle.AlternationCounts | Human-Analytics-Tracker/src/util/recorder.py:88-98 | of n alternating calls that start with `begin`, ceil(n/2) are `begin` and floor(n/2) are `end` |
| Lifecycle.ResumeAfterClosedForm | Human-Analytics-Tracker/src/util/recorder.py:88-98 | a generator that starts with `begin` is, after n > 0 activations, suspended after `begin` when n is odd and after `end` when n is even |
| Lifecycle.EndStaysUntilNextActivation | Human-Analytics-Tracker/src/util/recorder.py:95-98 | after `end`, the phase is End; the next activation resets it and leaves it at Update, calling `begin` |
| Lifecycle.UnpressedHotkeyUntouched | Human-Analytics-Tracker/src/util/recorder.py:88-103 | a hotkey that is never activated during a run keeps its values, and none of its `begin`/`end` hooks is called |
| Lifecycle.PressesNeverRaise | Human-Analytics-Tracker/src/util/recorder.py:88-103 | a run of activations of registered hotkeys never raises |
| Lifecycle.DispatchCounts | Human-Analytics-Tracker/src/util/recorder.py:125-128 | over entries without a repeated hotkey, a completed dispatch calls `update` once for each hotkey in Update and never for any other |
| Lifecycle.TickUpdatesEachOnce | Human-Analytics-Tracker/src/util/recorder.py:121-128 | a tick that raises nothing calls `update` exactly once for each registered hotkey in Update, and never for one in Begin or End or for an unregistered one |
| Lifecycle.TickFollowsRegistrationOrder | Human-Analytics-Tracker/src/util/recorder.py:125-128 | a tick calls `update` in registration order, whether it completes or raises part way |
| Lifecycle.RunKeepsRegistrationOrder | Human-Analytics-Tracker/src/util/recorder.py:121-128 | after any run, a tick still visits the hotkeys in the order they were registered in |
| Lifecycle.DuplicateKeepsFirstBinding | Human-Analytics-Tracker/src/util/recorder.py:74-75 | a second registration of the same hotkey returns False and changes nothing; the first callback stays bound, and the next activation calls its `begin` |
| Lifecycle.SingleActivate | Human-Analytics-Tracker/src/util/recorder.py:88-103 | with one hotkey registered, an activation moves its generator one suspension point on, sets the phase that point leaves behind, and calls `begin` or `end` according to the point it resumed from |
| Lifecycle.SingleTick | Human-Analytics-Tracker/src/util/recorder.py:121-128 | with one hotkey registered that overrides `update`, a tick leaves the recorder as it is and calls `update` with the packet exactly when the hotkey is in Update |
| Lifecycle.HotkeyScenario | Human-Analytics-Tracker/src/util/recorder.py:77-128 | for activate, tick, tick, activate, tick: the calls are `begin`, two updates with their packets, then `end`; the last tick calls nothing; the phase is End |
| Lifecycle.BaseUpdateRaisesScenario | Human-Analytics-Tracker/src/util/recorder.py:37-41 | with a plain `GenericCallback`, an activation calls `begin`, and the next tick raises NotImplementedError without calling anything else |
| Lifecycle.RaisingTickKeepsListening | Human-Analytics-Tracker/src/util/recorder.py:121-128 | with "a" bound to a plain `GenericCallback` and "b" to an override: activate "a", tick, activate "b" gives `begin` of "a", then the tick raises NotImplementedError for "a", then `begin` of "b" |

## Left out

- `start` (lines 108-118) is not modelled. It hands `mapping` to pynput's
  global hotkey listener on a background thread, and the `started` and `ghk`
  fields exist only for it. The model takes each activation as an input
  event instead. It does not model concurrency between that listener thread
  and `update`.
- The coloured console messages printed before each `begin` and `end` call
  (lines 80 and 84) are not modelled: they are output only.
- A packet is represented only by its frame number. The contents of a
  `GameTickPacket`, and what a callback does with it, are not modelled.
- The bodies of user-written `begin`, `end` and `update` overrides are not
  modelled. Only whether `update` is overridden is modelled. An override of
  `begin` or `end` that raises, which would end the hotkey's generator, is
  outside the model.
- Callbacks.CallHook: states only what the base class's hooks do, and
  whether `update` is overridden. It says nothing about what an override of
  `begin`, `end` or `update` does, which is out of scope.
- Recorder.Activate: steps the phase with the cyclic step `Advance`, not with
  `IAddAsWritten`. `IAddOneIsAdvance` proves the two agree for the `+= 1`
  the generator uses.
- Recorder.Replay: a run reports only the first exception raised in it.
  Later exceptions are not listed, but the run goes on past every one of
  them, and the calls made after them are recorded.

## Findings

| source | as written | input that shows it | evidently intended | confidence | as-written member | corrected member |
|---|---|---|---|---|---|---|
| Human-Analytics-Tracker/src/util/recorder.py:16-22 | a sum past `Max` is folded back with `(next % Max) - 1` | `End += 2`: the sum 4 folds to -1, which raises ValueError; `Begin += 5` folds to Begin instead of End | wrap around the three phases: the value of `(next) % 3` | not executed; the recorder itself only ever adds 1, which the fold handles correctly | CallbackState.IAddAsWritten | CallbackState.Add |
