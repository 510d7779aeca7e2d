/**
 Properties of the recorder over runs of events: begin and end alternate on
 successive activations of a hotkey, the phase after n activations, the
 independence of different hotkeys, and exactly-once update dispatch in
 registration order.
 */
module Lifecycle {
  import opened CallbackState
  import opened Callbacks
  import opened Recorder

  /** n begin/end calls of one callback in strict alternation, the first of
      them a `begin` when `beginFirst` holds and an `end` otherwise. */
  function Alternation(key: Hotkey, name: string, n: nat, beginFirst: bool): seq<Call>
  {
    if n == 0 then []
    else
      var first := if beginFirst then Began(key, name) else Ended(key, name);
      [first] + Alternation(key, name, n - 1, !beginFirst)
  }

  /** The generator's suspension point after n more activations. */
  function ResumeAfter(res: Resume, n: nat): Resume
    decreases n
  {
    if n == 0 then res else ResumeAfter(NextResume(res), n - 1)
  }

  /** The number of activations of `key` among `events`. */
  function PressCount(events: seq<Event>, key: Hotkey): nat
  {
    if events == [] then 0
    else (if events[0] == Pressed(key) then 1 else 0) + PressCount(events[1..], key)
  }

  /** The `begin` and `end` calls made for `key`, in order. */
  function Hooks(calls: seq<Call>, key: Hotkey): seq<Call>
  {
    if calls == [] then []
    else if !calls[0].Updated? && calls[0].key == key then [calls[0]] + Hooks(calls[1..], key)
    else Hooks(calls[1..], key)
  }

  function CountBegan(calls: seq<Call>): nat
  {
    if calls == [] then 0 else (if calls[0].Began? then 1 else 0) + CountBegan(calls[1..])
  }

  function CountEnded(calls: seq<Call>): nat
  {
    if calls == [] then 0 else (if calls[0].Ended? then 1 else 0) + CountEnded(calls[1..])
  }

  /** The number of `update` calls made for `key`. */
  function CountUpdated(calls: seq<Call>, key: Hotkey): nat
  {
    if calls == [] then 0
    else (if calls[0].Updated? && calls[0].key == key then 1 else 0) + CountUpdated(calls[1..], key)
  }

  /** Position by position, an alternation starting with `begin` has `begin`
      at the even positions and `end` at the odd ones. */
  lemma {:induction false} AlternationAt(key: Hotkey, name: string, n: nat, beginFirst: bool)
    ensures |Alternation(key, name, n, beginFirst)| == n
    ensures forall i :: 0 <= i < n ==>
      Alternation(key, name, n, beginFirst)[i]
        == (if (i % 2 == 0) == beginFirst then Began(key, name) else Ended(key, name))
  {
    if n > 0 {
      AlternationAt(key, name, n - 1, !beginFirst);
      var a := Alternation(key, name, n, beginFirst);
      var tail := Alternation(key, name, n - 1, !beginFirst);
      assert a[1..] == tail;
      forall i | 1 <= i < n
        ensures a[i] == (if (i % 2 == 0) == beginFirst then Began(key, name) else Ended(key, name))
      {
        assert a[i] == tail[i - 1];
        assert (i % 2 == 0) == ((i - 1) % 2 != 0);
      }
    }
  }

  /** Of n alternating calls starting with `begin`, ceil(n/2) are `begin`
      and floor(n/2) are `end`; starting with `end` it is the other way. */
  lemma {:induction false} AlternationCounts(key: Hotkey, name: string, n: nat, beginFirst: bool)
    ensures CountBegan(Alternation(key, name, n, beginFirst)) == if beginFirst then (n + 1) / 2 else n / 2
    ensures CountEnded(Alternation(key, name, n, beginFirst)) == if beginFirst then n / 2 else (n + 1) / 2
  {
    if n > 0 {
      AlternationCounts(key, name, n - 1, !beginFirst);
      var a := Alternation(key, name, n, beginFirst);
      assert a[1..] == Alternation(key, name, n - 1, !beginFirst);
    }
  }

  /** Closed form of the suspension point from a generator whose next
      activation calls `begin`: unchanged before the first activation, after
      a `begin` for an odd count, and after an `end` for an even one. */
  lemma {:induction false} ResumeAfterClosedForm(res: Resume, n: nat)
    requires NextIsBegin(res)
    ensures ResumeAfter(res, n) == if n == 0 then res else if n % 2 == 1 then AfterBegin else AfterEnd
    decreases n
  {
    if n >= 2 {
      assert ResumeAfter(res, n) == ResumeAfter(AfterEnd, n - 2);
      ResumeAfterClosedForm(AfterEnd, n - 2);
    }
  }

  /** The second activation leaves the phase at End; only the third resets
      it to Begin, and steps it on to Update, in the same activation. */
  lemma EndStaysUntilNextActivation(r: Recorder, key: Hotkey)
    requires Valid(r) && Registered(r.entries, key) && Lookup(r.entries, key).handler.resume == AfterEnd
    ensures Lookup(r.entries, key).state == End
    ensures var s := Activate(r, key);
      && Lookup(s.recorder.entries, key).state == Update
      && s.calls == [Began(key, Lookup(r.entries, key).handler.callback.name)]
  {
  }

  lemma {:induction false} HooksAppend(a: seq<Call>, b: seq<Call>, key: Hotkey)
    ensures Hooks(a + b, key) == Hooks(a, key) + Hooks(b, key)
  {
    if a == [] {
      assert a + b == b;
    } else {
      assert (a + b)[0] == a[0] && (a + b)[1..] == a[1..] + b;
      HooksAppend(a[1..], b, key);
    }
  }

  lemma {:induction false} HooksOfUpdates(calls: seq<Call>, key: Hotkey)
    requires forall i :: 0 <= i < |calls| ==> calls[i].Updated?
    ensures Hooks(calls, key) == []
  {
    if calls != [] {
      HooksOfUpdates(calls[1..], key);
    }
  }

  /** One event, as seen by one hotkey: only its own activation moves its
      generator one step on and makes its own `begin` or `end` call. */
  lemma {:induction false} ApplyTracksPress(r: Recorder, e: Event, key: Hotkey)
    requires Valid(r) && Registered(r.entries, key)
    ensures var s := Apply(r, e);
      var h := Lookup(r.entries, key).handler;
      var c := if e == Pressed(key) then 1 else 0;
      && Registered(s.recorder.entries, key)
      && Lookup(s.recorder.entries, key).handler == Handler(h.callback, ResumeAfter(h.resume, c))
      && Hooks(s.calls, key) == Alternation(key, h.callback.name, c, NextIsBegin(h.resume))
  {
    var s := Apply(r, e);
    match e
    case GameTick(p) =>
      HooksOfUpdates(s.calls, key);
    case Pressed(k) =>
      if k != key {
        assert SameEntry(r, s.recorder, key);
        if s.calls != [] {
          assert Hooks(s.calls[1..], key) == [];
        }
      }
  }

  /** Over any run of activations and ticks, one hotkey's `begin`/`end`
      calls depend only on its own activations: they alternate, continuing
      where its generator was suspended, and its generator and phase end
      where that many activations take them. Ticks and other hotkeys'
      activations leave it alone. */
  lemma {:induction false} ReplayTracksPresses(r: Recorder, events: seq<Event>, key: Hotkey)
    requires Valid(r) && Registered(r.entries, key)
    ensures var s := Replay(r, events);
      var h := Lookup(r.entries, key).handler;
      var res := ResumeAfter(h.resume, PressCount(events, key));
      && Registered(s.recorder.entries, key)
      && Lookup(s.recorder.entries, key) == Entry(key, Handler(h.callback, res), h.callback, PhaseAt(res))
      && Hooks(s.calls, key) == Alternation(key, h.callback.name, PressCount(events, key), NextIsBegin(h.resume))
  {
    ReplayTracksEntry(r, events, key);
    ReplayTracksHooks(r, events, key);
  }

  lemma {:induction false} ReplayTracksEntry(r: Recorder, events: seq<Event>, key: Hotkey)
    requires Valid(r) && Registered(r.entries, key)
    ensures var s := Replay(r, events);
      var h := Lookup(r.entries, key).handler;
      var res := ResumeAfter(h.resume, PressCount(events, key));
      && Registered(s.recorder.entries, key)
      && Lookup(s.recorder.entries, key) == Entry(key, Handler(h.callback, res), h.callback, PhaseAt(res))
    decreases |events|
  {
    if events != [] {
      var h := Lookup(r.entries, key).handler;
      var first := Apply(r, events[0]);
      var c := if events[0] == Pressed(key) then 1 else 0;
      var m := PressCount(events[1..], key);
      assert PressCount(events, key) == c + m;
      assert Replay(r, events).recorder == Replay(first.recorder, events[1..]).recorder;
      ApplyTracksPress(r, events[0], key);
      ReplayTracksEntry(first.recorder, events[1..], key);
      AlternationStep(key, h.callback.name, h.resume, c, m);
    }
  }

  lemma {:induction false} ReplayTracksHooks(r: Recorder, events: seq<Event>, key: Hotkey)
    requires Valid(r) && Registered(r.entries, key)
    ensures var s := Replay(r, events);
      var h := Lookup(r.entries, key).handler;
      Hooks(s.calls, key) == Alternation(key, h.callback.name, PressCount(events, key), NextIsBegin(h.resume))
    decreases |events|
  {
    if events != [] {
      var h := Lookup(r.entries, key).handler;
      var first := Apply(r, events[0]);
      var c := if events[0] == Pressed(key) then 1 else 0;
      var m := PressCount(events[1..], key);
      assert PressCount(events, key) == c + m;
      var rest := Replay(first.recorder, events[1..]);
      assert Replay(r, events).calls == first.calls + rest.calls;
      ApplyTracksPress(r, events[0], key);
      ReplayTracksHooks(first.recorder, events[1..], key);
      HooksAppend(first.calls, rest.calls, key);
      AlternationStep(key, h.callback.name, h.resume, c, m);
    }
  }

  /** At most one activation followed by m more: the calls and the
      suspension point continue where the first left off. */
  lemma AlternationStep(key: Hotkey, name: string, res: Resume, c: nat, m: nat)
    requires c <= 1
    ensures ResumeAfter(ResumeAfter(res, c), m) == ResumeAfter(res, c + m)
    ensures Alternation(key, name, c, NextIsBegin(res))
        + Alternation(key, name, m, NextIsBegin(ResumeAfter(res, c)))
      == Alternation(key, name, c + m, NextIsBegin(res))
  {
    var b := NextIsBegin(res);
    if c == 0 {
      assert Alternation(key, name, 0, b) == [];
    } else {
      assert NextIsBegin(NextResume(res)) == !b;
      assert Alternation(key, name, 1, b) == [if b then Began(key, name) else Ended(key, name)];
    }
  }

  /** A freshly registered hotkey, over any run of activations and ticks,
      whatever other hotkeys' callbacks raise: its `begin` and `end` calls alternate strictly,
      starting with `begin`, ceil(n/2) of the one and floor(n/2) of the
      other for n activations of it; its phase is Begin only before the
      first activation, then Update after an odd count and End after an
      even one. */
  lemma FreshHotkeyLifecycle(r: Recorder, key: Hotkey, cb: GenericCallback, events: seq<Event>)
    requires Valid(r) && !Registered(r.entries, key)
    ensures var r1 := Register(r, key, cb).recorder;
      var s := Replay(r1, events);
      var n := PressCount(events, key);
      var hooks := Hooks(s.calls, key);
      && |hooks| == n
      && (forall i :: 0 <= i < n ==>
            hooks[i] == if i % 2 == 0 then Began(key, cb.name) else Ended(key, cb.name))
      && CountBegan(hooks) == (n + 1) / 2
      && CountEnded(hooks) == n / 2
      && Lookup(s.recorder.entries, key).state == (if n == 0 then Begin else if n % 2 == 1 then Update else End)
  {
    var r1 := Register(r, key, cb).recorder;
    var n := PressCount(events, key);
    ReplayTracksPresses(r1, events, key);
    AlternationAt(key, cb.name, n, true);
    AlternationCounts(key, cb.name, n, true);
    ResumeAfterClosedForm(NotStarted, n);
  }

  /** A hotkey never activated during a run keeps its binding and phase,
      and none of its callbacks' `begin`/`end` is called. */
  lemma {:induction false} UnpressedHotkeyUntouched(r: Recorder, events: seq<Event>, key: Hotkey)
    requires Valid(r) && Registered(r.entries, key) && PressCount(events, key) == 0
    ensures var s := Replay(r, events);
      SameEntry(r, s.recorder, key) && Hooks(s.calls, key) == []
  {
    ReplayTracksPresses(r, events, key);
  }

  /** Every event activates some registered hotkey. */
  ghost predicate OnlyRegisteredPresses(r: Recorder, events: seq<Event>)
  {
    forall i :: 0 <= i < |events| ==> events[i].Pressed? && Registered(r.entries, events[i].key)
  }

  /** Activations of registered hotkeys never raise; only a tick (through an
      inherited `update`) or an unregistered hotkey can. */
  lemma {:induction false} PressesNeverRaise(r: Recorder, events: seq<Event>)
    requires Valid(r) && OnlyRegisteredPresses(r, events)
    ensures Replay(r, events).status == Completed
    decreases |events|
  {
    if events != [] {
      var first := Apply(r, events[0]);
      assert OnlyRegisteredPresses(first.recorder, events[1..]) by {
        forall i | 0 <= i < |events[1..]|
          ensures events[1..][i].Pressed? && Registered(first.recorder.entries, events[1..][i].key)
        {
          assert events[1..][i] == events[i + 1];
        }
      }
      PressesNeverRaise(first.recorder, events[1..]);
    }
  }

  /** A dispatch over a list without repeated keys that raises nothing
      calls `update` once for each key in Update and for no other. */
  lemma {:induction false} DispatchCounts(r: Recorder, es: seq<Entry>, packet: Packet, k: Hotkey)
    requires WellFormed(es) && Dispatch(r, es, packet).status == Completed
    ensures CountUpdated(Dispatch(r, es, packet).calls, k)
      == if Registered(es, k) && Lookup(es, k).state == Update then 1 else 0
  {
    if es != [] {
      DispatchCounts(r, es[1..], packet, k);
      if es[0].state == Update {
        var calls := Dispatch(r, es, packet).calls;
        assert calls[1..] == Dispatch(r, es[1..], packet).calls;
      }
    }
  }

  /** A tick that raises nothing calls `update` exactly once for every
      registered hotkey in Update and never for one in Begin or End or for
      an unregistered one. */
  lemma TickUpdatesEachOnce(r: Recorder, packet: Packet, k: Hotkey)
    requires Valid(r) && Tick(r, packet).status == Completed
    ensures CountUpdated(Tick(r, packet).calls, k)
      == if Registered(r.entries, k) && Lookup(r.entries, k).state == Update then 1 else 0
  {
    DispatchCounts(r, r.entries, packet, k);
  }

  lemma {:induction false} EmptySubsequence<T>(b: seq<T>)
    ensures Subsequence([], b)
    decreases |b|
  {
    if b != [] {
      EmptySubsequence(b[1..]);
    }
  }

  /** Every prefix of a subsequence of `b` is a subsequence of `b`. */
  lemma {:induction false} SubsequencePrefix<T>(a: seq<T>, b: seq<T>, n: nat)
    requires Subsequence(a, b) && n <= |a|
    ensures Subsequence(a[..n], b)
    decreases |b|
  {
    if b == [] {
      assert a[..n] == [];
    } else if Subsequence(a, b[1..]) {
      SubsequencePrefix(a, b[1..], n);
    } else if n == 0 {
      assert a[..n] == [];
      EmptySubsequence(b);
    } else {
      assert a[..n][1..] == a[1..][..n - 1];
      SubsequencePrefix(a[1..], b[1..], n - 1);
    }
  }

  /** A tick calls `update` in registration order, whether it completes or
      raises part way. */
  lemma TickFollowsRegistrationOrder(r: Recorder, packet: Packet)
    requires Valid(r)
    ensures Subsequence(CallKeys(Tick(r, packet).calls), Keys(r.entries))
  {
    var a := InUpdate(r.entries);
    var n := |Tick(r, packet).calls|;
    KeysAt(a);
    KeysAt(a[..n]);
    assert Keys(a[..n]) == Keys(a)[..n];
    SubsequencePrefix(Keys(a), Keys(r.entries), n);
  }

  /** Activations and ticks never reorder the hotkeys: after any run, a tick
      still visits them in the order they were registered in. */
  lemma RunKeepsRegistrationOrder(r: Recorder, events: seq<Event>, packet: Packet)
    requires Valid(r)
    ensures var s := Replay(r, events);
      && Keys(s.recorder.entries) == Keys(r.entries)
      && Subsequence(CallKeys(Tick(s.recorder, packet).calls), Keys(r.entries))
  {
    ReplayKeepsOrder(r, events);
    TickFollowsRegistrationOrder(Replay(r, events).recorder, packet);
  }

  /** Registering a hotkey twice: the second registration is refused and the
      first callback stays bound, so the next activation calls its `begin`. */
  lemma DuplicateKeepsFirstBinding(r: Recorder, key: Hotkey, first: GenericCallback, second: GenericCallback)
    requires Valid(r) && !Registered(r.entries, key)
    ensures var r1 := Register(r, key, first);
      var r2 := Register(r1.recorder, key, second);
      && r1.registered && !r2.registered
      && r2.recorder == r1.recorder
      && Lookup(r2.recorder.entries, key).updateFunc == first
      && Activate(r2.recorder, key).calls == [Began(key, first.name)]
  {
  }

  /** A run whose first event raises nothing is that event's step followed
      by the run of the rest. */
  lemma ReplayCons(r: Recorder, e: Event, rest: seq<Event>, first: Step, tail: Step)
    requires Valid(r) && Apply(r, e) == first && first.status == Completed
    requires Replay(first.recorder, rest) == tail
    ensures Replay(r, [e] + rest) == Step(tail.recorder, first.calls + tail.calls, tail.status)
  {
  }

  /** A recorder holding the single hotkey of `e`. */
  function Single(e: Entry): Recorder
  {
    Recorder([e])
  }

  /** With a single hotkey registered, an activation moves its generator one
      step and makes one call. */
  lemma SingleActivate(e: Entry)
    requires EntryOk(e)
    ensures var cb := e.handler.callback;
      var res := NextResume(e.handler.resume);
      Apply(Single(e), Pressed(e.key))
        == Step(Single(Entry(e.key, Handler(cb, res), cb, PhaseAt(res))),
                [if NextIsBegin(e.handler.resume) then Began(e.key, cb.name) else Ended(e.key, cb.name)],
                Completed)
  {
  }

  /** With a single hotkey registered that overrides `update`, a tick calls
      it exactly when the hotkey is in Update. */
  lemma SingleTick(e: Entry, packet: Packet)
    requires EntryOk(e) && e.updateFunc.update == Overridden
    ensures Apply(Single(e), GameTick(packet))
      == Step(Single(e), if e.state == Update then [Updated(e.key, e.updateFunc.name, packet)] else [], Completed)
  {
  }

  /** The end of the "<ctrl>+h" run: the second activation calls `end`,
      and the tick after it calls nothing. */
  lemma HotkeyRunEnd(cb: GenericCallback, key: Hotkey)
    requires cb.update == Overridden
    ensures Replay(Single(Entry(key, Handler(cb, AfterBegin), cb, Update)), [Pressed(key), GameTick(Packet(3))])
      == Step(Single(Entry(key, Handler(cb, AfterEnd), cb, End)), [Ended(key, cb.name)], Completed)
  {
    var e1 := Entry(key, Handler(cb, AfterBegin), cb, Update);
    var e2 := Entry(key, Handler(cb, AfterEnd), cb, End);
    SingleActivate(e1);
    SingleTick(e2, Packet(3));
    ReplayCons(Single(e2), GameTick(Packet(3)), [], Step(Single(e2), [], Completed), Step(Single(e2), [], Completed));
    ReplayCons(Single(e1), Pressed(key), [GameTick(Packet(3))], Step(Single(e2), [Ended(key, cb.name)], Completed),
      Step(Single(e2), [], Completed));
  }

  /** The second tick in Update of the "<ctrl>+h" run, then its end. */
  lemma HotkeyRunSecondTick(cb: GenericCallback, key: Hotkey)
    requires cb.update == Overridden
    ensures Replay(Single(Entry(key, Handler(cb, AfterBegin), cb, Update)),
                   [GameTick(Packet(2)), Pressed(key), GameTick(Packet(3))])
      == Step(Single(Entry(key, Handler(cb, AfterEnd), cb, End)),
              [Updated(key, cb.name, Packet(2)), Ended(key, cb.name)], Completed)
  {
    var e1 := Entry(key, Handler(cb, AfterBegin), cb, Update);
    var e2 := Entry(key, Handler(cb, AfterEnd), cb, End);
    HotkeyRunEnd(cb, key);
    SingleTick(e1, Packet(2));
    ReplayCons(Single(e1), GameTick(Packet(2)), [Pressed(key), GameTick(Packet(3))],
      Step(Single(e1), [Updated(key, cb.name, Packet(2))], Completed),
      Step(Single(e2), [Ended(key, cb.name)], Completed));
  }

  /** The two ticks in Update of the "<ctrl>+h" run, then its end. */
  lemma HotkeyRunTicks(cb: GenericCallback, key: Hotkey)
    requires cb.update == Overridden
    ensures Replay(Single(Entry(key, Handler(cb, AfterBegin), cb, Update)),
                   [GameTick(Packet(1)), GameTick(Packet(2)), Pressed(key), GameTick(Packet(3))])
      == Step(Single(Entry(key, Handler(cb, AfterEnd), cb, End)),
              [Updated(key, cb.name, Packet(1)), Updated(key, cb.name, Packet(2)), Ended(key, cb.name)], Completed)
  {
    var e1 := Entry(key, Handler(cb, AfterBegin), cb, Update);
    var e2 := Entry(key, Handler(cb, AfterEnd), cb, End);
    HotkeyRunSecondTick(cb, key);
    SingleTick(e1, Packet(1));
    ReplayCons(Single(e1), GameTick(Packet(1)), [GameTick(Packet(2)), Pressed(key), GameTick(Packet(3))],
      Step(Single(e1), [Updated(key, cb.name, Packet(1))], Completed),
      Step(Single(e2), [Updated(key, cb.name, Packet(2)), Ended(key, cb.name)], Completed));
  }

  /** The run of the "<ctrl>+h" usage, from the freshly registered hotkey. */
  lemma HotkeyRun(cb: GenericCallback, key: Hotkey)
    requires cb.update == Overridden
    ensures Replay(Single(Entry(key, Handler(cb, NotStarted), cb, Begin)),
                   [Pressed(key), GameTick(Packet(1)), GameTick(Packet(2)), Pressed(key), GameTick(Packet(3))])
      == Step(Single(Entry(key, Handler(cb, AfterEnd), cb, End)),
              [Began(key, cb.name), Updated(key, cb.name, Packet(1)), Updated(key, cb.name, Packet(2)), Ended(key, cb.name)],
              Completed)
  {
    var e0 := Entry(key, Handler(cb, NotStarted), cb, Begin);
    var e1 := Entry(key, Handler(cb, AfterBegin), cb, Update);
    var e2 := Entry(key, Handler(cb, AfterEnd), cb, End);
    HotkeyRunTicks(cb, key);
    SingleActivate(e0);
    ReplayCons(Single(e0), Pressed(key), [GameTick(Packet(1)), GameTick(Packet(2)), Pressed(key), GameTick(Packet(3))],
      Step(Single(e1), [Began(key, cb.name)], Completed),
      Step(Single(e2), [Updated(key, cb.name, Packet(1)), Updated(key, cb.name, Packet(2)), Ended(key, cb.name)], Completed));
  }

  /** The "<ctrl>+h" usage: the first activation calls `begin` and no
      `update`; each tick until the next activation calls `update` with its
      packet; the second activation calls `end`, after which ticks call
      nothing and the phase stays End. */
  lemma HotkeyScenario()
    ensures var cb := GenericCallback("HelloWorld", Overridden);
      var r := Register(Init(), "<ctrl>+h", cb).recorder;
      var s := Replay(r, [Pressed("<ctrl>+h"), GameTick(Packet(1)), GameTick(Packet(2)),
                          Pressed("<ctrl>+h"), GameTick(Packet(3))]);
      && s.status == Completed
      && s.calls == [Began("<ctrl>+h", "HelloWorld"), Updated("<ctrl>+h", "HelloWorld", Packet(1)),
                     Updated("<ctrl>+h", "HelloWorld", Packet(2)), Ended("<ctrl>+h", "HelloWorld")]
      && Registered(s.recorder.entries, "<ctrl>+h")
      && Lookup(s.recorder.entries, "<ctrl>+h").state == End
  {
    var cb := GenericCallback("HelloWorld", Overridden);
    var key := "<ctrl>+h";
    assert Register(Init(), key, cb).recorder == Single(Entry(key, Handler(cb, NotStarted), cb, Begin)) by {
      assert [] + [Entry(key, Handler(cb, NotStarted), cb, Begin)] == [Entry(key, Handler(cb, NotStarted), cb, Begin)];
    }
    HotkeyRun(cb, key);
  }

  /** A callback that inherits the base `update`: its first tick in Update
      raises NotImplementedError after the `begin` call. */
  lemma BaseUpdateRaisesScenario()
    ensures var r := Register(Init(), "<ctrl>+i", Base("Plain")).recorder;
      var s := Replay(r, [Pressed("<ctrl>+i"), GameTick(Packet(7))]);
      && s.status == Raised(NotImplementedError("<ctrl>+i"))
      && s.calls == [Began("<ctrl>+i", "Plain")]
  {
  }

  /** A run is its first event's step followed by the run of the rest,
      whether or not the first event raised. */
  lemma ReplayUnfold(r: Recorder, e: Event, rest: seq<Event>)
    requires Valid(r)
    ensures Replay(r, [e] + rest) == Then(Apply(r, e), Replay(Apply(r, e).recorder, rest))
  {
    assert ([e] + rest)[0] == e && ([e] + rest)[1..] == rest;
  }

  /** Hotkey "a" bound to a plain `GenericCallback` and hotkey "b" to one
      that overrides `update`, with "a" at `resA` and "b" at `resB`. */
  function TwoHotkeys(resA: Resume, resB: Resume): Recorder
  {
    var a := Base("A");
    var b := GenericCallback("B", Overridden);
    Recorder([Entry("a", Handler(a, resA), a, PhaseAt(resA)), Entry("b", Handler(b, resB), b, PhaseAt(resB))])
  }

  lemma RegisterTwoHotkeys()
    ensures Register(Register(Init(), "a", Base("A")).recorder, "b", GenericCallback("B", Overridden)).recorder
      == TwoHotkeys(NotStarted, NotStarted)
  {
    var a := Base("A");
    var b := GenericCallback("B", Overridden);
    var ea := Entry("a", Handler(a, NotStarted), a, Begin);
    var eb := Entry("b", Handler(b, NotStarted), b, Begin);
    assert [] + [ea] == [ea] && [ea] + [eb] == [ea, eb];
  }

  /** The tick after "a" began raises: "a" inherits the base `update`. */
  lemma TwoHotkeysTickRaises(packet: Packet)
    ensures Apply(TwoHotkeys(AfterBegin, NotStarted), GameTick(packet))
      == Step(TwoHotkeys(AfterBegin, NotStarted), [], Raised(NotImplementedError("a")))
  {
  }

  /** A tick that raises for one hotkey does not stop another hotkey's
      activations: "a" inherits the base `update`, so the tick after its
      `begin` raises, and the activation of "b" after it still calls `begin`. */
  lemma RaisingTickKeepsListening()
    ensures var r := Register(Register(Init(), "a", Base("A")).recorder, "b", GenericCallback("B", Overridden)).recorder;
      var s := Replay(r, [Pressed("a"), GameTick(Packet(1)), Pressed("b")]);
      && s.status == Raised(NotImplementedError("a"))
      && s.calls == [Began("a", "A"), Began("b", "B")]
  {
    RegisterTwoHotkeys();
    var r0 := TwoHotkeys(NotStarted, NotStarted);
    var r1 := TwoHotkeys(AfterBegin, NotStarted);
    var r2 := TwoHotkeys(AfterBegin, AfterBegin);
    assert Apply(r0, Pressed("a")) == Step(r1, [Began("a", "A")], Completed);
    TwoHotkeysTickRaises(Packet(1));
    assert Apply(r1, Pressed("b")) == Step(r2, [Began("b", "B")], Completed);
    ReplayUnfold(r1, Pressed("b"), []);
    ReplayUnfold(r1, GameTick(Packet(1)), [Pressed("b")]);
    ReplayUnfold(r0, Pressed("a"), [GameTick(Packet(1)), Pressed("b")]);
  }
}
