/**
 `SimpleRecorder`: a registry from hotkey strings to callbacks that drives
 each callback through begin, a run of per-tick updates, and end.

 In the source each registered hotkey is bound to a generator that, resumed
 once per hotkey activation, alternately steps the hotkey's phase and calls
 `begin`, then steps it again and calls `end`, then resets the phase to Begin
 and starts over. Here the suspended generator is replaced by the point it is
 suspended at (`Resume`), and every operation is a pure function returning
 the new recorder together with the callback calls it made.

 The recorder's three dictionaries (`mapping`, `update_func`, `states`) are
 always written together under the same key, so they share their keys and
 their insertion order. They are modelled as one list of entries in
 insertion order, which is also the order `update` visits them in.
 */
module Recorder {
  import opened CallbackState
  import opened Callbacks

  /** A hotkey combination such as "<ctrl>+h", compared as an exact string. */
  type Hotkey = string

  /** Where a hotkey's generator is suspended: not yet started, just after
      yielding `begin`, or just after yielding `end`. */
  datatype Resume = NotStarted | AfterBegin | AfterEnd

  /** The activation handler bound to a hotkey in `mapping`: the generator,
      which closes over the registered callback. */
  datatype Handler = Handler(callback: GenericCallback, resume: Resume)

  /** One key of the dictionaries with its value in each: `mapping[key]`,
      `update_func[key]` and `states[key]`. */
  datatype Entry = Entry(key: Hotkey, handler: Handler, updateFunc: GenericCallback, state: Phase)

  datatype Recorder = Recorder(entries: seq<Entry>)

  /** A game tick packet, told apart by its frame number. What it carries
      about the game is not modelled. */
  datatype Packet = Packet(frame: int)

  /** One callback call made by the recorder, with the hotkey that caused it
      and the callback's name. */
  datatype Call =
    | Began(key: Hotkey, name: string)
    | Updated(key: Hotkey, name: string, packet: Packet)
    | Ended(key: Hotkey, name: string)

  /** The exceptions the recorder's operations can raise. */
  datatype Error = KeyError(key: Hotkey) | NotImplementedError(key: Hotkey)

  datatype Status = Completed | Raised(error: Error)

  /** The result of an activation or a tick: the recorder afterwards, the
      calls made in order, and whether the operation raised. */
  datatype Step = Step(recorder: Recorder, calls: seq<Call>, status: Status)

  /** The result of `register`: the recorder afterwards and the boolean the
      source returns. */
  datatype Registration = Registration(recorder: Recorder, registered: bool)

  /** The phase the generator has left behind at each suspension point. */
  function PhaseAt(res: Resume): Phase
  {
    match res
    case NotStarted => Begin
    case AfterBegin => Update
    case AfterEnd => End
  }

  /** Whether the next activation calls `begin` (otherwise it calls `end`). */
  predicate NextIsBegin(res: Resume)
  {
    res != AfterBegin
  }

  /** The suspension point after one more activation. */
  function NextResume(res: Resume): Resume
  {
    if NextIsBegin(res) then AfterBegin else AfterEnd
  }

  /** The keys of the entries, in insertion order. */
  function Keys(es: seq<Entry>): seq<Hotkey>
  {
    if es == [] then [] else [es[0].key] + Keys(es[1..])
  }

  lemma {:induction false} KeysAt(es: seq<Entry>)
    ensures |Keys(es)| == |es|
    ensures forall i :: 0 <= i < |es| ==> Keys(es)[i] == es[i].key
  {
    if es != [] {
      KeysAt(es[1..]);
    }
  }

  /** The hotkeys of the calls, in the order made. */
  function CallKeys(calls: seq<Call>): seq<Hotkey>
  {
    if calls == [] then [] else [calls[0].key] + CallKeys(calls[1..])
  }

  lemma {:induction false} CallKeysAt(calls: seq<Call>)
    ensures |CallKeys(calls)| == |calls|
    ensures forall i :: 0 <= i < |calls| ==> CallKeys(calls)[i] == calls[i].key
  {
    if calls != [] {
      CallKeysAt(calls[1..]);
    }
  }

  /** `a` is `b` with some elements left out: what remains keeps its order. */
  predicate Subsequence<T(==)>(a: seq<T>, b: seq<T>)
  {
    if b == [] then a == []
    else Subsequence(a, b[1..]) || (a != [] && a[0] == b[0] && Subsequence(a[1..], b[1..]))
  }

  /** `key in self.mapping`. */
  predicate Registered(es: seq<Entry>, key: Hotkey)
  {
    es != [] && (es[0].key == key || Registered(es[1..], key))
  }

  /** A hotkey is registered exactly when it is one of the entries' keys. */
  lemma {:induction false} RegisteredIffListed(es: seq<Entry>, key: Hotkey)
    ensures Registered(es, key) <==> key in Keys(es)
  {
    if es != [] {
      RegisteredIffListed(es[1..], key);
    }
  }

  /** The values stored under `key`. */
  function Lookup(es: seq<Entry>, key: Hotkey): (e: Entry)
    requires Registered(es, key)
    ensures e.key == key
    ensures WellFormed(es) ==> EntryOk(e)
  {
    if es[0].key == key then es[0] else Lookup(es[1..], key)
  }

  /** What holds of one key's values: its update function is the callback
      its generator calls, and its phase is the one the generator left
      behind. */
  predicate EntryOk(e: Entry)
  {
    e.updateFunc == e.handler.callback && e.state == PhaseAt(e.handler.resume)
  }

  /** What the recorder maintains: no key twice, every entry consistent. */
  ghost predicate WellFormed(es: seq<Entry>)
  {
    es == [] || (!Registered(es[1..], es[0].key) && EntryOk(es[0]) && WellFormed(es[1..]))
  }

  ghost predicate Valid(r: Recorder)
  {
    WellFormed(r.entries)
  }

  /** Hotkey k, where registered in `a`, is registered in `b` with the same
      values. */
  ghost predicate SameEntry(a: Recorder, b: Recorder, k: Hotkey)
  {
    Registered(a.entries, k) ==> Registered(b.entries, k) && Lookup(b.entries, k) == Lookup(a.entries, k)
  }

  lemma {:induction false} AppendEntry(es: seq<Entry>, e: Entry, k: Hotkey)
    ensures Registered(es + [e], k) <==> Registered(es, k) || k == e.key
    ensures Registered(es, k) ==> Lookup(es + [e], k) == Lookup(es, k)
    ensures !Registered(es, k) && k == e.key ==> Lookup(es + [e], k) == e
  {
    if es == [] {
      assert es + [e] == [e] && [e][1..] == [];
    } else {
      assert (es + [e])[0] == es[0] && (es + [e])[1..] == es[1..] + [e];
      AppendEntry(es[1..], e, k);
    }
  }

  lemma {:induction false} AppendWellFormed(es: seq<Entry>, e: Entry)
    requires WellFormed(es) && EntryOk(e) && !Registered(es, e.key)
    ensures WellFormed(es + [e])
  {
    if es == [] {
      assert es + [e] == [e] && [e][1..] == [];
    } else {
      assert (es + [e])[0] == es[0] && (es + [e])[1..] == es[1..] + [e];
      AppendEntry(es[1..], e, es[0].key);
      AppendWellFormed(es[1..], e);
    }
  }

  lemma AppendAll(es: seq<Entry>, e: Entry)
    requires !Registered(es, e.key)
    ensures Registered(es + [e], e.key) && Lookup(es + [e], e.key) == e
    ensures forall k :: k != e.key ==> (Registered(es + [e], k) <==> Registered(es, k))
    ensures forall k :: SameEntry(Recorder(es), Recorder(es + [e]), k)
  {
    AppendEntry(es, e, e.key);
    forall k
      ensures (k != e.key ==> (Registered(es + [e], k) <==> Registered(es, k)))
        && SameEntry(Recorder(es), Recorder(es + [e]), k)
    {
      AppendEntry(es, e, k);
    }
  }

  /** The entries with the values under `key` replaced by `e`. */
  function Replace(es: seq<Entry>, key: Hotkey, e: Entry): (es': seq<Entry>)
    requires Registered(es, key) && e.key == key
    ensures |es'| == |es|
    ensures Keys(es') == Keys(es)
  {
    if es[0].key == key then [e] + es[1..] else [es[0]] + Replace(es[1..], key, e)
  }

  lemma {:induction false} ReplaceEntry(es: seq<Entry>, key: Hotkey, e: Entry, k: Hotkey)
    requires Registered(es, key) && e.key == key
    ensures Registered(Replace(es, key, e), k) <==> Registered(es, k)
    ensures Registered(es, k) ==> Lookup(Replace(es, key, e), k) == if k == key then e else Lookup(es, k)
  {
    var es' := Replace(es, key, e);
    assert es'[1..] == if es[0].key == key then es[1..] else Replace(es[1..], key, e);
    if es[0].key != key {
      ReplaceEntry(es[1..], key, e, k);
    }
  }

  lemma {:induction false} ReplaceWellFormed(es: seq<Entry>, key: Hotkey, e: Entry)
    requires WellFormed(es) && Registered(es, key) && e.key == key && EntryOk(e)
    ensures WellFormed(Replace(es, key, e))
  {
    var es' := Replace(es, key, e);
    if es[0].key == key {
      assert es'[1..] == es[1..];
    } else {
      assert es'[1..] == Replace(es[1..], key, e);
      ReplaceEntry(es[1..], key, e, es[0].key);
      ReplaceWellFormed(es[1..], key, e);
    }
  }

  /** Replacing the values under `key` leaves every other key as it was. */
  lemma ReplaceFrame(r: Recorder, key: Hotkey, e: Entry)
    requires Registered(r.entries, key) && e.key == key
    ensures Registered(Replace(r.entries, key, e), key)
    ensures Lookup(Replace(r.entries, key, e), key) == e
    ensures forall k :: k != key ==> SameEntry(r, Recorder(Replace(r.entries, key, e)), k)
    ensures forall k :: Registered(Replace(r.entries, key, e), k) <==> Registered(r.entries, k)
  {
    forall k
      ensures (k != key ==> SameEntry(r, Recorder(Replace(r.entries, key, e)), k))
        && (Registered(Replace(r.entries, key, e), k) <==> Registered(r.entries, k))
    {
      ReplaceEntry(r.entries, key, e, k);
    }
    ReplaceEntry(r.entries, key, e, key);
  }

  lemma {:induction false} KeysAppend(es: seq<Entry>, e: Entry)
    ensures Keys(es + [e]) == Keys(es) + [e.key]
  {
    if es == [] {
      assert es + [e] == [e];
    } else {
      assert (es + [e])[1..] == es[1..] + [e];
      KeysAppend(es[1..], e);
    }
  }

  /** `SimpleRecorder()`: nothing registered. */
  function Init(): (r: Recorder)
    ensures Valid(r)
    ensures forall k :: !Registered(r.entries, k)
  {
    Recorder([])
  }

  /** `register(sequence, callback)`. A hotkey already present is refused
      and nothing changes; a new one is added last, bound to a fresh
      generator over the callback, with the callback's update function and
      the phase Begin. */
  function Register(r: Recorder, key: Hotkey, cb: GenericCallback): (res: Registration)
    requires Valid(r)
    ensures Valid(res.recorder)
    ensures res.registered <==> !Registered(r.entries, key)
    ensures !res.registered ==> res.recorder == r
    ensures Registered(res.recorder.entries, key)
    ensures res.registered ==>
      && res.recorder.entries == r.entries + [Lookup(res.recorder.entries, key)]
      && Lookup(res.recorder.entries, key) == Entry(key, Handler(cb, NotStarted), cb, Begin)
    ensures forall k :: k != key ==> (Registered(res.recorder.entries, k) <==> Registered(r.entries, k))
    ensures forall k :: SameEntry(r, res.recorder, k)
    ensures Keys(res.recorder.entries) == Keys(r.entries) + if res.registered then [key] else []
  {
    if Registered(r.entries, key) then
      Registration(r, false)
    else
      var e := Entry(key, Handler(cb, NotStarted), cb, Begin);
      AppendWellFormed(r.entries, e);
      AppendAll(r.entries, e);
      KeysAppend(r.entries, e);
      Registration(Recorder(r.entries + [e]), true)
  }

  /** One activation of `key`, i.e. calling `mapping[key]()`, which resumes
      the hotkey's generator. From the start it steps the phase (Begin to
      Update) and calls `begin`; after a `begin` it steps the phase (Update
      to End) and calls `end`; after an `end` it first resets the phase to
      Begin and then proceeds as from the start. An unregistered hotkey
      raises KeyError. No other hotkey is touched. */
  function Activate(r: Recorder, key: Hotkey): (s: Step)
    requires Valid(r)
    ensures Valid(s.recorder)
    ensures !Registered(r.entries, key) ==> s == Step(r, [], Raised(KeyError(key)))
    ensures Registered(r.entries, key) ==>
      var h := Lookup(r.entries, key).handler;
      && s.status == Completed
      && Registered(s.recorder.entries, key)
      && Lookup(s.recorder.entries, key).handler == Handler(h.callback, NextResume(h.resume))
      && Lookup(s.recorder.entries, key).updateFunc == h.callback
      && (NextIsBegin(h.resume) ==>
            s.calls == [Began(key, h.callback.name)] && Lookup(s.recorder.entries, key).state == Update)
      && (!NextIsBegin(h.resume) ==>
            s.calls == [Ended(key, h.callback.name)] && Lookup(s.recorder.entries, key).state == End)
    ensures forall k :: k != key ==> SameEntry(r, s.recorder, k)
    ensures forall k :: Registered(s.recorder.entries, k) <==> Registered(r.entries, k)
    ensures Keys(s.recorder.entries) == Keys(r.entries)
  {
    if !Registered(r.entries, key) then
      Step(r, [], Raised(KeyError(key)))
    else
      var e := Lookup(r.entries, key);
      var cb := e.handler.callback;
      match e.handler.resume
      case NotStarted =>
        Resumed(r, key, Handler(cb, AfterBegin), Advance(e.state), Began(key, cb.name))
      case AfterBegin =>
        Resumed(r, key, Handler(cb, AfterEnd), Advance(e.state), Ended(key, cb.name))
      case AfterEnd =>
        var reset := Begin;
        Resumed(r, key, Handler(cb, AfterBegin), Advance(reset), Began(key, cb.name))
  }

  /** The generator of `key` suspended again at `h` with phase `p`, having
      made the single call `c`. The recorder stays valid when the phase is
      the one the new suspension point leaves behind. */
  function Resumed(r: Recorder, key: Hotkey, h: Handler, p: Phase, c: Call): (s: Step)
    requires Valid(r) && Registered(r.entries, key)
    requires h.callback == Lookup(r.entries, key).handler.callback && p == PhaseAt(h.resume)
    ensures Valid(s.recorder)
    ensures Registered(s.recorder.entries, key)
    ensures Lookup(s.recorder.entries, key) == Entry(key, h, h.callback, p)
    ensures forall k :: k != key ==> SameEntry(r, s.recorder, k)
    ensures forall k :: Registered(s.recorder.entries, k) <==> Registered(r.entries, k)
    ensures Keys(s.recorder.entries) == Keys(r.entries)
  {
    var e := Entry(key, h, Lookup(r.entries, key).updateFunc, p);
    ReplaceWellFormed(r.entries, key, e);
    ReplaceFrame(r, key, e);
    Step(Recorder(Replace(r.entries, key, e)), [c], Completed)
  }

  /** The entries in phase Update, in the same order. */
  function InUpdate(es: seq<Entry>): (a: seq<Entry>)
    ensures |a| <= |es|
    ensures forall i :: 0 <= i < |a| ==> a[i].state == Update && a[i] in es
    ensures forall e :: e in es && e.state == Update ==> e in a
    ensures Subsequence(Keys(a), Keys(es))
  {
    if es == [] then []
    else
      var rest := InUpdate(es[1..]);
      assert forall e :: e in es ==> e == es[0] || e in es[1..];
      assert ([es[0]] + rest)[1..] == rest;
      if es[0].state == Update then [es[0]] + rest else rest
  }

  /** `calls` and `status` are what calling the update functions of `a` in
      order produces: a prefix of `a` whose update functions are overridden
      has been called with the packet, and either all of `a` was, or the next
      one raised because it inherits the base `update`. */
  ghost predicate DispatchedOver(a: seq<Entry>, packet: Packet, calls: seq<Call>, status: Status)
  {
    && |calls| <= |a|
    && (forall i :: 0 <= i < |calls| ==>
          && calls[i] == Updated(a[i].key, a[i].updateFunc.name, packet)
          && a[i].updateFunc.update == Overridden)
    && (status == Completed <==> |calls| == |a|)
    && (status.Raised? ==>
          && |calls| < |a|
          && status.error == NotImplementedError(a[|calls|].key)
          && a[|calls|].updateFunc.update == Inherited)
  }

  /** The loop of `update(packet)` over the entries `es`: each one in
      Update has its update function called with the packet, in order; the
      first inherited (not overridden) `update` raises NotImplementedError,
      which ends the loop with the calls made before it. Entries in Begin or
      End are skipped. */
  function Dispatch(r: Recorder, es: seq<Entry>, packet: Packet): (s: Step)
    ensures s.recorder == r
    ensures DispatchedOver(InUpdate(es), packet, s.calls, s.status)
  {
    if es == [] then
      Step(r, [], Completed)
    else
      var e := es[0];
      if e.state != Update then
        Dispatch(r, es[1..], packet)
      else if CallHook(e.updateFunc, UpdateHook) == NotImplemented then
        Step(r, [], Raised(NotImplementedError(e.key)))
      else
        var rest := Dispatch(r, es[1..], packet);
        DispatchedCons(e, InUpdate(es[1..]), packet, rest.calls, rest.status);
        Step(r, [Updated(e.key, e.updateFunc.name, packet)] + rest.calls, rest.status)
  }

  /** A successful update call in front of a dispatch. */
  lemma DispatchedCons(e: Entry, a: seq<Entry>, packet: Packet, calls: seq<Call>, status: Status)
    requires DispatchedOver(a, packet, calls, status)
    requires e.updateFunc.update == Overridden
    ensures DispatchedOver([e] + a, packet, [Updated(e.key, e.updateFunc.name, packet)] + calls, status)
  {
  }

  /** In a well-formed list, the values found under a key are the entry
      with that key, and every key of the list is found. */
  lemma {:induction false} LookupInList(es: seq<Entry>)
    requires WellFormed(es)
    ensures forall e :: e in es ==> Registered(es, e.key) && Lookup(es, e.key) == e
    ensures forall k :: Registered(es, k) ==> Lookup(es, k) in es
  {
    if es != [] {
      LookupInList(es[1..]);
      assert forall e :: e in es ==> e == es[0] || e in es[1..];
    }
  }

  /** `update(packet)`, called once per game tick: registered hotkeys in
      Update, and no others, have their update functions called with the
      packet, in registration order, unless one of them inherits the base
      `update`, which raises. The recorder is left unchanged. */
  function Tick(r: Recorder, packet: Packet): (s: Step)
    requires Valid(r)
    ensures s.recorder == r
    ensures forall i :: 0 <= i < |s.calls| ==>
      && s.calls[i].Updated?
      && s.calls[i].packet == packet
      && Registered(r.entries, s.calls[i].key)
      && Lookup(r.entries, s.calls[i].key).state == Update
      && s.calls[i].name == Lookup(r.entries, s.calls[i].key).updateFunc.name
    ensures |s.calls| <= |InUpdate(r.entries)| && CallKeys(s.calls) == Keys(InUpdate(r.entries)[..|s.calls|])
    ensures s.status == Completed <==>
      forall k :: Registered(r.entries, k) && Lookup(r.entries, k).state == Update ==>
        Lookup(r.entries, k).updateFunc.update == Overridden
    ensures s.status.Raised? ==>
      var k := s.status.error.key;
      && s.status.error.NotImplementedError?
      && Registered(r.entries, k)
      && Lookup(r.entries, k).state == Update
      && Lookup(r.entries, k).updateFunc.update == Inherited
  {
    LookupInList(r.entries);
    var s := Dispatch(r, r.entries, packet);
    DispatchCompletes(r.entries, packet, s.calls, s.status);
    KeysAt(InUpdate(r.entries)[..|s.calls|]);
    CallKeysAt(s.calls);
    s
  }

  /** A dispatch over the entries in Update completes exactly when every
      registered hotkey in Update overrides `update`. */
  lemma DispatchCompletes(es: seq<Entry>, packet: Packet, calls: seq<Call>, status: Status)
    requires WellFormed(es)
    requires DispatchedOver(InUpdate(es), packet, calls, status)
    ensures status == Completed <==>
      forall k :: Registered(es, k) && Lookup(es, k).state == Update ==>
        Lookup(es, k).updateFunc.update == Overridden
  {
    if status == Completed {
      forall k | Registered(es, k) && Lookup(es, k).state == Update
        ensures Lookup(es, k).updateFunc.update == Overridden
      {
        CompletedCovers(es, packet, calls, k);
      }
    } else {
      RaisedWitness(es, packet, calls, status);
    }
  }

  lemma CompletedCovers(es: seq<Entry>, packet: Packet, calls: seq<Call>, k: Hotkey)
    requires WellFormed(es)
    requires DispatchedOver(InUpdate(es), packet, calls, Completed)
    requires Registered(es, k) && Lookup(es, k).state == Update
    ensures Lookup(es, k).updateFunc.update == Overridden
  {
    LookupInList(es);
    var a := InUpdate(es);
    var e := Lookup(es, k);
    assert e in a;
    var i :| 0 <= i < |a| && a[i] == e;
    assert i < |calls|;
  }

  lemma {:induction false} RaisedWitness(es: seq<Entry>, packet: Packet, calls: seq<Call>, status: Status)
    requires WellFormed(es)
    requires DispatchedOver(InUpdate(es), packet, calls, status)
    requires status.Raised?
    ensures var k := status.error.key;
      && Registered(es, k) && Lookup(es, k).state == Update
      && Lookup(es, k).updateFunc.update == Inherited
  {
    LookupInList(es);
    var a := InUpdate(es);
    var e := a[|calls|];
    assert e in es;
  }

  /** An input to the recorder: an activation of a hotkey, delivered by the
      keyboard listener, or a game tick carrying a packet. */
  datatype Event = Pressed(key: Hotkey) | GameTick(packet: Packet)

  /** One event. An event that raises leaves the recorder as it was: an
      activation of an unregistered hotkey fails before anything changes,
      and `update` changes no state. */
  function Apply(r: Recorder, e: Event): (s: Step)
    requires Valid(r)
    ensures Valid(s.recorder)
    ensures forall k :: Registered(s.recorder.entries, k) <==> Registered(r.entries, k)
    ensures s.status.Raised? ==> s.recorder == r
  {
    match e
    case Pressed(k) => Activate(r, k)
    case GameTick(p) => Tick(r, p)
  }

  /** Feeding events one at a time. Activations arrive from the keyboard
      listener's thread and ticks from the game loop, so an exception raised
      by one event does not stop the ones after it; the run reports the
      first exception raised, if any. */
  function Replay(r: Recorder, events: seq<Event>): (s: Step)
    requires Valid(r)
    ensures Valid(s.recorder)
    ensures forall k :: Registered(s.recorder.entries, k) <==> Registered(r.entries, k)
    decreases |events|
  {
    if events == [] then
      Step(r, [], Completed)
    else
      var first := Apply(r, events[0]);
      Then(first, Replay(first.recorder, events[1..]))
  }

  /** Activations and ticks never reorder the hotkeys: over any run, the
      entries keep the order they were registered in. */
  lemma {:induction false} ReplayKeepsOrder(r: Recorder, events: seq<Event>)
    requires Valid(r)
    ensures Keys(Replay(r, events).recorder.entries) == Keys(r.entries)
    decreases |events|
  {
    if events != [] {
      var first := Apply(r, events[0]);
      assert Keys(first.recorder.entries) == Keys(r.entries);
      ReplayKeepsOrder(first.recorder, events[1..]);
    }
  }

  /** `first` followed by `rest`: the calls of both, in order, ending where
      `rest` ends, with the first exception of the two. */
  function Then(first: Step, rest: Step): Step
  {
    Step(rest.recorder, first.calls + rest.calls, if first.status.Raised? then first.status else rest.status)
  }
}
