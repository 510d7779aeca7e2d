/**
 The callback base class (`GenericCallback`). A callback has a name and three
 hooks: `begin` and `end` have no-op defaults that always return, while the
 default `update` raises NotImplementedError, so a subclass must override it.
 What an overriding hook does is outside the model; only whether `update` is
 overridden changes what the recorder sees.
 */
module Callbacks {

  /** Whether a callback class overrides `update` or inherits the base one. */
  datatype UpdateImpl = Inherited | Overridden

  datatype GenericCallback = GenericCallback(name: string, update: UpdateImpl)

  /** How a hook call ends: it returns, or it raises NotImplementedError. */
  datatype Outcome = Returned | NotImplemented

  /** The three hooks the recorder calls. */
  datatype Hook = BeginHook | UpdateHook | EndHook

  /** The base class itself, as `GenericCallback(name)` constructs it. */
  function Base(name: string): (cb: GenericCallback)
    ensures cb.name == name
    ensures CallHook(cb, UpdateHook) == NotImplemented
    ensures CallHook(cb, BeginHook) == Returned && CallHook(cb, EndHook) == Returned
  {
    GenericCallback(name, Inherited)
  }

  /** Calling a hook: `begin` and `end` default to no-ops that return, and
      only an `update` that is not overridden raises NotImplementedError. */
  function CallHook(cb: GenericCallback, hook: Hook): (o: Outcome)
    ensures o == NotImplemented <==> hook == UpdateHook && cb.update == Inherited
  {
    match hook
    case BeginHook => Returned
    case EndHook => Returned
    case UpdateHook =>
      match cb.update
      case Overridden => Returned
      case Inherited => NotImplemented
  }
}
