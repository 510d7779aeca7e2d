/**
 The lifecycle phase of one registered hotkey (`GenericCallbackState`):
 Begin -> Update -> End -> Begin -> ...

 The source declares the phase as an integer enum with values 0, 1 and 2 and a
 fourth name, `Max`, bound to the value 2. An integer enum treats a repeated
 value as an alias, so `Max` is `End` and there are exactly three phases.
 */
module CallbackState {

  datatype Phase = Begin | Update | End

  /** The value of `GenericCallbackState.Max`, the alias of End. */
  const MaxValue: int := 2

  /** Number of distinct phases, the length of one cycle. */
  const Period: int := MaxValue + 1

  /** The integer value of a phase. */
  function Value(p: Phase): (v: int)
    ensures 0 <= v <= MaxValue
  {
    match p
    case Begin => 0
    case Update => 1
    case End => 2
  }

  lemma ValueInjective(p: Phase, q: Phase)
    ensures Value(p) == Value(q) <==> p == q
  {
  }

  /** The outcome of `GenericCallbackState(v)`: a member, or a ValueError for
      an integer that is no member's value. */
  datatype Conversion = Member(phase: Phase) | ValueError(value: int)

  function FromValue(v: int): (r: Conversion)
    ensures r.Member? <==> 0 <= v <= MaxValue
    ensures r.Member? ==> Value(r.phase) == v
    ensures r.ValueError? ==> r.value == v
  {
    if v == 0 then Member(Begin)
    else if v == 1 then Member(Update)
    else if v == 2 then Member(End)
    else ValueError(v)
  }

  /** Converting a phase's value back gives the phase. */
  lemma ValueRoundTrip(p: Phase)
    ensures FromValue(Value(p)) == Member(p)
  {
  }

  /** `p += k` exactly as the enum's `__iadd__` computes it: values past Max
      are folded back with `(next % Max) - 1`. The divisor is positive and
      `next` is positive there, so Python's floor modulo and Dafny's
      Euclidean modulo agree. */
  function IAddAsWritten(p: Phase, k: int): (r: Conversion)
    ensures Value(p) + k < 0 ==> r == ValueError(Value(p) + k)
    ensures 0 <= Value(p) + k <= Period ==> r == Member(Add(p, k))
    ensures Value(p) + k > MaxValue ==> (r.Member? <==> (Value(p) + k) % 2 == 1)
    ensures Value(p) + k > MaxValue && r.Member? ==> r.phase == Begin
  {
    var next := Value(p) + k;
    if next <= MaxValue then FromValue(next)
    else FromValue(next % MaxValue - 1)
  }

  /** Cyclic addition: `k` steps around Begin -> Update -> End -> Begin,
      backwards for negative `k`. */
  function Add(p: Phase, k: int): (r: Phase)
    ensures Value(r) == (Value(p) + k) % Period
  {
    FromValue((Value(p) + k) % Period).phase
  }

  /** One step around the cycle, the only increment the recorder uses. */
  function Advance(p: Phase): (r: Phase)
    ensures r != p
    ensures Value(r) == (Value(p) + 1) % Period
  {
    match p
    case Begin => Update
    case Update => End
    case End => Begin
  }

  lemma AdvanceIsAddOne(p: Phase)
    ensures Advance(p) == Add(p, 1)
  {
  }

  /** The cycle has period exactly 3: three steps return to the start and
      one or two steps do not. */
  lemma AdvancePeriod(p: Phase)
    ensures Advance(Advance(Advance(p))) == p
    ensures Advance(Advance(p)) != p
  {
  }

  /** Adding a and then b is adding a + b. */
  lemma AddCompose(p: Phase, a: int, b: int)
    ensures Add(Add(p, a), b) == Add(p, a + b)
  {
  }

  /** A whole number of cycles leaves the phase unchanged. */
  lemma AddPeriod(p: Phase, m: int)
    ensures Add(p, Period * m) == p
  {
  }

  /** The recorder's `+= 1` never hits the faulty fold: it is the cyclic step. */
  lemma IAddOneIsAdvance(p: Phase)
    ensures IAddAsWritten(p, 1) == Member(Advance(p))
  {
  }

  /** Exactly when `__iadd__` as written agrees with cyclic addition: for a
      sum up to 3, and past that only for an odd multiple of 3 (a sum of the
      form 6m + 3), the one case where the fold's Begin is the right phase. */
  lemma IAddAgreesExactly(p: Phase, k: int)
    ensures IAddAsWritten(p, k) == Member(Add(p, k))
        <==> 0 <= Value(p) + k && (Value(p) + k <= Period || ((Value(p) + k) % 2 == 1 && (Value(p) + k) % 3 == 0))
  {
  }

  /** `End += 2`, the smallest input the fold gets wrong: `(4 % 2) - 1` is
      -1, which is no member, where the cycle gives Update. */
  lemma EndPlusTwoFails()
    ensures IAddAsWritten(End, 2) == ValueError(-1)
    ensures Add(End, 2) == Update
  {
  }

  /** `Begin += 5` folds to Begin where the cycle gives End. */
  lemma BeginPlusFiveMisfolds()
    ensures IAddAsWritten(Begin, 5) == Member(Begin)
    ensures Add(Begin, 5) == End
  {
  }
}
