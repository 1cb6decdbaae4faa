/**
 * Sequential random sampling after Vitter (1987): choose `n` of the first
 * `N` positions of a stream, one call at a time, each call returning the
 * next chosen position (1-based) in increasing order.
 *
 * The sampler keeps the number `n` of positions still to choose, the number
 * `N` of positions still to come and the last chosen position `i`. Each call
 * picks a skip `s` and returns `i + s + 1`. While few positions remain
 * compared with `N` (`13 * n > N`) it uses Method A, a linear search of the
 * skip; otherwise Method D, a rejection method. The last position is drawn
 * directly.
 *
 * Method D's floating-point proposal and acceptance test are not modelled:
 * a Method D step takes the skip it accepted (and the next `v_prime`) as a
 * `Proposal`, constrained only by what the source's loops guarantee on exit.
 */
module Sampling {
  import opened Engine

  /** The sampler's fields that carry meaning from one call to the next. */
  datatype SamplerState = SamplerState(
    n: int,            // positions still to choose
    N: int,            // positions still to come
    i: int,            // the last position returned (0 before the first call)
    aInit: bool,       // Method A has run
    dInit: bool,       // Method D has run
    top: int,          // Method A: positions still to come that are not chosen
    qu1: int,          // Method D: N - n + 1, the number of admissible skips
    threshold: int,    // 13 * n while only Method D has run
    vPrime: real)      // Method D: the uniform prepared for the next step

  /** Which branch of `sample` a call takes. */
  datatype Branch = MethodD | MethodA | LastItem | Exhausted

  /** Where the single-skip branch takes its uniform from. */
  datatype Source = FreshDraw | StoredVPrime

  /** What a Method D step produces: the accepted skip and the next `v_prime`. */
  datatype Proposal = Proposal(skip: int, vPrime: real)

  /** The state right after construction with `n` and `N`. */
  function Init(n: int, N: int): (st: SamplerState)
    ensures st.i == 0 && !st.aInit && !st.dInit && st.threshold == 13 * n
  {
    SamplerState(n, N, 0, false, false, 0, 0, 13 * n, 0.0)
  }

  /** The dispatch at the head of `sample`. */
  function Dispatch(st: SamplerState): (b: Branch)
    ensures b == MethodD <==> st.n > 1 && st.threshold < st.N
    ensures b == MethodA <==> st.n > 1 && st.threshold >= st.N
    ensures b == LastItem <==> st.n == 1
    ensures b == Exhausted <==> st.n < 1
  {
    if st.n > 1 && st.threshold < st.N then MethodD
    else if st.n > 1 then MethodA
    else if st.n == 1 then LastItem
    else Exhausted
  }

  /** What the sampler keeps true between calls. */
  ghost predicate Inv(st: SamplerState)
  {
    && st.n <= st.N
    && st.i >= 0
    && (st.aInit ==> st.top == st.N - st.n && st.threshold >= st.N)
    && (!st.aInit ==> st.threshold == 13 * st.n)
    && (st.dInit && !st.aInit ==> st.qu1 == st.N - st.n + 1)
    && (st.dInit ==> 0.0 <= st.vPrime <= 1.0)
  }

  lemma InitInv(n: int, N: int)
    requires n <= N
    ensures Inv(Init(n, N))
  {
  }

  // ---------------------------------------------------------------------
  // Method A

  /**
   * The value of `quot` after `k` rounds of Method A's loop, started with
   * `top == T` and `N == M`: the product of (T - j) / (M - j) for j = 0 .. k,
   * the probability that the skip exceeds k.
   */
  function Quot(T: int, M: int, k: nat): real
    requires 0 <= T < M && k <= T
    decreases k
  {
    if k == 0 then T as real / M as real
    else Quot(T, M, k - 1) * ((T - k) as real / (M - k) as real)
  }

  lemma {:induction false} QuotBounds(T: int, M: int, k: nat)
    requires 0 <= T < M && k <= T
    ensures 0.0 <= Quot(T, M, k) < 1.0
    decreases k
  {
    if k > 0 {
      QuotBounds(T, M, k - 1);
      RatioBounds(T - k, M - k);
      var q := Quot(T, M, k - 1);
      var f := (T - k) as real / (M - k) as real;
      ProductBelowOne(q, f);
      assert Quot(T, M, k) == q * f;
    }
  }

  lemma RatioBounds(a: int, b: int)
    requires 0 <= a < b
    ensures 0.0 <= a as real / b as real < 1.0
  {
  }

  lemma ProductBelowOne(x: real, y: real)
    requires 0.0 <= x < 1.0 && 0.0 <= y < 1.0
    ensures 0.0 <= x * y < 1.0
  {
    ProductNonNegative(x, y);
    if x > 0.0 {
      ProductShrinks(x, y);
    }
  }

  lemma ProductNonNegative(x: real, y: real)
    requires 0.0 <= x && 0.0 <= y
    ensures 0.0 <= x * y
  {
  }

  lemma ProductShrinks(x: real, y: real)
    requires 0.0 < x && y < 1.0
    ensures x * y < x
  {
  }

  /** Once `top` has run down to zero, `quot` is zero. */
  lemma QuotVanishes(T: int, M: int)
    requires 0 <= T < M
    ensures Quot(T, M, T) == 0.0
  {
  }

  /** The least `s >= k` with `Quot(T, M, s) <= v`. */
  function SkipFrom(T: int, M: int, v: real, k: nat): (s: nat)
    requires 0 <= T < M && k <= T && 0.0 <= v
    ensures k <= s <= T
    ensures Quot(T, M, s) <= v
    ensures forall j :: k <= j < s ==> Quot(T, M, j) > v
    decreases T - k
  {
    if Quot(T, M, k) <= v then k
    else
      QuotVanishes(T, M);
      SkipFrom(T, M, v, k + 1)
  }

  /** Method A's skip for the uniform `v`: the first round whose `quot` is not above `v`. */
  function SkipA(T: int, M: int, v: real): (s: nat)
    requires 0 <= T < M && 0.0 <= v
    ensures s <= T
    ensures Quot(T, M, s) <= v
    ensures forall j :: 0 <= j < s ==> Quot(T, M, j) > v
  {
    SkipFrom(T, M, v, 0)
  }

  /** The skip is determined by the two properties that end the loop. */
  lemma SkipAUnique(T: int, M: int, v: real, s: nat)
    requires 0 <= T < M && 0.0 <= v && s <= T
    requires Quot(T, M, s) <= v
    requires forall j :: 0 <= j < s ==> Quot(T, M, j) > v
    ensures s == SkipA(T, M, v)
  {
    var r := SkipA(T, M, v);
    assert Quot(T, M, r) <= v;
  }

  /** A larger uniform never gives a larger skip. */
  lemma {:induction false} SkipAMonotone(T: int, M: int, v: real, w: real)
    requires 0 <= T < M && 0.0 <= v <= w
    ensures SkipA(T, M, w) <= SkipA(T, M, v)
  {
    var s := SkipA(T, M, v);
    assert Quot(T, M, s) <= w;
  }

  /** `top` at the start of a Method A step. */
  function TopA(st: SamplerState): int
  {
    if st.aInit then st.top else st.N - st.n
  }

  /** One Method A step on uniform `u`. */
  function StepA(st: SamplerState, u: real): (r: SamplerState)
    requires Inv(st) && Dispatch(st) == MethodA && 0.0 <= u <= 1.0
  {
    var T := TopA(st);
    var s := SkipA(T, st.N, u);
    st.(top := T - s, N := st.N - s - 1, n := st.n - 1, i := st.i + s + 1, aInit := true)
  }

  // ---------------------------------------------------------------------
  // Method D

  /** `qu1` at the start of a Method D step. */
  function Qu1(st: SamplerState): int
  {
    if st.dInit then st.qu1 else st.N - st.n + 1
  }

  /**
   * What the exit of Method D's loops guarantees: the inner loop leaves only
   * with `s < qu1`, `s` is a floor of a non-negative value, and both exits
   * leave `v_prime` in [0, 1].
   */
  predicate Admissible(st: SamplerState, d: Proposal)
  {
    0 <= d.skip < Qu1(st) && 0.0 <= d.vPrime <= 1.0
  }

  /** The bookkeeping of one Method D step with the accepted proposal `d`. */
  function StepD(st: SamplerState, d: Proposal): (r: SamplerState)
    requires Inv(st) && Dispatch(st) == MethodD && Admissible(st, d)
  {
    var q := Qu1(st);
    var s := d.skip;
    st.(i := st.i + s + 1, N := st.N - s - 1, n := st.n - 1, qu1 := q - s,
        threshold := st.threshold - 13, dInit := true, vPrime := d.vPrime)
  }

  // ---------------------------------------------------------------------
  // The single-skip branch (n == 1)

  /**
   * Where the source takes the uniform of the single-skip branch: a fresh
   * draw once Method A has run, otherwise `v_prime`. After construction with
   * `n == 1` neither method has run and `v_prime` was never assigned.
   */
  function LastItemSourceAsWritten(st: SamplerState): Source
  {
    if st.aInit then FreshDraw else StoredVPrime
  }

  /**
   * The corrected choice: `v_prime` only when Method D prepared it, that is,
   * when Method D has run and Method A has not; a fresh draw otherwise.
   */
  function LastItemSource(st: SamplerState): (src: Source)
    ensures src == StoredVPrime <==> st.dInit && !st.aInit
  {
    if st.aInit || !st.dInit then FreshDraw else StoredVPrime
  }

  /** The uniform the single-skip branch uses, given the fresh draw `u`. */
  function LastItemUniform(st: SamplerState, u: real): real
  {
    if LastItemSource(st) == FreshDraw then u else st.vPrime
  }

  /** The skip of the single-skip branch, `floor(N * w)`. */
  function LastSkip(N: int, w: real): int
  {
    (N as real * w).Floor
  }

  /** The single-skip branch: `i += floor(N * w) + 1`, nothing else changes. */
  function StepLast(st: SamplerState, u: real): (r: SamplerState)
  {
    st.(i := st.i + LastSkip(st.N, LastItemUniform(st, u)) + 1)
  }

  // ---------------------------------------------------------------------
  // A whole call

  /** Whether a call draws from the engine (Method D's draws are not modelled). */
  function UsesDraw(st: SamplerState): bool
  {
    match Dispatch(st)
    case MethodA => true
    case LastItem => LastItemSource(st) == FreshDraw
    case _ => false
  }

  /**
   * One call of `sample`: the new state and the returned position. `u` is the
   * engine's uniform, used when `UsesDraw`; `d` is Method D's proposal.
   */
  function Step(st: SamplerState, u: real, d: Proposal): (r: (SamplerState, int))
    requires Inv(st) && 0.0 <= u <= 1.0
    requires Dispatch(st) == MethodD ==> Admissible(st, d)
  {
    match Dispatch(st)
    case MethodD => var t := StepD(st, d); (t, t.i)
    case MethodA => var t := StepA(st, u); (t, t.i)
    case LastItem => var t := StepLast(st, u); (t, t.i)
    case Exhausted => (st, 0)
  }

  /** With nothing left to choose, a call returns 0 and changes nothing. */
  lemma StepExhausted(st: SamplerState, u: real, d: Proposal)
    requires Inv(st) && 0.0 <= u <= 1.0 && st.n < 1
    ensures Step(st, u, d) == (st, 0)
  {
  }

  lemma StepLastBounds(st: SamplerState, u: real)
    requires Inv(st) && Dispatch(st) == LastItem && 0.0 <= u <= 1.0
    ensures st.i < StepLast(st, u).i <= st.i + st.N + 1
  {
    var w := LastItemUniform(st, u);
    LastSkipBounds(st.N, w);
  }

  lemma LastSkipBounds(N: int, w: real)
    requires N >= 1 && 0.0 <= w <= 1.0
    ensures 0 <= LastSkip(N, w) <= N
    ensures LastSkip(N, w) < N <==> w < 1.0
  {
    var x := N as real * w;
    assert 0.0 <= x <= N as real by {
      assert x <= N as real * 1.0;
    }
    if w < 1.0 {
      assert N as real - x == N as real * (1.0 - w);
      assert N as real * (1.0 - w) > 0.0;
    } else {
      assert x == N as real;
    }
  }

  /** Every call keeps the invariant. */
  lemma StepInv(st: SamplerState, u: real, d: Proposal)
    requires Inv(st) && 0.0 <= u <= 1.0
    requires Dispatch(st) == MethodD ==> Admissible(st, d)
    ensures Inv(Step(st, u, d).0)
  {
    match Dispatch(st)
    case MethodA =>
      var s := SkipA(TopA(st), st.N, u);
      assert s <= TopA(st);
    case MethodD =>
    case LastItem =>
      StepLastBounds(st, u);
    case Exhausted =>
  }

  /**
   * A Method A or D step chooses exactly one position: `n` drops by one,
   * `i` grows by the skip plus one, `N` shrinks by the same amount (so
   * `i + N` is unchanged), and the position returned is the new `i`.
   */
  lemma StepProgress(st: SamplerState, u: real, d: Proposal)
    requires Inv(st) && 0.0 <= u <= 1.0
    requires Dispatch(st) == MethodD ==> Admissible(st, d)
    requires Dispatch(st) == MethodA || Dispatch(st) == MethodD
    ensures var (t, pos) := Step(st, u, d);
      && t.n == st.n - 1
      && t.i > st.i
      && t.i + t.N == st.i + st.N
      && pos == t.i
      && t.n >= 1
  {
  }

  /** Method A keeps `top == N - n`, so the skip never passes the last position. */
  lemma MethodAKeepsTop(st: SamplerState, u: real)
    requires Inv(st) && Dispatch(st) == MethodA && 0.0 <= u <= 1.0
    ensures StepA(st, u).top == StepA(st, u).N - StepA(st, u).n
    ensures SkipA(TopA(st), st.N, u) <= st.N - st.n
  {
  }

  /**
   * Method D's skip stays below `qu1 == N - n + 1`, so afterwards at least
   * `n - 1` positions remain for the `n - 1` still to choose.
   */
  lemma MethodDKeepsQu1(st: SamplerState, d: Proposal)
    requires Inv(st) && Dispatch(st) == MethodD && Admissible(st, d)
    ensures StepD(st, d).qu1 == StepD(st, d).N - StepD(st, d).n + 1
    ensures st.N - d.skip - 1 >= st.n - 1
  {
  }

  /** `threshold` drops by 13 in Method D only, so it equals 13 * n until Method A runs. */
  lemma ThresholdTracksN(st: SamplerState, u: real, d: Proposal)
    requires Inv(st) && 0.0 <= u <= 1.0
    requires Dispatch(st) == MethodD ==> Admissible(st, d)
    ensures var t := Step(st, u, d).0;
      && (Dispatch(st) == MethodD ==> t.threshold == st.threshold - 13)
      && (Dispatch(st) != MethodD ==> t.threshold == st.threshold)
      && (!t.aInit ==> t.threshold == 13 * t.n)
  {
  }

  /** Once Method A has run, Method D is never selected again. */
  lemma ANeverThenD(st: SamplerState, u: real, d: Proposal)
    requires Inv(st) && 0.0 <= u <= 1.0 && st.aInit
    requires Dispatch(st) == MethodD ==> Admissible(st, d)
    ensures Dispatch(st) != MethodD
    ensures Step(st, u, d).0.aInit
    ensures Dispatch(Step(st, u, d).0) != MethodD
  {
    StepInv(st, u, d);
  }

  /**
   * The single-skip branch keeps `n` and `N`, so the next call takes it again
   * and returns a further position rather than 0.
   */
  lemma LastItemRepeats(st: SamplerState, u: real, d: Proposal)
    requires Inv(st) && 0.0 <= u <= 1.0 && Dispatch(st) == LastItem
    ensures var (t, pos) := Step(st, u, d);
      && t.n == st.n && t.N == st.N
      && Dispatch(t) == LastItem
      && pos == t.i > st.i
  {
    StepLastBounds(st, u);
  }

  /**
   * While `i + N` equals the original population size `N0`, the position the
   * single-skip branch returns is at most `N0` exactly when its uniform is
   * below 1.
   */
  lemma LastItemInRange(st: SamplerState, u: real, d: Proposal, N0: int)
    requires Inv(st) && 0.0 <= u <= 1.0 && Dispatch(st) == LastItem
    requires st.i + st.N == N0
    ensures Step(st, u, d).1 <= N0 <==> LastItemUniform(st, u) < 1.0
  {
    LastSkipBounds(st.N, LastItemUniform(st, u));
  }

  /** When every remaining position must be chosen, Method A chooses the next one. */
  lemma MethodAFullPopulation(st: SamplerState, u: real)
    requires Inv(st) && Dispatch(st) == MethodA && 0.0 <= u <= 1.0
    requires st.n == st.N
    ensures StepA(st, u).i == st.i + 1
  {
    assert Quot(0, st.N, 0) == 0.0;
  }

  /**
   * The source reads `v_prime` unassigned: right after construction with
   * `n == 1`, the single-skip branch takes `StoredVPrime`, though neither
   * method has run and nothing has stored a value.
   */
  lemma AsWrittenReadsUnsetVPrime(N: int)
    requires 1 <= N
    ensures Dispatch(Init(1, N)) == LastItem
    ensures LastItemSourceAsWritten(Init(1, N)) == StoredVPrime
    ensures !Init(1, N).dInit && !Init(1, N).aInit
  {
  }

  /**
   * The corrected choice stores no such read: it uses `v_prime` only after
   * Method D assigned it, and agrees with the source whenever a method has run.
   */
  lemma LastItemSourceCorrected(st: SamplerState)
    requires Inv(st)
    ensures LastItemSource(st) == StoredVPrime ==> st.dInit && 0.0 <= st.vPrime <= 1.0
    ensures st.aInit || st.dInit ==> LastItemSource(st) == LastItemSourceAsWritten(st)
  {
  }

  // ---------------------------------------------------------------------
  // Runs of several calls

  /** `us` and `ds` supply one uniform and one proposal per call, each acceptable. */
  ghost predicate ValidRun(st: SamplerState, us: seq<real>, ds: seq<Proposal>)
    requires Inv(st)
    decreases |us|
  {
    && |us| == |ds|
    && (|us| > 0 ==>
          && 0.0 <= us[0] <= 1.0
          && (Dispatch(st) == MethodD ==> Admissible(st, ds[0]))
          && (StepInv(st, us[0], ds[0]);
              ValidRun(Step(st, us[0], ds[0]).0, us[1..], ds[1..])))
  }

  /** The positions returned by the calls of a run. */
  ghost function Positions(st: SamplerState, us: seq<real>, ds: seq<Proposal>): (ps: seq<int>)
    requires Inv(st) && ValidRun(st, us, ds)
    ensures |ps| == |us|
    decreases |us|
  {
    if |us| == 0 then []
    else
      StepInv(st, us[0], ds[0]);
      [Step(st, us[0], ds[0]).1] + Positions(Step(st, us[0], ds[0]).0, us[1..], ds[1..])
  }

  /**
   * From any state with a position still to choose, the positions returned
   * strictly increase and all lie beyond the last one returned before.
   */
  lemma {:induction false} PositionsIncrease(st: SamplerState, us: seq<real>, ds: seq<Proposal>)
    requires Inv(st) && ValidRun(st, us, ds) && st.n >= 1
    ensures forall k :: 0 <= k < |us| ==> Positions(st, us, ds)[k] > st.i
    ensures forall k :: 0 <= k < |us| - 1 ==>
      Positions(st, us, ds)[k] < Positions(st, us, ds)[k + 1]
    decreases |us|
  {
    if |us| > 0 {
      StepInv(st, us[0], ds[0]);
      var (t, pos) := Step(st, us[0], ds[0]);
      if Dispatch(st) == LastItem {
        LastItemRepeats(st, us[0], ds[0]);
      } else {
        StepProgress(st, us[0], ds[0]);
      }
      PositionsIncrease(t, us[1..], ds[1..]);
      var rest := Positions(t, us[1..], ds[1..]);
      assert Positions(st, us, ds) == [pos] + rest;
      assert pos == t.i;
    }
  }

  /**
   * The first `n - 1` calls from a state where `i + N == N0` all use Method A
   * or D, return positions at most `N0 - 1`, and leave `i + N == N0` with one
   * position still to choose.
   */
  lemma {:induction false} PositionsBelowPopulation(st: SamplerState, us: seq<real>, ds: seq<Proposal>, N0: int)
    requires Inv(st) && ValidRun(st, us, ds)
    requires st.n >= 1 && |us| <= st.n - 1 && st.i + st.N == N0
    ensures forall k :: 0 <= k < |us| ==> Positions(st, us, ds)[k] <= N0 - 1
    decreases |us|
  {
    if |us| > 0 {
      StepInv(st, us[0], ds[0]);
      StepProgress(st, us[0], ds[0]);
      var (t, pos) := Step(st, us[0], ds[0]);
      PositionsBelowPopulation(t, us[1..], ds[1..], N0);
      assert Positions(st, us, ds) == [pos] + Positions(t, us[1..], ds[1..]);
    }
  }

  // ---------------------------------------------------------------------
  // The sampler object

  /**
   * The sampler, holding a reference to the engine it draws from. The
   * source's scratch members `s`, `v` and `quot` are locals here; the
   * members used only by Method D's numerics are left out.
   */
  class Sampler {
    var n: int
    var N: int
    var i: int
    var aInit: bool
    var dInit: bool
    var top: int
    var qu1: int
    var threshold: int
    var vPrime: real
    const rng: Rng

    function State(): SamplerState
      reads this
    {
      SamplerState(n, N, i, aInit, dInit, top, qu1, threshold, vPrime)
    }

    ghost predicate Valid()
      reads this, rng, rng.mt
    {
      rng.Valid() && Inv(State())
    }

    /**
     * The constructor. `v_prime` is given a placeholder; the corrected
     * single-skip branch never reads it before Method D assigns it.
     */
    constructor (n: int, N: int, rng: Rng)
      requires rng.Valid() && n <= N
      ensures Valid() && this.rng == rng
      ensures State() == Init(n, N)
    {
      this.n := n;
      this.N := N;
      this.rng := rng;
      i := 0;
      threshold := 13 * n;
      aInit := false;
      dInit := false;
      top := 0;
      qu1 := 0;
      vPrime := 0.0;
    }

    /** One call: the next chosen position, or 0 once nothing is left to choose. */
    method Sample(d: Proposal) returns (r: int)
      requires Valid()
      requires Dispatch(State()) == MethodD ==> Admissible(State(), d)
      modifies this, rng, rng.mt
      ensures Valid() && rng.origin == old(rng.origin)
      ensures rng.Drawn() == old(rng.Drawn()) + (if UsesDraw(old(State())) then 1 else 0)
      ensures (State(), r) == Step(old(State()), ToUnit(Output(rng.origin, old(rng.Drawn()))), d)
    {
      ghost var st := State();
      ghost var u := ToUnit(Output(rng.origin, rng.Drawn()));
      if n > 1 && threshold < N {
        MethodDStep(d);
      } else if n > 1 {
        MethodAStep();
      } else if n == 1 {
        LastItemStep();
      } else {
        return 0;
      }
      r := i;
      StepInv(st, u, d);
    }

    /** The single-skip branch: one more position, `floor(N * w)` further on. */
    method LastItemStep()
      requires Valid() && Dispatch(State()) == LastItem
      modifies this, rng, rng.mt
      ensures rng.Valid() && rng.origin == old(rng.origin)
      ensures rng.Drawn() == old(rng.Drawn()) + (if LastItemSource(old(State())) == FreshDraw then 1 else 0)
      ensures State() == StepLast(old(State()), ToUnit(Output(rng.origin, old(rng.Drawn()))))
    {
      ghost var st := State();
      ghost var u := ToUnit(Output(rng.origin, rng.Drawn()));
      var w: real;
      if aInit || !dInit {
        w := rng.NextUniform();
      } else {
        w := vPrime;
      }
      assert w == LastItemUniform(st, u);
      var s := LastSkip(N, w);
      i := i + s + 1;
    }

    /** Method A: a linear search for the skip with one uniform draw. */
    method MethodAStep()
      requires Valid() && Dispatch(State()) == MethodA
      modifies this, rng, rng.mt
      ensures rng.Valid() && rng.origin == old(rng.origin)
      ensures rng.Drawn() == old(rng.Drawn()) + 1
      ensures State() == StepA(old(State()), ToUnit(Output(rng.origin, old(rng.Drawn()))))
    {
      if !aInit {
        top := N - n;
        aInit := true;
      }
      var v := rng.NextUniform();
      var s := SearchSkip(v);
      i := i + s + 1;
      N := N - 1;
      n := n - 1;
    }

    /**
     * Method A's loop: lower `quot` by the factor `top / N` after each
     * decrement of `top` and `N` until it is no longer above `v`.
     */
    method SearchSkip(v: real) returns (s: int)
      requires 0 <= top < N && 0.0 <= v
      modifies this`top, this`N
      ensures s == SkipA(old(top), old(N), v)
      ensures top == old(top) - s && N == old(N) - s
    {
      ghost var T := top;
      ghost var M := N;
      s := 0;
      var quot := top as real / N as real;
      while quot > v
        invariant 0 <= s <= T && top == T - s && N == M - s
        invariant quot == Quot(T, M, s)
        invariant forall j :: 0 <= j < s ==> Quot(T, M, j) > v
        decreases top
      {
        if s == T {
          QuotVanishes(T, M);
        }
        s := s + 1;
        top := top - 1;
        N := N - 1;
        quot := quot * (top as real / N as real);
      }
      SkipAUnique(T, M, v, s);
    }

    /** The bookkeeping of Method D for the accepted proposal `d`. */
    method MethodDStep(d: Proposal)
      requires Valid() && Dispatch(State()) == MethodD && Admissible(State(), d)
      modifies this
      ensures State() == StepD(old(State()), d)
    {
      if !dInit {
        qu1 := N - n + 1;
        dInit := true;
      }
      var s := d.skip;
      vPrime := d.vPrime;
      i := i + s + 1;
      N := N - s - 1;
      n := n - 1;
      qu1 := qu1 - s;
      threshold := threshold - 13;
    }
  }
}
