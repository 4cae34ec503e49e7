/// The copy limit: an atomic counter that is loaded and incremented in two separate steps.
module CopyLimit {
  import opened Core

  const USIZE_MODULUS: nat := 0x1_0000_0000_0000_0000

  type usize = n: nat | n < USIZE_MODULUS

  class CopyLimitPolicy {
    const maxCopies: usize
    var live: usize

    constructor (maxCopies: usize)
      ensures this.maxCopies == maxCopies && live == 0
    {
      this.maxCopies := maxCopies;
      live := 0;
    }

    /// One more copy, unless the cap is reached. The caller has the policy to itself here;
    /// `Interleaved` below is what several callers at once can make of it.
    method AuthorizeCopy() returns (r: Result<()>)
      modifies this
      ensures r == if old(live) < maxCopies then Ok(()) else Err(ReplicationError)
      ensures live == if r.Ok? then old(live) + 1 else old(live)
      ensures old(live) <= maxCopies ==> live <= maxCopies
    {
      var cur := live;
      if cur >= maxCopies {
        return Err(ReplicationError);
      }
      live := live + 1;
      return Ok(());
    }

    /// A copy is gone. Retiring a copy that never lived wraps the counter around.
    method RetireCopy()
      modifies this
      ensures live == if old(live) == 0 then USIZE_MODULUS - 1 else old(live) - 1
    {
      live := (live + USIZE_MODULUS - 1) % USIZE_MODULUS;
    }
  }

  // ----- interleavings -----

  /// Where a caller stands inside the authorization: outside, or past the check with the
  /// increment still to come.
  datatype Caller = Outside | Checked

  datatype Counter = Counter(live: nat, callers: seq<Caller>)

  /// A caller loads and compares; a caller that passed increments; somebody retires a live copy.
  datatype Step = Load(caller: nat) | Increment(caller: nat) | Retire

  predicate Enabled(s: Counter, step: Step) {
    match step
    case Load(c) => c < |s.callers| && s.callers[c].Outside?
    case Increment(c) => c < |s.callers| && s.callers[c].Checked?
    case Retire => s.live > 0
  }

  function Next(s: Counter, max: nat, step: Step): Counter
    requires Enabled(s, step)
  {
    match step
    case Load(c) => if s.live >= max then s else s.(callers := s.callers[c := Checked])
    case Increment(c) => Counter(s.live + 1, s.callers[c := Outside])
    case Retire => s.(live := s.live - 1)
  }

  function Fresh(n: nat): Counter {
    Counter(0, seq(n, i => Outside))
  }

  predicate Interleaved(n: nat, max: nat, run: seq<Step>)
    decreases run, 0
  {
    run == [] || (Interleaved(n, max, run[..|run| - 1]) && Enabled(After(n, max, run[..|run| - 1]), run[|run| - 1]))
  }

  function After(n: nat, max: nat, run: seq<Step>): Counter
    requires Interleaved(n, max, run)
    decreases run, 1
  {
    if run == [] then Fresh(n) else Next(After(n, max, run[..|run| - 1]), max, run[|run| - 1])
  }

  function CheckedCount(callers: seq<Caller>): (k: nat)
    ensures k <= |callers|
  {
    if callers == [] then 0
    else CheckedCount(callers[..|callers| - 1]) + (if callers[|callers| - 1].Checked? then 1 else 0)
  }

  lemma {:induction false} CheckedChanges(callers: seq<Caller>, c: nat, to: Caller)
    requires c < |callers| && callers[c] != to
    ensures CheckedCount(callers[c := to]) == if to.Checked? then CheckedCount(callers) + 1 else CheckedCount(callers) - 1
    ensures to.Checked? ==> CheckedCount(callers) < |callers|
  {
    var n := |callers| - 1;
    if c < n {
      CheckedChanges(callers[..n], c, to);
      assert callers[c := to][..n] == callers[..n][c := to];
    } else {
      assert callers[c := to][..n] == callers[..n];
    }
  }

  lemma {:induction false} NobodyChecked(n: nat)
    ensures CheckedCount(seq(n, i => Outside)) == 0
  {
    if n > 0 {
      NobodyChecked(n - 1);
      assert seq(n, i => Outside)[..n - 1] == seq(n - 1, i => Outside);
    }
  }

  /// With n callers interleaved in any way, live copies exceed the cap by at most n - 1.
  lemma {:induction false} CopyLimitBound(n: nat, max: nat, run: seq<Step>)
    requires Interleaved(n, max, run) && n > 0
    ensures var s := After(n, max, run);
      && |s.callers| == n
      && (max > 0 ==> s.live + CheckedCount(s.callers) <= max + n - 1)
      && (max == 0 ==> s.live == 0 && CheckedCount(s.callers) == 0)
  {
    if run == [] {
      NobodyChecked(n);
    } else {
      var init, step := run[..|run| - 1], run[|run| - 1];
      var s := After(n, max, init);
      CopyLimitBound(n, max, init);
      match step {
        case Load(c) =>
          if s.live < max { CheckedChanges(s.callers, c, Checked); }
        case Increment(c) => CheckedChanges(s.callers, c, Outside);
        case Retire =>
      }
    }
  }

  /// With one caller at a time the cap is hard.
  lemma {:induction false} OneCallerNeverExceeds(max: nat, run: seq<Step>)
    requires Interleaved(1, max, run)
    ensures After(1, max, run).live <= max
  {
    CopyLimitBound(1, max, run);
  }

  // ----- the bound is reached -----

  /// `k` copies authorized one after another by the first caller.
  function InTurn(k: nat): seq<Step> {
    if k == 0 then [] else InTurn(k - 1) + [Load(0)] + [Increment(0)]
  }

  function AllLoad(run: seq<Step>, k: nat): seq<Step> {
    if k == 0 then run else AllLoad(run, k - 1) + [Load(k - 1)]
  }

  function AllIncrement(run: seq<Step>, k: nat): seq<Step> {
    if k == 0 then run else AllIncrement(run, k - 1) + [Increment(k - 1)]
  }

  lemma {:induction false} Extend(n: nat, max: nat, run: seq<Step>, step: Step)
    requires Interleaved(n, max, run) && Enabled(After(n, max, run), step)
    ensures Interleaved(n, max, run + [step])
    ensures After(n, max, run + [step]) == Next(After(n, max, run), max, step)
  {
    assert (run + [step])[..|run|] == run;
  }

  lemma {:induction false} InTurnReaches(n: nat, max: nat, k: nat)
    requires n > 0 && k <= max
    ensures Interleaved(n, max, InTurn(k)) && After(n, max, InTurn(k)) == Counter(k, Fresh(n).callers)
  {
    hide After, Interleaved;
    if k == 0 {
      NothingYet(n, max);
    } else {
      InTurnReaches(n, max, k - 1);
      Extend(n, max, InTurn(k - 1), Load(0));
      Extend(n, max, InTurn(k - 1) + [Load(0)], Increment(0));
      assert Fresh(n).callers[0 := Checked][0 := Outside] == Fresh(n).callers;
    }
  }

  lemma {:induction false} NothingYet(n: nat, max: nat)
    ensures Interleaved(n, max, []) && After(n, max, []) == Fresh(n)
  {
  }

  lemma {:induction false} AllLoadReaches(n: nat, max: nat, run: seq<Step>, k: nat)
    requires Interleaved(n, max, run) && k <= n
    requires After(n, max, run).live < max && After(n, max, run).callers == Fresh(n).callers
    ensures Interleaved(n, max, AllLoad(run, k))
    ensures After(n, max, AllLoad(run, k))
         == Counter(After(n, max, run).live, seq(n, i => if i < k then Checked else Outside))
  {
    hide After, Interleaved;
    if k > 0 {
      AllLoadReaches(n, max, run, k - 1);
      Extend(n, max, AllLoad(run, k - 1), Load(k - 1));
    }
  }

  lemma {:induction false} AllIncrementReaches(n: nat, max: nat, run: seq<Step>, k: nat)
    requires Interleaved(n, max, run) && k <= n
    requires After(n, max, run).callers == seq(n, i => Checked)
    ensures Interleaved(n, max, AllIncrement(run, k))
    ensures After(n, max, AllIncrement(run, k))
         == Counter(After(n, max, run).live + k, seq(n, i => if i < k then Outside else Checked))
  {
    hide After, Interleaved;
    if k > 0 {
      AllIncrementReaches(n, max, run, k - 1);
      Extend(n, max, AllIncrement(run, k - 1), Increment(k - 1));
    }
  }

  /// The bound is tight: some interleaving of n callers does reach max + n - 1 live copies.
  lemma {:induction false} CopyLimitBoundIsReached(n: nat, max: nat)
    requires n > 0 && max > 0
    ensures exists run :: Interleaved(n, max, run) && After(n, max, run).live == max + n - 1
  {
    hide After, Interleaved;
    var first := InTurn(max - 1);
    InTurnReaches(n, max, max - 1);
    AllLoadReaches(n, max, first, n);
    var second := AllLoad(first, n);
    assert After(n, max, second).callers == seq(n, i => Checked);
    AllIncrementReaches(n, max, second, n);
    assert Interleaved(n, max, AllIncrement(second, n)) && After(n, max, AllIncrement(second, n)).live == max + n - 1;
  }
}
