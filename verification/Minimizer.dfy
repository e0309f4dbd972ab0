/** tools/reflection_fuzz/minimize.py: bisecting for the smallest disagreeing
    prefix.  run(n) is the return code of the runner on the first n cases: 0 when
    the compilers agree, 3 when they disagree, anything else a failure. */
module Minimizer {
  const AGREE := 0
  const DISAGREE := 3

  datatype Outcome =
    | Smallest(cases: int)
    | TooFewCases
    | TooFewCompilers
    | NotReproduced
    | PrefixFailed(cases: int)
    | WitnessDisagrees(cases: int)
    | WitnessFailed(cases: int)
    | StoppedReproducing

  datatype Search = Found(cases: int) | Broken(cases: int)

  function Middle(low: int, high: int): int
    requires 1 <= low < high
  {
    (low + high) / 2
  }

  /** The bisection loop from the bounds low and high. */
  function Bisect(run: int -> int, low: int, high: int): Search
    requires 1 <= low <= high
    decreases high - low
  {
    if low == high then Found(low)
    else
      var mid := Middle(low, high);
      if run(mid) == DISAGREE then Bisect(run, low, mid)
      else if run(mid) == AGREE then Bisect(run, mid + 1, high)
      else Broken(mid)
  }

  /** How often the loop calls the runner. */
  function Probes(run: int -> int, low: int, high: int): nat
    requires 1 <= low <= high
    decreases high - low
  {
    if low == high then 0
    else
      var mid := Middle(low, high);
      if run(mid) == DISAGREE then 1 + Probes(run, low, mid)
      else if run(mid) == AGREE then 1 + Probes(run, mid + 1, high)
      else 1
  }

  // ----- The search -----

  /** The last case of a prefix that disagrees although one case less agrees. */
  ghost predicate Edge(run: int -> int, k: int) {
    k >= 1 && run(k) == DISAGREE && (k == 1 || run(k - 1) == AGREE)
  }

  /** The search ends on an edge, however erratic the runner is between its probes. */
  lemma {:induction false} BisectFindsEdge(run: int -> int, low: int, high: int)
    requires 1 <= low <= high && run(high) == DISAGREE && (low == 1 || run(low - 1) == AGREE)
    ensures match Bisect(run, low, high)
            case Found(k) => low <= k <= high && Edge(run, k)
            case Broken(k) => low <= k < high && run(k) != DISAGREE && run(k) != AGREE
    decreases high - low
  {
    if low < high {
      var mid := Middle(low, high);
      if run(mid) == DISAGREE {
        BisectFindsEdge(run, low, mid);
      } else if run(mid) == AGREE {
        BisectFindsEdge(run, mid + 1, high);
      }
    }
  }

  /** The least k with 2^k >= n. */
  function CeilLog2(n: int): nat
    requires n >= 1
    decreases n
  {
    if n == 1 then 0 else 1 + CeilLog2((n + 1) / 2)
  }

  function Power2(k: nat): nat {
    if k == 0 then 1 else 2 * Power2(k - 1)
  }

  lemma {:induction false} CeilLog2IsLeast(n: int)
    requires n >= 1
    ensures n <= Power2(CeilLog2(n))
    ensures n > 1 ==> Power2(CeilLog2(n) - 1) < n
    decreases n
  {
    if n > 1 {
      CeilLog2IsLeast((n + 1) / 2);
    }
  }

  lemma {:induction false} CeilLog2Monotone(m: int, n: int)
    requires 1 <= m <= n
    ensures CeilLog2(m) <= CeilLog2(n)
    decreases n
  {
    if m > 1 {
      CeilLog2Monotone((m + 1) / 2, (n + 1) / 2);
    }
  }

  lemma {:induction false} FewProbes(run: int -> int, low: int, high: int)
    requires 1 <= low <= high
    ensures Probes(run, low, high) <= CeilLog2(high - low + 1)
    decreases high - low
  {
    if low < high {
      var mid := Middle(low, high);
      if run(mid) == DISAGREE {
        FewProbes(run, low, mid);
        CeilLog2Monotone(mid - low + 1, (high - low + 2) / 2);
      } else if run(mid) == AGREE {
        FewProbes(run, mid + 1, high);
        CeilLog2Monotone(high - mid, (high - low + 2) / 2);
      }
    }
  }

  /** Disagreement never goes away when cases are added. */
  ghost predicate Monotone(run: int -> int, maxCases: int) {
    forall i: int, j: int | 1 <= i <= j <= maxCases && run(i) == DISAGREE :: run(j) == DISAGREE
  }

  /** With a monotone runner the edge is the smallest disagreeing prefix. */
  lemma EdgeIsMinimum(run: int -> int, maxCases: int, k: int, j: int)
    requires Monotone(run, maxCases) && Edge(run, k) && k <= maxCases && 1 <= j < k
    ensures run(j) != DISAGREE
  {
    assert run(j) == DISAGREE ==> run(k - 1) == DISAGREE;
  }

  // ----- The program -----

  /** main(), and how often its loop called the runner. */
  method Minimize(run: int -> int, maxCases: int, compilers: nat) returns (outcome: Outcome, probes: nat)
    ensures outcome.Smallest? ==> Edge(run, outcome.cases) && outcome.cases <= maxCases
    ensures outcome.Smallest? && Monotone(run, maxCases) ==>
              forall j | 1 <= j < outcome.cases :: run(j) != DISAGREE
    ensures outcome.Smallest? ==> maxCases > 0 && compilers >= 2 && run(maxCases) == DISAGREE
    ensures maxCases > 0 && compilers >= 2 && run(maxCases) == DISAGREE ==>
              (outcome.Smallest? && Bisect(run, 1, maxCases) == Found(outcome.cases))
              || (outcome.PrefixFailed? && Bisect(run, 1, maxCases) == Broken(outcome.cases)
                  && 1 <= outcome.cases < maxCases && run(outcome.cases) != AGREE && run(outcome.cases) != DISAGREE)
    ensures outcome == TooFewCases <==> maxCases <= 0
    ensures outcome == TooFewCompilers <==> maxCases > 0 && compilers < 2
    ensures outcome == NotReproduced <==> maxCases > 0 && compilers >= 2 && run(maxCases) != DISAGREE
    ensures !outcome.WitnessDisagrees? && !outcome.WitnessFailed? && outcome != StoppedReproducing
    ensures maxCases > 0 ==> probes <= CeilLog2(maxCases)
  {
    probes := 0;
    if maxCases <= 0 {
      return TooFewCases, 0;
    }
    if compilers < 2 {
      return TooFewCompilers, 0;
    }
    if run(maxCases) != DISAGREE {
      return NotReproduced, 0;
    }
    var low, high := 1, maxCases;
    BisectFindsEdge(run, low, high);
    FewProbes(run, low, high);
    while low < high
      invariant 1 <= low <= high <= maxCases
      invariant run(high) == DISAGREE && (low == 1 || run(low - 1) == AGREE)
      invariant Bisect(run, low, high) == Bisect(run, 1, maxCases)
      invariant probes + Probes(run, low, high) == Probes(run, 1, maxCases)
    {
      var mid := (low + high) / 2;
      var returncode := run(mid);
      probes := probes + 1;
      if returncode == DISAGREE {
        high := mid;
      } else if returncode == AGREE {
        low := mid + 1;
      } else {
        return PrefixFailed(mid), probes;
      }
    }
    if low > 1 {
      var predecessor := run(low - 1);
      if predecessor == DISAGREE {
        return WitnessDisagrees(low - 1), probes;
      }
      if predecessor != AGREE {
        return WitnessFailed(low - 1), probes;
      }
    }
    if run(low) != DISAGREE {
      return StoppedReproducing, probes;
    }
    forall j | Monotone(run, maxCases) && 1 <= j < low ensures run(j) != DISAGREE {
      EdgeIsMinimum(run, maxCases, low, j);
    }
    outcome := Smallest(low);
  }

  /** Without monotonicity the answer need not be the smallest disagreeing prefix:
      here prefix 1 disagrees and 4 is reported. */
  lemma LocalMinimumOnly(run: int -> int)
    requires run(1) == DISAGREE && run(2) == AGREE && run(3) == AGREE && run(4) == DISAGREE
    ensures Bisect(run, 1, 4) == Found(4)
  {
    assert Bisect(run, 3, 4) == Bisect(run, 4, 4);
  }

  /** m is the smallest disagreeing prefix of the window. */
  ghost predicate IsMinimum(run: int -> int, m: int, low: int, high: int) {
    low <= m <= high && run(m) == DISAGREE && forall j | low <= j < m :: run(j) != DISAGREE
  }

  /** The midpoints that a binary search for m itself would visit: those at or above m
      must disagree, those below must agree. */
  predicate Keeps(run: int -> int, m: int, low: int, high: int)
    requires 1 <= low <= high
    decreases high - low
  {
    low == high
    || var mid := Middle(low, high);
       if m <= mid then run(mid) == DISAGREE && Keeps(run, m, low, mid)
       else run(mid) == AGREE && Keeps(run, m, mid + 1, high)
  }

  /** The loop finds the smallest disagreeing prefix m exactly when the runner tells
      the two sides of m apart at the midpoints on the way to m. */
  lemma {:induction false} FindsMinimumIff(run: int -> int, m: int, low: int, high: int)
    requires 1 <= low <= high && IsMinimum(run, m, low, high)
    ensures Bisect(run, low, high) == Found(m) <==> Keeps(run, m, low, high)
    decreases high - low
  {
    if low < high {
      var mid := Middle(low, high);
      if run(mid) == DISAGREE {
        FindsMinimumIff(run, m, low, mid);
      } else if m <= mid {
        BisectStaysIn(run, mid + 1, high);
      } else if run(mid) == AGREE {
        FindsMinimumIff(run, m, mid + 1, high);
      }
    }
  }

  lemma {:induction false} BisectStaysIn(run: int -> int, low: int, high: int)
    requires 1 <= low <= high
    ensures Bisect(run, low, high).Found? ==> low <= Bisect(run, low, high).cases <= high
    decreases high - low
  {
    if low < high {
      var mid := Middle(low, high);
      if run(mid) == DISAGREE {
        BisectStaysIn(run, low, mid);
      } else if run(mid) == AGREE {
        BisectStaysIn(run, mid + 1, high);
      }
    }
  }

  /** A runner that only ever agrees or disagrees is always bisected to the end. */
  lemma {:induction false} AlwaysFinds(run: int -> int, low: int, high: int)
    requires 1 <= low <= high && forall k | low <= k < high :: run(k) == AGREE || run(k) == DISAGREE
    ensures Bisect(run, low, high).Found?
    decreases high - low
  {
    if low < high {
      var mid := Middle(low, high);
      if run(mid) == DISAGREE {
        AlwaysFinds(run, low, mid);
      } else {
        AlwaysFinds(run, mid + 1, high);
      }
    }
  }
}
