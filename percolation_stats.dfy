/**
 * Monte Carlo estimation of the percolation threshold: T trials, each on a fresh
 * N-by-N grid, opening closed sites drawn at random until the system percolates and
 * recording the fraction of open sites. The random source is a parameter: a sequence
 * of drawn sites, consumed in order from one trial to the next.
 */
module PercolationStats {
  import opened Wrappers
  import opened Grid
  import opened Percolation

  datatype StatsError = IllegalArgument | DrawsExhausted

  /** The grid of an all-blocked N-by-N system after the sites of `draws` were opened. */
  function OpenedBy(N: int, draws: seq<Site>): (g: seq<bool>)
    requires N > 0
    ensures |g| == N * N
    decreases |draws|
  {
    if |draws| == 0 then seq(N * N, _ => false)
    else
      var s := draws[|draws| - 1];
      var g := OpenedBy(N, draws[..|draws| - 1]);
      if InGrid(N, s) then
        SiteIDRange(N, s.row, s.col);
        g[SiteID(N, s.row, s.col) := true]
      else g
  }

  /** The open sites of OpenedBy(N, draws) are exactly the drawn ones. */
  lemma {:induction false} OpenedByMeaning(N: int, draws: seq<Site>, k: int)
    requires N > 0 && 0 <= k < N * N
    ensures OpenedBy(N, draws)[k] <==>
      exists m :: 0 <= m < |draws| && InGrid(N, draws[m]) && SiteID(N, draws[m].row, draws[m].col) == k
    decreases |draws|
  {
    if |draws| > 0 {
      var before := draws[..|draws| - 1];
      assert forall m :: 0 <= m < |before| ==> before[m] == draws[m];
      OpenedByMeaning(N, before, k);
    }
  }

  /** Drawing site draws[k] opens it on top of the first k draws. */
  lemma OpenedByStep(N: int, draws: seq<Site>, k: nat)
    requires N > 0 && k < |draws| && InGrid(N, draws[k])
    ensures 0 <= SiteID(N, draws[k].row, draws[k].col) < N * N
    ensures OpenedBy(N, draws[..k + 1]) == OpenedBy(N, draws[..k])[SiteID(N, draws[k].row, draws[k].col) := true]
  {
    SiteIDRange(N, draws[k].row, draws[k].col);
    assert draws[..k + 1][..k] == draws[..k];
  }

  /** The number of open sites of grid g. */
  function OpenCount(g: seq<bool>): (c: nat)
    ensures c <= |g|
    ensures c == 0 <==> forall k :: 0 <= k < |g| ==> !g[k]
    decreases |g|
  {
    if |g| == 0 then 0
    else
      var rest := g[..|g| - 1];
      assert forall k :: 0 <= k < |rest| ==> rest[k] == g[k];
      OpenCount(rest) + (if g[|g| - 1] then 1 else 0)
  }

  /** Opening one blocked site adds one to the count. */
  lemma {:induction false} OpenCountOpen(g: seq<bool>, x: int)
    requires 0 <= x < |g| && !g[x]
    ensures OpenCount(g[x := true]) == OpenCount(g) + 1
    decreases |g|
  {
    var h := g[x := true];
    if x == |g| - 1 {
      assert h[..|h| - 1] == g[..|g| - 1];
    } else {
      assert h[..|h| - 1] == g[..|g| - 1][x := true];
      OpenCountOpen(g[..|g| - 1], x);
    }
  }

  /**
   * Whether the system percolates after each prefix of `draws`: entry k says whether it
   * does once the first k draws are opened.
   */
  ghost function Trace(N: int, draws: seq<Site>): (t: seq<bool>)
    requires N > 0
    ensures |t| == |draws| + 1
  {
    seq(|draws| + 1, k requires 0 <= k <= |draws| => Percolating(N, OpenedBy(N, draws[..k])))
  }

  lemma TraceAt(N: int, draws: seq<Site>, k: nat)
    requires N > 0 && k <= |draws|
    ensures Trace(N, draws)[k] <==> Percolating(N, OpenedBy(N, draws[..k]))
  {
  }

  /** The first index from m on whose flag is set, if any. */
  function FirstFrom(flags: seq<bool>, m: nat): (r: Option<nat>)
    requires m <= |flags|
    ensures r.Some? ==> m <= r.value < |flags| && flags[r.value]
    decreases |flags| - m
  {
    if m == |flags| then None
    else if flags[m] then Some(m)
    else FirstFrom(flags, m + 1)
  }

  /** FirstFrom finds the least set flag from m on, and None exactly when there is none. */
  lemma {:induction false} FirstFromLeast(flags: seq<bool>, m: nat)
    requires m <= |flags|
    ensures var r := FirstFrom(flags, m);
      && (r.Some? ==> forall k :: m <= k < r.value ==> !flags[k])
      && (r.None? <==> forall k :: m <= k < |flags| ==> !flags[k])
    decreases |flags| - m
  {
    if m < |flags| && !flags[m] {
      FirstFromLeast(flags, m + 1);
    }
  }

  /**
   * The length of the shortest prefix of `draws` whose sites make the system percolate,
   * if any: a trial that starts on `draws` stops after that many draws.
   */
  ghost function FirstPercolating(N: int, draws: seq<Site>): (r: Option<nat>)
    requires N > 0
  {
    FirstFrom(Trace(N, draws), 0)
  }

  /** FirstPercolating is the least percolating prefix length, and None when no prefix percolates. */
  lemma FirstPercolatingLeast(N: int, draws: seq<Site>)
    requires N > 0
    ensures var r := FirstPercolating(N, draws);
      && (r.Some? ==> r.value <= |draws| && Percolating(N, OpenedBy(N, draws[..r.value])))
      && (r.Some? ==> forall k :: 0 <= k < r.value ==> !Percolating(N, OpenedBy(N, draws[..k])))
      && (r.None? <==> forall k :: 0 <= k <= |draws| ==> !Percolating(N, OpenedBy(N, draws[..k])))
  {
    var t := Trace(N, draws);
    FirstFromLeast(t, 0);
    forall k | 0 <= k <= |draws|
      ensures t[k] <==> Percolating(N, OpenedBy(N, draws[..k]))
    {
      TraceAt(N, draws, k);
    }
  }

  /** The fraction of the N*N sites that `openSites` open sites make. */
  function Fraction(openSites: nat, N: int): real
    requires N > 0
  {
    openSites as real / (N * N) as real
  }

  /** The threshold a trial records: open sites over all sites. */
  ghost function Threshold(N: int, prefix: seq<Site>): real
    requires N > 0
  {
    Fraction(OpenCount(OpenedBy(N, prefix)), N)
  }

  /** A percolating grid has at least one open site, so its threshold lies in (0, 1]. */
  lemma ThresholdInRange(N: int, prefix: seq<Site>)
    requires N > 0 && Percolating(N, OpenedBy(N, prefix))
    ensures 0.0 < Threshold(N, prefix) <= 1.0
  {
    var g := OpenedBy(N, prefix);
    if OpenCount(g) == 0 {
      ClosedDoesNotPercolate(N, g);
    }
    FractionInRange(OpenCount(g), N * N);
  }

  lemma FractionInRange(c: int, n: int)
    requires 0 < c <= n
    ensures 0.0 < c as real / n as real <= 1.0
  {
    var q := c as real / n as real;
    assert q * n as real == c as real;
  }

  /**
   * The thresholds of T trials run one after another on the draws from `pos` on, or
   * None when the draws run out before the last trial percolates.
   */
  ghost function Experiment(N: int, T: nat, draws: seq<Site>, pos: nat): Option<seq<real>>
    requires N > 0 && pos <= |draws|
    decreases T, 1
  {
    if T == 0 then Some([]) else TrialsFrom(N, T, draws, pos)
  }

  /** The first of T > 0 trials, started at draw `pos`, then the T - 1 after it. */
  ghost function TrialsFrom(N: int, T: nat, draws: seq<Site>, pos: nat): Option<seq<real>>
    requires N > 0 && T > 0 && pos <= |draws|
    decreases T, 0
  {
    match FirstPercolating(N, draws[pos..])
    case None => None
    case Some(m) => Prepend([Threshold(N, draws[pos..pos + m])], Experiment(N, T - 1, draws, pos + m))
  }


  /** A completed experiment has one threshold per trial, each in (0, 1]. */
  lemma {:induction false} ExperimentInRange(N: int, T: nat, draws: seq<Site>, pos: nat)
    requires N > 0 && pos <= |draws| && Experiment(N, T, draws, pos).Some?
    ensures |Experiment(N, T, draws, pos).value| == T
    ensures forall k :: 0 <= k < T ==> 0.0 < Experiment(N, T, draws, pos).value[k] <= 1.0
    decreases T
  {
    if T > 0 {
      FirstPercolatingLeast(N, draws[pos..]);
      var m := FirstPercolating(N, draws[pos..]).value;
      assert draws[pos..][..m] == draws[pos..pos + m];
      ThresholdInRange(N, draws[pos..pos + m]);
      ExperimentInRange(N, T - 1, draws, pos + m);
    }
  }

  /** `o` with `p` in front of its value. */
  function Prepend<X>(p: seq<X>, o: Option<seq<X>>): Option<seq<X>> {
    if o.None? then None else Some(p + o.value)
  }

  lemma PrependEmpty<X>(o: Option<seq<X>>)
    ensures Prepend([], o) == o
  {
    if o.Some? {
      assert [] + o.value == o.value;
    }
  }

  lemma PrependTwice<X>(p: seq<X>, q: seq<X>, o: Option<seq<X>>)
    ensures Prepend(p, Prepend(q, o)) == Prepend(p + q, o)
  {
    if o.Some? {
      assert p + (q + o.value) == (p + q) + o.value;
    }
  }

  /**
   * A trial that starts at `pos` and percolates after `used` draws, with `openSites`
   * sites open, appends its threshold to those recorded before it.
   */
  lemma ExperimentAdvance(N: int, T: nat, draws: seq<Site>, pos: nat, used: nat, openSites: nat, done: seq<real>)
    requires N > 0 && T > 0 && pos <= |draws| && FirstPercolating(N, draws[pos..]) == Some(used)
    requires used <= |draws| - pos && openSites == OpenCount(OpenedBy(N, draws[pos..][..used]))
    ensures Prepend(done, Experiment(N, T, draws, pos)) ==
      Prepend(done + [Fraction(openSites, N)], Experiment(N, T - 1, draws, pos + used))
  {
    assert draws[pos..][..used] == draws[pos..pos + used];
    PrependTwice(done, [Fraction(openSites, N)], Experiment(N, T - 1, draws, pos + used));
  }

  /** After the last trial nothing more is prepended. */
  lemma ExperimentDone(N: int, draws: seq<Site>, pos: nat, done: seq<real>)
    requires N > 0 && pos <= |draws|
    ensures Prepend(done, Experiment(N, 0, draws, pos)) == Some(done)
  {
    assert done + [] == done;
  }

  /** A trial that never percolates leaves the experiment without a result. */
  lemma ExperimentExhausted(N: int, T: nat, draws: seq<Site>, pos: nat, done: seq<real>)
    requires N > 0 && T > 0 && pos <= |draws| && FirstPercolating(N, draws[pos..]).None?
    ensures Prepend(done, Experiment(N, T, draws, pos)).None?
  {
  }

  /**
   * One trial: on a fresh grid, until the system percolates, draw the next site and,
   * if it is blocked, open it and count it.
   */
  method RunTrial(N: int, draws: seq<Site>) returns (openSites: nat, used: nat, percolated: bool)
    requires N > 0 && N * N + 2 <= INT_MAX
    requires forall k :: 0 <= k < |draws| ==> InGrid(N, draws[k])
    ensures percolated <==> FirstPercolating(N, draws).Some?
    ensures percolated ==> FirstPercolating(N, draws) == Some(used)
    ensures used <= |draws| && openSites == OpenCount(OpenedBy(N, draws[..used]))
    ensures 0 < openSites <= N * N || !percolated
  {
    var perc := new Percolation(N);
    openSites, used := 0, 0;
    assert draws[..0] == [];
    assert perc.grid[..] == OpenedBy(N, draws[..0]);
    percolated := perc.Percolates();
    TraceAt(N, draws, 0);
    while !percolated && used < |draws|
      invariant fresh(perc) && fresh(perc.grid) && fresh(perc.quickUF) && fresh(perc.auxUF)
      invariant perc.Valid() && perc.N == N && used <= |draws|
      invariant perc.grid[..] == OpenedBy(N, draws[..used])
      invariant openSites == OpenCount(perc.grid[..])
      invariant percolated == Trace(N, draws)[used]
      invariant FirstPercolating(N, draws) == FirstFrom(Trace(N, draws), used)
      decreases |draws| - used
    {
      var newlyOpen;
      newlyOpen, percolated := DrawSite(perc, draws, used);
      if newlyOpen {
        openSites := openSites + 1;
      }
      used := used + 1;
    }
    if percolated {
      ThresholdInRange(N, draws[..used]);
    }
  }

  /**
   * The next trial of an experiment with `remaining` trials to go, started at draw `pos`
   * after the thresholds `done` were recorded: its threshold, if it percolates, and the
   * draw the trial after it starts at.
   */
  method NextTrial(N: int, draws: seq<Site>, pos: nat, ghost remaining: nat, ghost done: seq<real>)
    returns (percolated: bool, threshold: real, next: nat)
    requires N > 0 && N * N + 2 <= INT_MAX && pos <= |draws| && remaining > 0
    requires forall k :: 0 <= k < |draws| ==> InGrid(N, draws[k])
    ensures !percolated ==> Prepend(done, Experiment(N, remaining, draws, pos)).None?
    ensures percolated ==> next <= |draws|
    ensures percolated ==> (Prepend(done, Experiment(N, remaining, draws, pos)) ==
      Prepend(done + [threshold], Experiment(N, remaining - 1, draws, next)))
  {
    var openSites, used;
    openSites, used, percolated := RunTrial(N, draws[pos..]);
    threshold := Fraction(openSites, N);
    next := pos + used;
    if percolated {
      ExperimentAdvance(N, remaining, draws, pos, used, openSites, done);
    } else {
      ExperimentExhausted(N, remaining, draws, pos, done);
    }
  }

  /**
   * One step of a trial: open the drawn site draws[used] if it is still blocked, then
   * ask whether the system percolates.
   */
  method DrawSite(perc: Percolation, draws: seq<Site>, used: nat) returns (newlyOpen: bool, percolated: bool)
    requires perc.Valid() && perc.N > 0 && used < |draws| && InGrid(perc.N, draws[used])
    requires perc.grid[..] == OpenedBy(perc.N, draws[..used])
    modifies perc, perc.grid, perc.quickUF, perc.auxUF
    ensures perc.Valid() && perc.grid[..] == OpenedBy(perc.N, draws[..used + 1])
    ensures OpenCount(perc.grid[..]) == OpenCount(old(perc.grid[..])) + (if newlyOpen then 1 else 0)
    ensures percolated == Trace(perc.N, draws)[used + 1]
  {
    var site := draws[used];
    OpenedByStep(perc.N, draws, used);
    newlyOpen := OpenIfClosed(perc, site.row, site.col);
    percolated := perc.Percolates();
    TraceAt(perc.N, draws, used + 1);
  }

  /** The body of a trial's loop for drawn site (i, j): open it if it is still blocked. */
  method OpenIfClosed(perc: Percolation, i: int, j: int) returns (newlyOpen: bool)
    requires perc.Valid() && InGrid(perc.N, Site(i, j))
    modifies perc.grid, perc.quickUF, perc.auxUF
    ensures perc.Valid()
    ensures newlyOpen <==> !IsOpenSite(perc.N, old(perc.grid[..]), Site(i, j))
    ensures 0 <= SiteID(perc.N, i, j) < perc.grid.Length
    ensures perc.grid[..] == old(perc.grid[..])[SiteID(perc.N, i, j) := true]
    ensures OpenCount(perc.grid[..]) == OpenCount(old(perc.grid[..])) + (if newlyOpen then 1 else 0)
  {
    ghost var g := perc.grid[..];
    SiteIDRange(perc.N, i, j);
    newlyOpen := !perc.IsOpen(i, j).value;
    if newlyOpen {
      var outcome := perc.Open(i, j);
      assert perc.grid[..] == g[SiteID(perc.N, i, j) := true];
      OpenCountOpen(g, SiteID(perc.N, i, j));
    } else {
      assert g[SiteID(perc.N, i, j) := true] == g;
    }
  }

  class PercolationStats {
    const N: int
    const T: int
    const thresholds: array<real>  // one slot per trial

    /** Allocation only; the argument check is made by NewPercolationStats. */
    constructor (N: int, T: int)
      requires N > 0 && T > 0
      ensures this.N == N && this.T == T && thresholds.Length == T && fresh(thresholds)
    {
      this.N := N;
      this.T := T;
      thresholds := new real[T];
    }

    /**
     * Runs the T trials in order, each on the draws the previous ones left, and writes
     * the threshold of trial i into slot i; reports whether the draws ran out first.
     */
    method Execute(draws: seq<Site>) returns (exhausted: bool)
      requires N > 0 && T > 0 && N * N + 2 <= INT_MAX && thresholds.Length == T
      requires forall k :: 0 <= k < |draws| ==> InGrid(N, draws[k])
      modifies thresholds
      ensures exhausted <==> Experiment(N, T, draws, 0).None?
      ensures !exhausted ==> Experiment(N, T, draws, 0) == Some(thresholds[..])
    {
      var pos: nat := 0;
      PrependEmpty(Experiment(N, T, draws, 0));
      for i := 0 to T
        invariant pos <= |draws|
        invariant Experiment(N, T, draws, 0) == Prepend(thresholds[..i], Experiment(N, T - i, draws, pos))
      {
        var percolated, threshold, next := NextTrial(N, draws, pos, T - i, thresholds[..i]);
        if !percolated {
          return true;
        }
        ghost var done := thresholds[..i];
        thresholds[i] := threshold;
        assert thresholds[..i + 1] == done + [threshold];
        pos := next;
      }
      ExperimentDone(N, draws, pos, thresholds[..T]);
      assert thresholds[..] == thresholds[..T];
      exhausted := false;
    }

    /**
     * The sample standard deviation, given the value the statistics library computes
     * from the thresholds: there is none for a single trial.
     */
    function Stddev(sampleStddev: real): (r: Option<real>)
      ensures r.None? <==> T == 1
      ensures r.Some? ==> r.value == sampleStddev
    {
      if T == 1 then None else Some(sampleStddev)
    }
  }

  /**
   * The experiment: rejects a non-positive N or T before allocating anything, then runs
   * the trials on `draws`.
   */
  method NewPercolationStats(N: int, T: int, draws: seq<Site>) returns (r: Result<PercolationStats, StatsError>)
    requires N > 0 && T > 0 ==> N * N + 2 <= INT_MAX
    requires N > 0 && T > 0 ==> forall k :: 0 <= k < |draws| ==> InGrid(N, draws[k])
    ensures r == Err(IllegalArgument) <==> N <= 0 || T <= 0
    ensures r == Err(DrawsExhausted) <==> N > 0 && T > 0 && Experiment(N, T, draws, 0).None?
    ensures r.Ok? ==> r.value.N == N && r.value.T == T && fresh(r.value.thresholds)
    ensures r.Ok? ==> r.value.thresholds[..] == Experiment(N, T, draws, 0).value
    ensures r.Ok? ==> r.value.thresholds.Length == T
    ensures r.Ok? ==> forall k :: 0 <= k < T ==> 0.0 < r.value.thresholds[k] <= 1.0
  {
    if N <= 0 || T <= 0 {
      return Err(IllegalArgument);
    }
    var stats := new PercolationStats(N, T);
    var exhausted := stats.Execute(draws);
    if exhausted {
      return Err(DrawsExhausted);
    }
    ExperimentInRange(N, T, draws, 0);
    return Ok(stats);
  }
}
