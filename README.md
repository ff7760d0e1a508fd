# Percolation, modelled in Dafny

A model of the percolation assignment (Algorithms Part I): an N-by-N grid of sites,
each blocked or open. The system percolates when an open path leads from the top row
to the bottom row. The grid is tracked with two union-find forests:

- `quickUF` has a virtual top (index 0) and a virtual bottom (index N*N+1). It answers
  whether the system percolates.
- `auxUF` has the virtual top only. It answers whether a site is full, so a site that
  is joined to the bottom only is never reported full (no backwash).

On top of the grid, the Monte Carlo experiment runs T trials. Each trial opens drawn
sites on a fresh grid until the system percolates, and records the fraction of open
sites.

Files:

- `wrappers.dfy`: `Option`, `Result` and `Outcome`. These stand in for the source's
  exceptions and its NaN.
- `union_find.dfy`: the union-find forest, given by its contract only.
  - `Joined` is the equivalence closure of the unions made so far.
  - `Forest` keeps quick-find labels that agree with `Joined`.
- `grid.dfy`: sites and the source's site-ID mapping `N*i - j`, and the meaning of
  "full" and "percolates" as open paths.
- `percolation.dfy`: the `Percolation` class, with `Open`, `IsOpen`, `IsFull` and
  `Percolates`. Its invariant `Valid` has three parts:
  - `Sound`: every union joins sites that the grid connects.
  - `Complete`: everything the grid connects directly has been united.
  - A cached `true` in `percolatedSystem` means that top and bottom are connected in
    `quickUF`, so the cached answer of `Percolates` stays correct.

  Together they give `IsFull` and `Percolates` their path meaning.
- `percolation_stats.dfy`: the trial loop and the experiment.
  - The random source is an injected sequence of drawn sites.
  - `Experiment` is the reference definition of the thresholds that the trials record.
- `scenarios.dfy`: fixed runs of the system: the 1-by-1 grid, a repeated `open`, and
  the backwash case on a 3-by-3 grid.

The site-ID mapping sends site (1, N) to index 0, which is also `TOP_INDEX`. This is
harmless: that site is in row 1, so whenever it is open it is united with the top
anyway. `SiteIDRange` states the collision. `IsFull` and `Percolates` state the
consequence: their answers agree with the path meaning.

## Model

| member | source | states |
|---|---|---|
| UnionFind.Joined | Assignment01-Percolation/src/Percolation.java:118 | what `connected` answers, as a definition with no contract of its own: the equivalence closure of the unions made so far; JoinedReflexive, JoinedSymmetric, JoinedTransitive, JoinedContainsUnions and JoinedRespects state its properties, and `Forest.Valid` ties the labels to it |
| UnionFind.JoinedReflexive | Assignment01-Percolation/src/Percolation.java:118 | every element is connected to itself |
| UnionFind.JoinedSymmetric | Assignment01-Percolation/src/Percolation.java:118 | connectedness is symmetric |
| UnionFind.JoinedTransitive | Assignment01-Percolation/src/Percolation.java:118 | connectedness is transitive |
| UnionFind.JoinedContainsUnions | Assignment01-Percolation/src/Percolation.java:64-91 | after `union(p, q)`, p and q are connected |
| UnionFind.JoinedRespects | Assignment01-Percolation/src/Percolation.java:63-92 | a property on which every union agrees holds on both sides of every connection; this is the induction principle behind the soundness lemmas |
| UnionFind.Forest.constructor | Assignment01-Percolation/src/Percolation.java:46-47 | a forest of n elements with no unions |
| UnionFind.Forest.Connected | Assignment01-Percolation/src/Percolation.java:118 | `connected(p, q)` is exactly membership in the equivalence closure of the unions |
| UnionFind.Forest.Union | Assignment01-Percolation/src/Percolation.java:64 | records the union; p and q become connected; classes only merge, and a and b are connected after it exactly when they were before, or a was connected to one of p, q and b to the other |
| Grid.SiteID | Assignment01-Percolation/src/Percolation.java:143-145 | the source's site-ID formula, with no contract of its own: SiteIDRange, SiteAtSiteID, SiteIDSiteAt and SiteIDInjective state its range, its inverse and its injectivity |
| Grid.SiteIDRange | Assignment01-Percolation/src/Percolation.java:143-145 | for an in-grid site the ID lies in [0, N*N); it equals `TOP_INDEX` exactly for site (1, N) |
| Grid.SiteAtSiteID | Assignment01-Percolation/src/Percolation.java:143-145 | decoding an ID gives back the site |
| Grid.SiteIDSiteAt | Assignment01-Percolation/src/Percolation.java:143-145 | every ID in [0, N*N) is the ID of exactly the in-grid site it decodes to |
| Grid.SiteIDInjective | Assignment01-Percolation/src/Percolation.java:143-145 | distinct in-grid sites get distinct IDs |
| Grid.IsFullSite | Assignment01-Percolation/src/Percolation.java:109 | the meaning of "full" as a definition, with no contract of its own: an open path leads to the site from an open top-row site; IsFull is proved to answer it |
| Grid.Percolating | Assignment01-Percolation/src/Percolation.java:124-125 | the meaning of "percolates" as a definition, with no contract of its own: an open path joins the top row to the bottom row; Percolates is proved to answer it |
| Grid.FullIsOpen | Assignment01-Percolation/src/Percolation.java:115-121 | a full site is open |
| Grid.TopRowFull | Assignment01-Percolation/src/Percolation.java:63-65 | an open top-row site is full |
| Grid.FullSpreads | Assignment01-Percolation/src/Percolation.java:76-92 | an open neighbour of a full site is full |
| Grid.FullBottomPercolates | Assignment01-Percolation/src/Percolation.java:123-127 | a full bottom-row site makes the system percolate |
| Grid.FullMonotone | Assignment01-Percolation/src/Percolation.java:115-121 | opening more sites keeps a full site full |
| Grid.PercolatingMonotone | Assignment01-Percolation/src/Percolation.java:129-134 | opening more sites keeps a percolating system percolating |
| Grid.OpeningMonotone | Assignment01-Percolation/src/Percolation.java:129-134 | both monotonicity facts, for all sites at once |
| Grid.ClosedDoesNotPercolate | Assignment01-Percolation/src/PercolationStats.java:44-46 | a fresh all-blocked grid does not percolate |
| Grid.AllOpenPercolates | Assignment01-Percolation/src/PercolationStats.java:46 | with every site open the system percolates (N >= 1), so a trial that reaches a full grid stops |
| Grid.SingleSitePercolates | Assignment01-Percolation/src/Percolation.java:63-68 | for N = 1 the single open site makes the system percolate |
| Percolation.VerifyIndex | Assignment01-Percolation/src/Percolation.java:153-158 | no error exactly for in-grid indices; a row error exactly when the row is out of range, whatever the column; a column error exactly when only the column is |
| Percolation.LinkGrows | Assignment01-Percolation/src/Percolation.java:61 | a union justified by a grid stays justified once more sites are open |
| Percolation.FullAtIndex | Assignment01-Percolation/src/Percolation.java:63-65 | an open site whose ID is full-or-top is full; ID 0, shared with TOP_INDEX, is site (1, N) in the top row |
| Percolation.AuxLinkRespectsFull | Assignment01-Percolation/src/Percolation.java:63-92 | every `auxUF` union joins two elements that are both full or both not |
| Percolation.QuickLinkRespectsFullOrPercolating | Assignment01-Percolation/src/Percolation.java:63-92 | every `quickUF` union keeps "full, or bottom with percolation" on both sides |
| Percolation.AuxHistorySound | Assignment01-Percolation/src/Percolation.java:63-92 | an element connected to the top in `auxUF` belongs to a full site |
| Percolation.QuickHistorySound | Assignment01-Percolation/src/Percolation.java:63-92 | top connected to bottom in `quickUF` implies the system percolates |
| Percolation.OpenedBefore | Assignment01-Percolation/src/Percolation.java:61 | after marking one site open, every other open site was open before |
| Percolation.OpenKeepsTopComplete | Assignment01-Percolation/src/Percolation.java:63-65 | after `open`, every open top-row site is connected to the top in both forests |
| Percolation.OpenKeepsBottomComplete | Assignment01-Percolation/src/Percolation.java:66-68 | after `open`, every open bottom-row site is connected to the bottom in `quickUF` |
| Percolation.OpenKeepsNeighboursComplete | Assignment01-Percolation/src/Percolation.java:70-92 | after `open`, every two adjacent open sites are connected in both forests |
| Percolation.NeighboursLinked | Assignment01-Percolation/src/Percolation.java:70-92 | the vertical and the horizontal unions together connect the site to every open neighbour |
| Percolation.PathLinked | Assignment01-Percolation/src/Percolation.java:115-121 | every site of an open path from the top row is connected to the top in both forests |
| Percolation.FullLinked | Assignment01-Percolation/src/Percolation.java:115-121 | a full site is connected to the top in `auxUF` |
| Percolation.PercolatingLinked | Assignment01-Percolation/src/Percolation.java:129-134 | a percolating grid has the top connected to the bottom in `quickUF` |
| Percolation.Percolation.constructor | Assignment01-Percolation/src/Percolation.java:40-48 | all sites blocked, forests of N*N+2 and N*N+1 elements, not percolated, invariant established |
| Percolation.Percolation.IsOpen | Assignment01-Percolation/src/Percolation.java:103-106 | index error exactly off the grid, with `verifyIndex`'s error; otherwise the stored state of the site |
| Percolation.Percolation.Open | Assignment01-Percolation/src/Percolation.java:57-94 | index error exactly off the grid, with nothing changed; nothing changes for an open site; otherwise exactly that site's cell becomes open; no cell closes; the invariant is kept |
| Percolation.Percolation.LinkVirtual | Assignment01-Percolation/src/Percolation.java:63-68 | a row-1 site is connected to the top in both forests; independently, a row-N site is connected to the bottom in `quickUF` only |
| Percolation.Percolation.UniteWithTop | Assignment01-Percolation/src/Percolation.java:63-65 | the row-1 site is connected to the top in both forests |
| Percolation.Percolation.UniteWithBottom | Assignment01-Percolation/src/Percolation.java:66-68 | the row-N site is connected to the bottom in `quickUF`; `auxUF` is untouched |
| Percolation.Percolation.LinkNeighbours | Assignment01-Percolation/src/Percolation.java:70-92 | the site is connected to every open grid neighbour in both forests; unions stay justified |
| Percolation.Percolation.LinkVertical | Assignment01-Percolation/src/Percolation.java:73-84 | connected to the open site below and above, if in the grid |
| Percolation.Percolation.LinkHorizontal | Assignment01-Percolation/src/Percolation.java:71-72 | connected to the open site right and left, if in the grid (unions at lines 85-92) |
| Percolation.Percolation.UniteWithOpenPair | Assignment01-Percolation/src/Percolation.java:77-92 | two neighbour tests in a row: each open in-grid neighbour is connected |
| Percolation.Percolation.UniteWithOpen | Assignment01-Percolation/src/Percolation.java:77-80 | an open in-grid neighbour is connected in both forests; every union made stays justified by the grid |
| Percolation.Percolation.AuxConnectedIffFull | Assignment01-Percolation/src/Percolation.java:115-121 | an open site is connected to the top in `auxUF` exactly when it is full |
| Percolation.Percolation.QuickConnectedIffPercolating | Assignment01-Percolation/src/Percolation.java:129-134 | top connected to bottom in `quickUF` exactly when the system percolates |
| Percolation.Percolation.AuxWithinQuick | Assignment01-Percolation/src/Percolation.java:63-92 | `auxUF.connected(a, b)` implies `quickUF.connected(a, b)` |
| Percolation.Percolation.IsFull | Assignment01-Percolation/src/Percolation.java:115-121 | index error exactly off the grid; otherwise true exactly when an open path leads to the site from the top row; a full site is open |
| Percolation.Percolation.Percolates | Assignment01-Percolation/src/Percolation.java:129-134 | true exactly when an open path joins top and bottom rows; the cached answer, once true, stays true |
| PercolationStats.OpenedBy | Assignment01-Percolation/src/PercolationStats.java:44-53 | the grid of a trial after the given draws has N*N cells |
| PercolationStats.OpenedByMeaning | Assignment01-Percolation/src/PercolationStats.java:47-50 | a cell of that grid is open exactly when some draw named its site |
| PercolationStats.OpenedByStep | Assignment01-Percolation/src/PercolationStats.java:49-50 | one more draw opens its site on top of the grid so far |
| PercolationStats.OpenCount | Assignment01-Percolation/src/PercolationStats.java:45 | the count of open cells is at most the grid size and zero exactly for an all-blocked grid |
| PercolationStats.OpenCountOpen | Assignment01-Percolation/src/PercolationStats.java:49-52 | opening a blocked cell adds one to the count |
| PercolationStats.Trace | Assignment01-Percolation/src/PercolationStats.java:46 | one percolation flag per prefix of the draws |
| PercolationStats.TraceAt | Assignment01-Percolation/src/PercolationStats.java:46 | flag k says whether the grid after the first k draws percolates |
| PercolationStats.FirstFrom | Assignment01-Percolation/src/PercolationStats.java:46 | the index found is in range and its flag is set |
| PercolationStats.FirstFromLeast | Assignment01-Percolation/src/PercolationStats.java:46 | no earlier flag is set, and there is no index exactly when no flag is set |
| PercolationStats.FirstPercolating | Assignment01-Percolation/src/PercolationStats.java:46 | where the `while (!perc.percolates())` loop of a trial stops, as a definition with no contract of its own: the length of the shortest percolating prefix of the draws; FirstPercolatingLeast states its properties |
| PercolationStats.FirstPercolatingLeast | Assignment01-Percolation/src/PercolationStats.java:46-53 | a trial stops after the shortest percolating prefix of draws; there is none exactly when no prefix percolates |
| PercolationStats.Fraction | Assignment01-Percolation/src/PercolationStats.java:54 | the recorded value `openSites / (N*N)`, with no contract of its own; its range is stated by ThresholdInRange |
| PercolationStats.Threshold | Assignment01-Percolation/src/PercolationStats.java:54 | the threshold of a trial as a definition: the fraction of sites open after the trial's draws; ThresholdInRange bounds it |
| PercolationStats.Experiment | Assignment01-Percolation/src/PercolationStats.java:42-56 | the reference definition of what `execute` records, with no contract of its own: T trials one after another, or no result when the draws run out; Execute is proved to write it and ExperimentInRange bounds it |
| PercolationStats.TrialsFrom | Assignment01-Percolation/src/PercolationStats.java:43-55 | one step of that definition, with no contract of its own: the first trial stops at the shortest percolating prefix of the remaining draws, records its threshold, and the next trial starts on the draws after it |
| PercolationStats.ThresholdInRange | Assignment01-Percolation/src/PercolationStats.java:54 | the threshold of a percolating grid lies in (0, 1] |
| PercolationStats.ExperimentInRange | Assignment01-Percolation/src/PercolationStats.java:36 | a finished experiment has one threshold per trial, each in (0, 1] |
| PercolationStats.ExperimentAdvance | Assignment01-Percolation/src/PercolationStats.java:43-55 | a percolating trial appends its threshold and hands the remaining draws to the next trial |
| PercolationStats.ExperimentDone | Assignment01-Percolation/src/PercolationStats.java:43 | after the last trial nothing more is recorded |
| PercolationStats.ExperimentExhausted | Assignment01-Percolation/src/PercolationStats.java:46-53 | a trial that never percolates leaves the experiment without a result |
| PercolationStats.RunTrial | Assignment01-Percolation/src/PercolationStats.java:44-53 | the trial stops exactly after the shortest percolating prefix of the draws; `openSites` equals the number of open cells of that grid, so it is at most N*N, and it is positive when the trial percolates |
| PercolationStats.NextTrial | Assignment01-Percolation/src/PercolationStats.java:44-54 | the trial's threshold `openSites/(N*N)` is the next value of the experiment |
| PercolationStats.DrawSite | Assignment01-Percolation/src/PercolationStats.java:47-53 | the drawn site is open afterwards, the count grows by one exactly when it was blocked, and the percolation answer is that of the grid after this draw |
| PercolationStats.OpenIfClosed | Assignment01-Percolation/src/PercolationStats.java:49-52 | an in-grid draw never raises an index error; a blocked site is opened and counted, an open one is left alone |
| PercolationStats.PercolationStats.constructor | Assignment01-Percolation/src/PercolationStats.java:36-38 | a fresh array with one slot per trial |
| PercolationStats.PercolationStats.Execute | Assignment01-Percolation/src/PercolationStats.java:42-56 | the thresholds written are exactly those of the reference experiment, trial i in slot i; it reports when the draws run out |
| PercolationStats.PercolationStats.Stddev | Assignment01-Percolation/src/PercolationStats.java:68-73 | no value exactly when T == 1; otherwise the library's value |
| PercolationStats.NewPercolationStats | Assignment01-Percolation/src/PercolationStats.java:32-40 | an argument error exactly when N <= 0 or T <= 0, for every int N and T, before anything is allocated; otherwise the thresholds of the experiment, T of them, each in (0, 1], or an exhaustion error exactly when the draws run out |
| Scenarios.SingleSiteOpens | Assignment01-Percolation/src/Percolation.java:57-68 | on a 1-by-1 grid, `open(1, 1)` followed by `percolates()` answers true |
| Scenarios.ReopenChangesNothing | Assignment01-Percolation/src/Percolation.java:57-61 | a second `open` of the same site leaves the grid and the `quickUF` labels unchanged |
| Scenarios.BottomRowIsNotFull | Assignment01-Percolation/src/Percolation.java:115-121 | with the bottom row of a 3-by-3 grid open, site (3, 1) is joined to the virtual bottom in `quickUF` but `isFull(3, 1)` is false (no backwash) |

## Left out

- `WeightedQuickUnionUF`: its weighting and path compression are not part of this model. `Forest` keeps quick-find labels and states only the connectivity contract.
- `StdRandom`: the random draws are an injected sequence of sites, each in the grid.
  - A trial that uses up the draws without percolating is reported as `DrawsExhausted`; the source has no such case, because its random source never runs out.
  - Termination with probability 1 is not modelled.
- `mean`, `confidenceLo` and `confidenceHi` are left out. So is the computation in `StdStats.stddev`. They are floating-point arithmetic and `Math.sqrt` over a foreign helper.
- PercolationStats.PercolationStats.Stddev: takes the library's standard deviation as a parameter instead of computing it, because that computation is foreign floating-point code.
- The `main` methods, `Integer.parseInt` and `StdOut.printf` are left out. They are argument parsing, printing and a demonstration driver.
- Thresholds are reals rather than doubles. Rounding is not modelled, and neither is the `double` counter (`openSites` is a natural number).
- Java `int` overflow is excluded, not modelled. The `Percolation` constructor requires N*N+2 to fit in an `int`, and then no site ID or forest size overflows. `NewPercolationStats` asks the same only when N > 0 and T > 0, so its argument check covers every `int`.
- Exceptions are values: `IndexOutOfBoundsException` becomes `Err`/`Fail` of an `IndexError`, and `IllegalArgumentException` becomes `Err(IllegalArgument)`.
- The Java constructor of `PercolationStats` checks its arguments, allocates and calls `execute`. In the model, `NewPercolationStats` does these three steps. The class constructor only allocates, and its callers must pass positive N and T.
- PercolationStats.PercolationStats.Execute: when the draws run out, says nothing of the slots already written, because the source has no such case.
