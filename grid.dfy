/**
 * Geometry of the N-by-N percolation grid and the meaning of "full" and "percolates"
 * in terms of paths of open sites. Rows and columns are 1-based. The open/closed state
 * of the sites is a sequence of booleans indexed by the source's own site-ID mapping.
 */
module Grid {

  datatype Site = Site(row: int, col: int)

  /** Index of the virtual top element in both forests; it is also the ID of site (1, N). */
  const TOP_INDEX := 0

  predicate InGrid(N: int, s: Site) {
    1 <= s.row <= N && 1 <= s.col <= N
  }

  /** The source's mapping of (row i, column j) to a forest element: N*i - j. */
  function SiteID(N: int, i: int, j: int): int {
    N * i - j
  }

  /** The site whose ID is x (the inverse of SiteID on the grid). */
  function SiteAt(N: int, x: int): Site
    requires N > 0
  {
    Site(x / N + 1, N - x % N)
  }

  /** SiteID maps the grid into [0, N*N), and only site (1, N) onto the top index. */
  lemma SiteIDRange(N: int, i: int, j: int)
    requires InGrid(N, Site(i, j))
    ensures 0 <= SiteID(N, i, j) < N * N
    ensures SiteID(N, i, j) == TOP_INDEX <==> i == 1 && j == N
  {
    assert N * i - N == N * (i - 1) >= 0;
    assert N * i <= N * N;
    if i > 1 {
      MulAtLeast(N, i - 1);
    }
  }

  /** Decoding an ID recovers the site. */
  lemma SiteAtSiteID(N: int, i: int, j: int)
    requires InGrid(N, Site(i, j))
    ensures SiteAt(N, SiteID(N, i, j)) == Site(i, j)
  {
    var x := SiteID(N, i, j);
    assert x == N * (i - 1) + (N - j);
    DivModUnique(N, x, i - 1, N - j);
  }

  /** Every ID in [0, N*N) belongs to exactly the site it decodes to. */
  lemma SiteIDSiteAt(N: int, x: int)
    requires N > 0 && 0 <= x < N * N
    ensures InGrid(N, SiteAt(N, x))
    ensures SiteID(N, SiteAt(N, x).row, SiteAt(N, x).col) == x
  {
    var q, r := x / N, x % N;
    assert x == N * q + r;
    if q >= N {
      MulMonotone(N, N, q);
    }
    assert N * (q + 1) - (N - r) == N * q + r;
  }

  lemma SiteIDInjective(N: int, s: Site, t: Site)
    requires InGrid(N, s) && InGrid(N, t)
    requires SiteID(N, s.row, s.col) == SiteID(N, t.row, t.col)
    ensures s == t
  {
    SiteAtSiteID(N, s.row, s.col);
    SiteAtSiteID(N, t.row, t.col);
  }

  lemma DivModUnique(N: int, x: int, q: int, r: int)
    requires N > 0 && 0 <= r < N && x == N * q + r
    ensures x / N == q && x % N == r
  {
    var q', r' := x / N, x % N;
    assert N * q' + r' == N * q + r;
    assert N * (q' - q) == r - r';
    if q' > q {
      MulAtLeast(N, q' - q);
    } else if q' < q {
      MulAtLeast(N, q - q');
    }
  }

  lemma MulAtLeast(N: int, d: int)
    requires N > 0 && d >= 1
    ensures N * d >= N
  {
    assert N * d == N * (d - 1) + N;
  }

  lemma MulMonotone(N: int, a: int, b: int)
    requires N > 0 && a <= b
    ensures N * a <= N * b
  {
    assert N * b == N * a + N * (b - a);
  }

  predicate IsOpenSite(N: int, g: seq<bool>, s: Site) {
    InGrid(N, s) && 0 <= SiteID(N, s.row, s.col) < |g| && g[SiteID(N, s.row, s.col)]
  }

  /** Grid neighbours: same row and next column, or same column and next row; no wrap-around. */
  predicate Adjacent(s: Site, t: Site) {
    || (s.row == t.row && (s.col == t.col + 1 || t.col == s.col + 1))
    || (s.col == t.col && (s.row == t.row + 1 || t.row == s.row + 1))
  }

  /** A non-empty walk through open sites, each step to a grid neighbour. */
  ghost predicate IsOpenPath(N: int, g: seq<bool>, path: seq<Site>) {
    && |path| > 0
    && (forall k :: 0 <= k < |path| ==> IsOpenSite(N, g, path[k]))
    && (forall k :: 0 <= k < |path| - 1 ==> Adjacent(path[k], path[k + 1]))
  }

  /** Site s is full: an open path leads to it from an open site of the top row. */
  ghost predicate IsFullSite(N: int, g: seq<bool>, s: Site) {
    exists path: seq<Site> {:trigger IsOpenPath(N, g, path)} :: IsOpenPath(N, g, path) && path[0].row == 1 && path[|path| - 1] == s
  }

  /** The system percolates: an open path leads from the top row to the bottom row. */
  ghost predicate Percolating(N: int, g: seq<bool>) {
    exists path: seq<Site> {:trigger IsOpenPath(N, g, path)} :: IsOpenPath(N, g, path) && path[0].row == 1 && path[|path| - 1].row == N
  }

  /** g2 has every site of g open, and possibly more. */
  predicate OpensMore(g: seq<bool>, g2: seq<bool>) {
    |g| == |g2| && forall k :: 0 <= k < |g| && g[k] ==> g2[k]
  }

  /** Only an open site can be full. */
  lemma FullIsOpen(N: int, g: seq<bool>, s: Site)
    ensures IsFullSite(N, g, s) ==> IsOpenSite(N, g, s)
  {
    if IsFullSite(N, g, s) {
      var path: seq<Site> :| IsOpenPath(N, g, path) && path[0].row == 1 && path[|path| - 1] == s;
      assert IsOpenSite(N, g, path[|path| - 1]);
    }
  }

  /** An open top-row site is full on its own. */
  lemma TopRowFull(N: int, g: seq<bool>, s: Site)
    requires IsOpenSite(N, g, s) && s.row == 1
    ensures IsFullSite(N, g, s)
  {
    assert IsOpenPath(N, g, [s]);
  }

  /** Fullness spreads to open neighbours. */
  lemma FullSpreads(N: int, g: seq<bool>, s: Site, t: Site)
    requires IsFullSite(N, g, s) && IsOpenSite(N, g, t) && Adjacent(s, t)
    ensures IsFullSite(N, g, t)
  {
    var path: seq<Site> :| IsOpenPath(N, g, path) && path[0].row == 1 && path[|path| - 1] == s;
    var longer := path + [t];
    assert forall k :: 0 <= k < |path| ==> longer[k] == path[k];
    assert IsOpenPath(N, g, longer);
  }

  /** A full site of the bottom row makes the system percolate. */
  lemma FullBottomPercolates(N: int, g: seq<bool>, s: Site)
    requires IsFullSite(N, g, s) && s.row == N
    ensures Percolating(N, g)
  {
    var path: seq<Site> :| IsOpenPath(N, g, path) && path[0].row == 1 && path[|path| - 1] == s;
    assert IsOpenPath(N, g, path) && path[0].row == 1 && path[|path| - 1].row == N;
  }

  /** Opening more sites never empties a full site. */
  lemma FullMonotone(N: int, g: seq<bool>, g2: seq<bool>, s: Site)
    requires OpensMore(g, g2) && IsFullSite(N, g, s)
    ensures IsFullSite(N, g2, s)
  {
    var path: seq<Site> :| IsOpenPath(N, g, path) && path[0].row == 1 && path[|path| - 1] == s;
    assert IsOpenPath(N, g2, path);
  }

  /** Opening more sites never stops a percolating system from percolating. */
  lemma PercolatingMonotone(N: int, g: seq<bool>, g2: seq<bool>)
    requires OpensMore(g, g2) && Percolating(N, g)
    ensures Percolating(N, g2)
  {
    var path: seq<Site> :| IsOpenPath(N, g, path) && path[0].row == 1 && path[|path| - 1].row == N;
    assert IsOpenPath(N, g2, path);
  }

  /** Opening sites keeps every full site full and a percolating system percolating. */
  lemma OpeningMonotone(N: int, g: seq<bool>, g2: seq<bool>)
    requires OpensMore(g, g2)
    ensures forall s :: IsFullSite(N, g, s) ==> IsFullSite(N, g2, s)
    ensures Percolating(N, g) ==> Percolating(N, g2)
  {
    forall s | IsFullSite(N, g, s)
      ensures IsFullSite(N, g2, s)
    {
      FullMonotone(N, g, g2, s);
    }
    if Percolating(N, g) {
      PercolatingMonotone(N, g, g2);
    }
  }

  /** A grid with no open site does not percolate. */
  lemma ClosedDoesNotPercolate(N: int, g: seq<bool>)
    requires forall k :: 0 <= k < |g| ==> !g[k]
    ensures !Percolating(N, g)
  {
  }

  /** With every site open, column 1 is an open path from top to bottom (for N >= 1). */
  lemma AllOpenPercolates(N: int, g: seq<bool>)
    requires N > 0 && |g| == N * N && forall k :: 0 <= k < |g| ==> g[k]
    ensures Percolating(N, g)
  {
    var column := seq(N, k => Site(k + 1, 1));
    forall k | 0 <= k < N
      ensures IsOpenSite(N, g, column[k])
    {
      SiteIDRange(N, k + 1, 1);
    }
    assert IsOpenPath(N, g, column);
  }

  /** For N = 1 the single site is in the top and the bottom row: opening it percolates. */
  lemma SingleSitePercolates(g: seq<bool>)
    requires |g| == 1 && g[0]
    ensures Percolating(1, g)
  {
    var s := Site(1, 1);
    assert SiteID(1, 1, 1) == 0;
    assert IsOpenPath(1, g, [s]);
  }
}
