/**
 * The percolation system: an N-by-N grid of sites, each blocked or open, with two
 * union-find forests over the site IDs. `quickUF` has a virtual top (index 0) and a
 * virtual bottom (index N*N+1) and answers "does the system percolate"; `auxUF` has
 * the virtual top only and answers "is this site full", so that sites connected only to
 * the bottom are never reported full (backwash).
 *
 * The site-ID mapping N*i - j sends site (1, N) to index 0, the very index of the
 * virtual top. The lemmas below show that this is harmless: IsFull and Percolates
 * agree with the path-based meaning of "full" and "percolates".
 */
module Percolation {
  import opened Wrappers
  import opened Grid
  import opened UnionFind

  /** The largest Java int. */
  const INT_MAX := 0x7fff_ffff

  /** The value stored in the grid for an open site. */
  const OPEN := true

  datatype IndexError = RowOutOfBounds | ColumnOutOfBounds

  /** Index validation: the row is checked first, then the column. */
  function VerifyIndex(N: int, i: int, j: int): (r: Option<IndexError>)
    ensures r == None <==> InGrid(N, Site(i, j))
    ensures r == Some(RowOutOfBounds) <==> !(1 <= i <= N)
    ensures r == Some(ColumnOutOfBounds) <==> 1 <= i <= N && !(1 <= j <= N)
  {
    if i < 1 || i > N then Some(RowOutOfBounds)
    else if j < 1 || j > N then Some(ColumnOutOfBounds)
    else None
  }

  predicate IsSiteIndex(N: int, x: int) {
    N > 0 && 0 <= x < N * N
  }

  /** A union of an open top-row site with the virtual top. */
  ghost predicate TopLink(N: int, g: seq<bool>, e: (int, int)) {
    IsSiteIndex(N, e.0) && e.1 == TOP_INDEX && IsOpenSite(N, g, SiteAt(N, e.0)) && SiteAt(N, e.0).row == 1
  }

  /** A union of an open bottom-row site with the virtual bottom. */
  ghost predicate BottomLink(N: int, g: seq<bool>, e: (int, int)) {
    IsSiteIndex(N, e.0) && e.1 == N * N + 1 && IsOpenSite(N, g, SiteAt(N, e.0)) && SiteAt(N, e.0).row == N
  }

  /** A union of two open neighbouring sites. */
  ghost predicate NeighbourLink(N: int, g: seq<bool>, e: (int, int)) {
    && IsSiteIndex(N, e.0) && IsSiteIndex(N, e.1)
    && IsOpenSite(N, g, SiteAt(N, e.0)) && IsOpenSite(N, g, SiteAt(N, e.1))
    && Adjacent(SiteAt(N, e.0), SiteAt(N, e.1))
  }

  /** The unions `auxUF` may receive. */
  ghost predicate AuxLink(N: int, g: seq<bool>, e: (int, int)) {
    TopLink(N, g, e) || NeighbourLink(N, g, e)
  }

  /** The unions `quickUF` may receive: those of `auxUF` and the bottom links. */
  ghost predicate QuickLink(N: int, g: seq<bool>, e: (int, int)) {
    AuxLink(N, g, e) || BottomLink(N, g, e)
  }

  /** Element x of a forest is the virtual top or the ID of a full site. */
  ghost predicate FullIndex(N: int, g: seq<bool>, x: int) {
    x == TOP_INDEX || (IsSiteIndex(N, x) && IsFullSite(N, g, SiteAt(N, x)))
  }

  lemma LinkGrows(N: int, g: seq<bool>, g2: seq<bool>, e: (int, int))
    requires OpensMore(g, g2) && QuickLink(N, g, e)
    ensures QuickLink(N, g2, e)
    ensures AuxLink(N, g, e) ==> AuxLink(N, g2, e)
  {
  }

  /** An open site whose ID is a FullIndex is full; for ID 0 it is site (1, N), in the top row. */
  lemma FullAtIndex(N: int, g: seq<bool>, x: int)
    requires IsSiteIndex(N, x) && IsOpenSite(N, g, SiteAt(N, x)) && FullIndex(N, g, x)
    ensures IsFullSite(N, g, SiteAt(N, x))
  {
    if x == TOP_INDEX {
      assert SiteAt(N, x) == Site(1, N);
      TopRowFull(N, g, SiteAt(N, x));
    }
  }

  /** Both ends of a union in `auxUF` agree on being full. */
  lemma AuxLinkRespectsFull(N: int, g: seq<bool>, e: (int, int))
    requires AuxLink(N, g, e)
    ensures FullIndex(N, g, e.0) == FullIndex(N, g, e.1)
  {
    var s := SiteAt(N, e.0);
    if TopLink(N, g, e) {
      TopRowFull(N, g, s);
    } else {
      var t := SiteAt(N, e.1);
      if FullIndex(N, g, e.0) {
        FullAtIndex(N, g, e.0);
        FullSpreads(N, g, s, t);
      }
      if FullIndex(N, g, e.1) {
        FullAtIndex(N, g, e.1);
        FullSpreads(N, g, t, s);
      }
    }
  }

  /** Both ends of a union in `quickUF` agree on "full, or the system percolates". */
  lemma QuickLinkRespectsFullOrPercolating(N: int, g: seq<bool>, e: (int, int))
    requires QuickLink(N, g, e)
    ensures (FullIndex(N, g, e.0) || Percolating(N, g)) == (FullIndex(N, g, e.1) || Percolating(N, g))
  {
    if AuxLink(N, g, e) {
      AuxLinkRespectsFull(N, g, e);
    } else if FullIndex(N, g, e.0) {
      FullAtIndex(N, g, e.0);
      FullBottomPercolates(N, g, SiteAt(N, e.0));
    }
  }

  /** Soundness of `auxUF`: whatever the recorded unions join to the top is full. */
  lemma AuxHistorySound(N: int, g: seq<bool>, U: seq<(int, int)>, x: int)
    requires forall k :: 0 <= k < |U| ==> AuxLink(N, g, U[k])
    requires Joined(U, x, TOP_INDEX)
    ensures FullIndex(N, g, x)
  {
    forall k | 0 <= k < |U|
      ensures FullIndex(N, g, U[k].0) == FullIndex(N, g, U[k].1)
    {
      AuxLinkRespectsFull(N, g, U[k]);
    }
    JoinedRespects(U, y => FullIndex(N, g, y));
  }

  /** Soundness of `quickUF`: if the recorded unions join top and bottom, the system percolates. */
  lemma QuickHistorySound(N: int, g: seq<bool>, U: seq<(int, int)>)
    requires forall k :: 0 <= k < |U| ==> QuickLink(N, g, U[k])
    requires Joined(U, TOP_INDEX, N * N + 1)
    ensures Percolating(N, g)
  {
    forall k | 0 <= k < |U|
      ensures (FullIndex(N, g, U[k].0) || Percolating(N, g)) == (FullIndex(N, g, U[k].1) || Percolating(N, g))
    {
      QuickLinkRespectsFullOrPercolating(N, g, U[k]);
    }
    JoinedRespects(U, y => FullIndex(N, g, y) || Percolating(N, g));
  }

  /** Open top-row sites carry the label of the virtual top in both forests. */
  ghost predicate TopComplete(N: int, g: seq<bool>, quick: seq<int>, aux: seq<int>) {
    && |quick| == |g| + 2 && |aux| == |g| + 1
    && forall s :: IsOpenSite(N, g, s) && s.row == 1 ==>
         aux[SiteID(N, s.row, s.col)] == aux[TOP_INDEX] && quick[SiteID(N, s.row, s.col)] == quick[TOP_INDEX]
  }

  /** Open bottom-row sites carry the label of the virtual bottom in `quickUF`. */
  ghost predicate BottomComplete(N: int, g: seq<bool>, quick: seq<int>) {
    && |quick| == |g| + 2
    && forall s :: IsOpenSite(N, g, s) && s.row == N ==> quick[SiteID(N, s.row, s.col)] == quick[|g| + 1]
  }

  /** Open neighbours carry equal labels in both forests. */
  ghost predicate NeighboursComplete(N: int, g: seq<bool>, quick: seq<int>, aux: seq<int>) {
    && |quick| == |g| + 2 && |aux| == |g| + 1
    && forall s, t :: IsOpenSite(N, g, s) && IsOpenSite(N, g, t) && Adjacent(s, t) ==>
         aux[SiteID(N, s.row, s.col)] == aux[SiteID(N, t.row, t.col)]
         && quick[SiteID(N, s.row, s.col)] == quick[SiteID(N, t.row, t.col)]
  }

  /**
   * Every direct connection of grid g is made in the forests with labels `quick` and
   * `aux` (equal labels are Forest.Connected).
   */
  ghost predicate Complete(N: int, g: seq<bool>, quick: seq<int>, aux: seq<int>) {
    TopComplete(N, g, quick, aux) && BottomComplete(N, g, quick) && NeighboursComplete(N, g, quick, aux)
  }

  /** g is g0 with `site` opened. */
  predicate OpenedAt(N: int, g0: seq<bool>, g: seq<bool>, site: Site) {
    |g| == |g0| && forall k :: 0 <= k < |g| ==> g[k] == (g0[k] || k == SiteID(N, site.row, site.col))
  }

  /** A site open after opening `site` is `site` or was open before. */
  lemma OpenedBefore(N: int, g0: seq<bool>, g: seq<bool>, site: Site, s: Site)
    requires InGrid(N, site) && OpenedAt(N, g0, g, site) && IsOpenSite(N, g, s) && s != site
    ensures IsOpenSite(N, g0, s)
  {
    if SiteID(N, s.row, s.col) == SiteID(N, site.row, site.col) {
      SiteIDInjective(N, s, site);
    }
  }

  lemma OpenKeepsTopComplete(N: int, g0: seq<bool>, g: seq<bool>, site: Site, q0: seq<int>, a0: seq<int>, quick: seq<int>, aux: seq<int>)
    requires IsOpenSite(N, g, site) && OpenedAt(N, g0, g, site) && TopComplete(N, g0, q0, a0)
    requires Coarser(q0, quick) && Coarser(a0, aux)
    requires site.row == 1 ==>
      quick[SiteID(N, site.row, site.col)] == quick[TOP_INDEX] && aux[SiteID(N, site.row, site.col)] == aux[TOP_INDEX]
    ensures TopComplete(N, g, quick, aux)
  {
    forall s | IsOpenSite(N, g, s) && s.row == 1
      ensures aux[SiteID(N, s.row, s.col)] == aux[TOP_INDEX] && quick[SiteID(N, s.row, s.col)] == quick[TOP_INDEX]
    {
      if s != site {
        OpenedBefore(N, g0, g, site, s);
      }
    }
  }

  lemma OpenKeepsBottomComplete(N: int, g0: seq<bool>, g: seq<bool>, site: Site, q0: seq<int>, quick: seq<int>)
    requires IsOpenSite(N, g, site) && OpenedAt(N, g0, g, site) && BottomComplete(N, g0, q0)
    requires Coarser(q0, quick)
    requires site.row == N ==> quick[SiteID(N, site.row, site.col)] == quick[|g0| + 1]
    ensures BottomComplete(N, g, quick)
  {
    forall s | IsOpenSite(N, g, s) && s.row == N
      ensures quick[SiteID(N, s.row, s.col)] == quick[|g| + 1]
    {
      if s != site {
        OpenedBefore(N, g0, g, site, s);
      }
    }
  }

  lemma OpenKeepsNeighboursComplete(N: int, g0: seq<bool>, g: seq<bool>, site: Site, q0: seq<int>, a0: seq<int>, quick: seq<int>, aux: seq<int>)
    requires IsOpenSite(N, g, site) && OpenedAt(N, g0, g, site) && NeighboursComplete(N, g0, q0, a0)
    requires Coarser(q0, quick) && Coarser(a0, aux)
    requires forall t :: IsOpenSite(N, g0, t) && Adjacent(site, t) ==>
      quick[SiteID(N, site.row, site.col)] == quick[SiteID(N, t.row, t.col)]
      && aux[SiteID(N, site.row, site.col)] == aux[SiteID(N, t.row, t.col)]
    ensures NeighboursComplete(N, g, quick, aux)
  {
    forall s, t | IsOpenSite(N, g, s) && IsOpenSite(N, g, t) && Adjacent(s, t)
      ensures aux[SiteID(N, s.row, s.col)] == aux[SiteID(N, t.row, t.col)]
      ensures quick[SiteID(N, s.row, s.col)] == quick[SiteID(N, t.row, t.col)]
    {
      if s == site {
        OpenedBefore(N, g0, g, site, t);
      } else if t == site {
        OpenedBefore(N, g0, g, site, s);
      } else {
        OpenedBefore(N, g0, g, site, s);
        OpenedBefore(N, g0, g, site, t);
      }
    }
  }

  /** The labels put sites s and t in one class, if t is an open site of g. */
  ghost predicate LinkedIfOpen(N: int, g: seq<bool>, labels: seq<int>, s: Site, t: Site) {
    IsOpenSite(N, g, t) ==>
      && 0 <= SiteID(N, s.row, s.col) < |labels| && 0 <= SiteID(N, t.row, t.col) < |labels|
      && labels[SiteID(N, s.row, s.col)] == labels[SiteID(N, t.row, t.col)]
  }

  /** A link that holds in some labels survives any coarsening of them. */
  lemma CoarserKeepsLinked(N: int, g: seq<bool>, before: seq<int>, after: seq<int>, s: Site, t: Site)
    requires LinkedIfOpen(N, g, before, s, t) && Coarser(before, after)
    ensures LinkedIfOpen(N, g, after, s, t)
  {
  }

  /** The four neighbours of site (i, j) cover every site adjacent to it. */
  lemma FourNeighbours(N: int, g: seq<bool>, labels: seq<int>, i: int, j: int)
    requires LinkedIfOpen(N, g, labels, Site(i, j), Site(i + 1, j))
    requires LinkedIfOpen(N, g, labels, Site(i, j), Site(i - 1, j))
    requires LinkedIfOpen(N, g, labels, Site(i, j), Site(i, j + 1))
    requires LinkedIfOpen(N, g, labels, Site(i, j), Site(i, j - 1))
    ensures forall t :: Adjacent(Site(i, j), t) ==> LinkedIfOpen(N, g, labels, Site(i, j), t)
  {
    forall t | Adjacent(Site(i, j), t)
      ensures LinkedIfOpen(N, g, labels, Site(i, j), t)
    {
      if t == Site(i + 1, j) {
      } else if t == Site(i - 1, j) {
      } else if t == Site(i, j + 1) {
      } else {
        assert t == Site(i, j - 1);
      }
    }
  }

  /**
   * The vertical neighbour links of site (i, j), made in `before`, and the horizontal
   * ones, made in the coarser `after`, together link it in `after` to every adjacent site.
   */
  lemma NeighboursLinked(N: int, g: seq<bool>, before: seq<int>, after: seq<int>, i: int, j: int)
    requires Coarser(before, after)
    requires LinkedIfOpen(N, g, before, Site(i, j), Site(i + 1, j))
    requires LinkedIfOpen(N, g, before, Site(i, j), Site(i - 1, j))
    requires LinkedIfOpen(N, g, after, Site(i, j), Site(i, j + 1))
    requires LinkedIfOpen(N, g, after, Site(i, j), Site(i, j - 1))
    ensures forall t :: Adjacent(Site(i, j), t) ==> LinkedIfOpen(N, g, after, Site(i, j), t)
  {
    CoarserKeepsLinked(N, g, before, after, Site(i, j), Site(i + 1, j));
    CoarserKeepsLinked(N, g, before, after, Site(i, j), Site(i - 1, j));
    FourNeighbours(N, g, after, i, j);
  }

  /**
   * Completeness along a path: when every direct connection of g is made, the last site
   * of an open path from the top row carries the label of the virtual top in both forests.
   */
  lemma {:induction false} PathLinked(N: int, g: seq<bool>, quick: seq<int>, aux: seq<int>, path: seq<Site>)
    requires Complete(N, g, quick, aux) && IsOpenPath(N, g, path) && path[0].row == 1
    ensures aux[SiteID(N, path[|path| - 1].row, path[|path| - 1].col)] == aux[TOP_INDEX]
    ensures quick[SiteID(N, path[|path| - 1].row, path[|path| - 1].col)] == quick[TOP_INDEX]
    decreases |path|
  {
    if |path| > 1 {
      var prefix := path[..|path| - 1];
      assert forall k :: 0 <= k < |prefix| ==> prefix[k] == path[k];
      assert IsOpenPath(N, g, prefix);
      PathLinked(N, g, quick, aux, prefix);
      assert Adjacent(path[|path| - 2], path[|path| - 1]);
    }
  }

  /** A full site carries the label of the virtual top in both forests. */
  lemma FullLinked(N: int, g: seq<bool>, quick: seq<int>, aux: seq<int>, s: Site)
    requires Complete(N, g, quick, aux) && IsFullSite(N, g, s)
    ensures aux[SiteID(N, s.row, s.col)] == aux[TOP_INDEX] && quick[SiteID(N, s.row, s.col)] == quick[TOP_INDEX]
  {
    var path: seq<Site> :| IsOpenPath(N, g, path) && path[0].row == 1 && path[|path| - 1] == s;
    PathLinked(N, g, quick, aux, path);
  }

  /** In a percolating grid, `quickUF` gives the virtual top and bottom one label. */
  lemma PercolatingLinked(N: int, g: seq<bool>, quick: seq<int>, aux: seq<int>)
    requires Complete(N, g, quick, aux) && Percolating(N, g)
    ensures quick[TOP_INDEX] == quick[|g| + 1]
  {
    var path: seq<Site> :| IsOpenPath(N, g, path) && path[0].row == 1 && path[|path| - 1].row == N;
    PathLinked(N, g, quick, aux, path);
    assert IsOpenSite(N, g, path[|path| - 1]);
  }

  lemma CoarserTransitive(x: seq<int>, y: seq<int>, z: seq<int>)
    requires Coarser(x, y) && Coarser(y, z)
    ensures Coarser(x, z)
  {
  }

  class Percolation {
    const N: int
    const gridSize: int
    const BOTTOM_INDEX: int    // virtual bottom index, N*N + 1
    var percolatedSystem: bool // cached first true answer of Percolates
    const grid: array<bool>    // open state of each site, indexed by SiteID
    const quickUF: Forest      // sites plus virtual top and bottom
    const auxUF: Forest        // sites plus virtual top only

    /** The sizes fixed at construction. */
    ghost predicate Shaped() {
      && gridSize == N * N && 0 <= gridSize && BOTTOM_INDEX == gridSize + 1
      && grid.Length == gridSize
      && quickUF.size == gridSize + 2 && auxUF.size == gridSize + 1
      && quickUF != auxUF
    }

    /** The forests are well formed and every union made so far joins what the current grid connects. */
    ghost predicate Sound()
      reads this, grid, quickUF, auxUF
    {
      && Shaped()
      && quickUF.Valid() && auxUF.Valid()
      && (forall k :: 0 <= k < |auxUF.unions| ==> AuxLink(N, grid[..], auxUF.unions[k]))
      && (forall k :: 0 <= k < |quickUF.unions| ==> QuickLink(N, grid[..], quickUF.unions[k]))
    }

    ghost predicate Valid()
      reads this, grid, quickUF, auxUF
    {
      && Sound()
      && (percolatedSystem ==> quickUF.Connected(TOP_INDEX, BOTTOM_INDEX))
      // everything the current grid connects directly has been united
      && Complete(N, grid[..], quickUF.id, auxUF.id)
    }

    /** An N-by-N grid with every site blocked and two forests without unions. */
    constructor (N: int)
      requires N * N + 2 <= INT_MAX
      ensures Valid() && this.N == N && !percolatedSystem
      ensures grid[..] == seq(N * N, _ => false)
      ensures fresh(grid) && fresh(quickUF) && fresh(auxUF)
    {
      this.N := N;
      gridSize := N * N;
      BOTTOM_INDEX := N * N + 1;
      percolatedSystem := false;
      grid := new bool[N * N](_ => false);
      quickUF := new Forest(N * N + 2);
      auxUF := new Forest(N * N + 1);
    }

    /** The stored state of site (i, j), after index validation. */
    function IsOpen(i: int, j: int): (r: Result<bool, IndexError>)
      reads grid
      requires Shaped()
      ensures r.Err? <==> !InGrid(N, Site(i, j))
      ensures r.Err? ==> VerifyIndex(N, i, j) == Some(r.error)
      ensures r.Ok? ==> (r.value <==> IsOpenSite(N, grid[..], Site(i, j)))
    {
      match VerifyIndex(N, i, j)
      case Some(e) => Err(e)
      case None =>
        SiteIDRange(N, i, j);
        Ok(grid[SiteID(N, i, j)])
    }
  
    /**
     * Opens site (i, j) if it is blocked: marks it open, links it to the virtual nodes
     * of its row, then unites it with each open neighbour in both forests.
     */
    method Open(i: int, j: int) returns (r: Outcome<IndexError>)
      requires Valid()
      modifies grid, quickUF, auxUF
      ensures Valid()
      ensures r.Fail? <==> !InGrid(N, Site(i, j))
      ensures r.Fail? ==> VerifyIndex(N, i, j) == Some(r.error)
      ensures r.Fail? || IsOpenSite(N, old(grid[..]), Site(i, j)) ==>
        unchanged(grid) && unchanged(quickUF) && unchanged(auxUF)
      ensures r.Pass? ==> forall k :: 0 <= k < grid.Length ==> grid[k] == (old(grid[k]) || k == SiteID(N, i, j))
      ensures OpensMore(old(grid[..]), grid[..])
    {
      var check := VerifyIndex(N, i, j);
      if check.Some? {
        return Fail(check.value);
      }
      r := Pass;
      SiteIDRange(N, i, j);
      if !IsOpen(i, j).value {
        ghost var g0, q0, a0 := grid[..], quickUF.id, auxUF.id;
        var site, id := Site(i, j), SiteID(N, i, j);
        grid[id] := OPEN;
        assert OpenedAt(N, g0, grid[..], site);
        forall k | 0 <= k < |quickUF.unions|
          ensures QuickLink(N, grid[..], quickUF.unions[k])
        {
          LinkGrows(N, g0, grid[..], quickUF.unions[k]);
        }
        forall k | 0 <= k < |auxUF.unions|
          ensures AuxLink(N, grid[..], auxUF.unions[k])
        {
          LinkGrows(N, g0, grid[..], auxUF.unions[k]);
        }

        LinkVirtual(i, j);
        ghost var q1, a1 := quickUF.id, auxUF.id;
        LinkNeighbours(grid[..], i, j);

        CoarserTransitive(q0, q1, quickUF.id);
        CoarserTransitive(a0, a1, auxUF.id);
        OpenKeepsTopComplete(N, g0, grid[..], site, q0, a0, quickUF.id, auxUF.id);
        OpenKeepsBottomComplete(N, g0, grid[..], site, q0, quickUF.id);
        forall t | IsOpenSite(N, g0, t) && Adjacent(site, t)
          ensures IsOpenSite(N, grid[..], t)
        {
        }
        OpenKeepsNeighboursComplete(N, g0, grid[..], site, q0, a0, quickUF.id, auxUF.id);
      }
    }

    /**
     * The links of a newly opened site with the virtual nodes: a top-row site with the
     * top in both forests, and, independently, a bottom-row site with the bottom in
     * `quickUF` only. For N = 1 both happen.
     */
    method LinkVirtual(i: int, j: int)
      requires Sound() && IsOpenSite(N, grid[..], Site(i, j))
      modifies quickUF, auxUF
      ensures Sound()
      ensures Coarser(old(quickUF.id), quickUF.id) && Coarser(old(auxUF.id), auxUF.id)
      ensures i == 1 ==> quickUF.Connected(SiteID(N, i, j), TOP_INDEX) && auxUF.Connected(SiteID(N, i, j), TOP_INDEX)
      ensures i == N ==> quickUF.Connected(SiteID(N, i, j), BOTTOM_INDEX)
      ensures auxUF.unions == old(auxUF.unions) + (if i == 1 then [(SiteID(N, i, j), TOP_INDEX)] else [])
    {
      if i == 1 {
        UniteWithTop(i, j);
      } if i == N {
        UniteWithBottom(i, j);
      }
    }

    /** A top-row site is united with the virtual top in both forests. */
    method UniteWithTop(i: int, j: int)
      requires Sound() && IsOpenSite(N, grid[..], Site(i, j)) && i == 1
      modifies quickUF, auxUF
      ensures Sound()
      ensures Coarser(old(quickUF.id), quickUF.id) && Coarser(old(auxUF.id), auxUF.id)
      ensures quickUF.Connected(SiteID(N, i, j), TOP_INDEX) && auxUF.Connected(SiteID(N, i, j), TOP_INDEX)
      ensures auxUF.unions == old(auxUF.unions) + [(SiteID(N, i, j), TOP_INDEX)]
    {
      var id := SiteID(N, i, j);
      SiteAtSiteID(N, i, j);
      quickUF.Union(id, TOP_INDEX);
      auxUF.Union(id, TOP_INDEX);
    }

    /** A bottom-row site is united with the virtual bottom in `quickUF` only. */
    method UniteWithBottom(i: int, j: int)
      requires Sound() && IsOpenSite(N, grid[..], Site(i, j)) && i == N
      modifies quickUF
      ensures Sound()
      ensures Coarser(old(quickUF.id), quickUF.id)
      ensures quickUF.Connected(SiteID(N, i, j), BOTTOM_INDEX)
    {
      SiteAtSiteID(N, i, j);
      quickUF.Union(SiteID(N, i, j), BOTTOM_INDEX);
    }

    /** The unions of a newly opened site with each of its open neighbours, in both forests. */
    method LinkNeighbours(ghost g: seq<bool>, i: int, j: int)
      requires g == grid[..]
      requires Sound() && IsOpenSite(N, g, Site(i, j))
      modifies quickUF, auxUF
      ensures Sound()
      ensures Coarser(old(quickUF.id), quickUF.id) && Coarser(old(auxUF.id), auxUF.id)
      ensures forall t :: Adjacent(Site(i, j), t) ==>
        LinkedIfOpen(N, g, quickUF.id, Site(i, j), t) && LinkedIfOpen(N, g, auxUF.id, Site(i, j), t)
    {
      ghost var q0, a0 := quickUF.id, auxUF.id;
      LinkVertical(g, i, j);
      ghost var q1, a1 := quickUF.id, auxUF.id;
      LinkHorizontal(g, i, j);
      NeighboursLinked(N, g, q1, quickUF.id, i, j);
      NeighboursLinked(N, g, a1, auxUF.id, i, j);
      CoarserTransitive(q0, q1, quickUF.id);
      CoarserTransitive(a0, a1, auxUF.id);
    }

    /** The bottom and top neighbour steps of `open`, with the sentinel -1 for a missing neighbour. */
    method LinkVertical(ghost g: seq<bool>, i: int, j: int)
      requires g == grid[..]
      requires Sound() && IsOpenSite(N, g, Site(i, j))
      modifies quickUF, auxUF
      ensures Sound()
      ensures Coarser(old(quickUF.id), quickUF.id) && Coarser(old(auxUF.id), auxUF.id)
      ensures LinkedIfOpen(N, g, quickUF.id, Site(i, j), Site(i + 1, j))
      ensures LinkedIfOpen(N, g, auxUF.id, Site(i, j), Site(i + 1, j))
      ensures LinkedIfOpen(N, g, quickUF.id, Site(i, j), Site(i - 1, j))
      ensures LinkedIfOpen(N, g, auxUF.id, Site(i, j), Site(i - 1, j))
    {
      var topSite := if i - 1 == 0 then -1 else SiteID(N, i - 1, j);
      var bottomSite := if i + 1 == N + 1 then -1 else SiteID(N, i + 1, j);
      UniteWithOpenPair(g, i, j, bottomSite, i + 1, j, topSite, i - 1, j);
    }

    /** The right and left neighbour steps of `open`, with the sentinel -1 for a missing neighbour. */
    method LinkHorizontal(ghost g: seq<bool>, i: int, j: int)
      requires g == grid[..]
      requires Sound() && IsOpenSite(N, g, Site(i, j))
      modifies quickUF, auxUF
      ensures Sound()
      ensures Coarser(old(quickUF.id), quickUF.id) && Coarser(old(auxUF.id), auxUF.id)
      ensures LinkedIfOpen(N, g, quickUF.id, Site(i, j), Site(i, j + 1))
      ensures LinkedIfOpen(N, g, auxUF.id, Site(i, j), Site(i, j + 1))
      ensures LinkedIfOpen(N, g, quickUF.id, Site(i, j), Site(i, j - 1))
      ensures LinkedIfOpen(N, g, auxUF.id, Site(i, j), Site(i, j - 1))
    {
      var leftSite := if j - 1 == 0 then -1 else SiteID(N, i, j - 1);
      var rightSite := if j + 1 == N + 1 then -1 else SiteID(N, i, j + 1);
      UniteWithOpenPair(g, i, j, rightSite, i, j + 1, leftSite, i, j - 1);
    }

    /** Two of the four neighbour steps of `open`, one after the other. */
    method UniteWithOpenPair(ghost g: seq<bool>, i: int, j: int, n1: int, i1: int, j1: int, n2: int, i2: int, j2: int)
      requires g == grid[..]
      requires Sound() && IsOpenSite(N, g, Site(i, j))
      requires Adjacent(Site(i, j), Site(i1, j1)) && Adjacent(Site(i, j), Site(i2, j2))
      requires n1 == if InGrid(N, Site(i1, j1)) then SiteID(N, i1, j1) else -1
      requires n2 == if InGrid(N, Site(i2, j2)) then SiteID(N, i2, j2) else -1
      modifies quickUF, auxUF
      ensures Sound()
      ensures Coarser(old(quickUF.id), quickUF.id) && Coarser(old(auxUF.id), auxUF.id)
      ensures LinkedIfOpen(N, g, quickUF.id, Site(i, j), Site(i1, j1))
      ensures LinkedIfOpen(N, g, auxUF.id, Site(i, j), Site(i1, j1))
      ensures LinkedIfOpen(N, g, quickUF.id, Site(i, j), Site(i2, j2))
      ensures LinkedIfOpen(N, g, auxUF.id, Site(i, j), Site(i2, j2))
    {
      ghost var q0, a0 := quickUF.id, auxUF.id;
      UniteWithOpen(i, j, n1, i1, j1);
      ghost var q1, a1 := quickUF.id, auxUF.id;
      UniteWithOpen(i, j, n2, i2, j2);
      CoarserKeepsLinked(N, grid[..], q1, quickUF.id, Site(i, j), Site(i1, j1));
      CoarserKeepsLinked(N, grid[..], a1, auxUF.id, Site(i, j), Site(i1, j1));
      CoarserTransitive(q0, q1, quickUF.id);
      CoarserTransitive(a0, a1, auxUF.id);
    }

    /**
     * One of the four neighbour steps of `open` for site (i, j): when the neighbour
     * (ni, nj) exists (its ID is not the sentinel -1) and is open, unite the two sites
     * in both forests.
     */
    method UniteWithOpen(i: int, j: int, neighbour: int, ni: int, nj: int)
      requires Sound() && IsOpenSite(N, grid[..], Site(i, j)) && Adjacent(Site(i, j), Site(ni, nj))
      requires neighbour == if InGrid(N, Site(ni, nj)) then SiteID(N, ni, nj) else -1
      modifies quickUF, auxUF
      ensures Sound()
      ensures Coarser(old(quickUF.id), quickUF.id) && Coarser(old(auxUF.id), auxUF.id)
      ensures LinkedIfOpen(N, grid[..], quickUF.id, Site(i, j), Site(ni, nj))
      ensures LinkedIfOpen(N, grid[..], auxUF.id, Site(i, j), Site(ni, nj))
    {
      if InGrid(N, Site(ni, nj)) {
        SiteIDRange(N, ni, nj);
      }
      if neighbour != -1 && IsOpen(ni, nj).value {
        SiteAtSiteID(N, i, j);
        SiteAtSiteID(N, ni, nj);
        quickUF.Union(SiteID(N, i, j), neighbour);
        auxUF.Union(SiteID(N, i, j), neighbour);
      }
    }

    /** For an open site, `auxUF` joins it to the virtual top exactly when it is full. */
    lemma AuxConnectedIffFull(s: Site)
      requires Valid() && IsOpenSite(N, grid[..], s)
      ensures auxUF.Connected(SiteID(N, s.row, s.col), TOP_INDEX) <==> IsFullSite(N, grid[..], s)
    {
      var x := SiteID(N, s.row, s.col);
      SiteAtSiteID(N, s.row, s.col);
      if auxUF.Connected(x, TOP_INDEX) {
        AuxHistorySound(N, grid[..], auxUF.unions, x);
        FullAtIndex(N, grid[..], x);
      }
      if IsFullSite(N, grid[..], s) {
        FullLinked(N, grid[..], quickUF.id, auxUF.id, s);
      }
    }

    /** `quickUF` joins the virtual top and bottom exactly when the grid percolates. */
    lemma QuickConnectedIffPercolating()
      requires Valid()
      ensures quickUF.Connected(TOP_INDEX, BOTTOM_INDEX) <==> Percolating(N, grid[..])
    {
      if quickUF.Connected(TOP_INDEX, BOTTOM_INDEX) {
        QuickHistorySound(N, grid[..], quickUF.unions);
      }
      if Percolating(N, grid[..]) {
        PercolatingLinked(N, grid[..], quickUF.id, auxUF.id);
      }
    }

    /**
     * Whatever `auxUF` connects, `quickUF` connects too: every union of `auxUF` joins two
     * sites, or a site and the top, that carry one label in `quickUF`.
     */
    lemma AuxWithinQuick(a: int, b: int)
      requires Valid() && 0 <= a < auxUF.size && 0 <= b < auxUF.size && auxUF.Connected(a, b)
      ensures quickUF.Connected(a, b)
    {
      var g, U, labels := grid[..], auxUF.unions, quickUF.id;
      forall k | 0 <= k < |U|
        ensures labels[U[k].0] == labels[U[k].1]
      {
        var e := U[k];
        assert AuxLink(N, g, e);
        SiteIDSiteAt(N, e.0);
        if !TopLink(N, g, e) {
          SiteIDSiteAt(N, e.1);
        }
      }
      JoinedRespects(U, x => 0 <= x < |labels| && labels[x] == labels[a]);
      JoinedReflexive(U, a);
    }

    /**
     * Whether site (i, j) is full, after index validation: a blocked site is never full,
     * an open one is full when `auxUF` joins it to the virtual top.
     */
    function IsFull(i: int, j: int): (r: Result<bool, IndexError>)
      reads this, grid, quickUF, auxUF
      requires Valid()
      ensures r.Err? <==> !InGrid(N, Site(i, j))
      ensures r.Err? ==> VerifyIndex(N, i, j) == Some(r.error)
      ensures r.Ok? ==> (r.value <==> IsFullSite(N, grid[..], Site(i, j)))
      ensures r == Ok(true) ==> IsOpen(i, j) == Ok(true)
    {
      match VerifyIndex(N, i, j)
      case Some(e) => Err(e)
      case None =>
        SiteIDRange(N, i, j);
        if IsOpen(i, j).value then
          AuxConnectedIffFull(Site(i, j));
          Ok(auxUF.Connected(SiteID(N, i, j), TOP_INDEX))
        else
          FullIsOpen(N, grid[..], Site(i, j));
          Ok(false)
    }

    /**
     * Whether the system percolates. A true answer is cached in `percolatedSystem` and
     * returned from then on without asking `quickUF` again.
     */
    method Percolates() returns (r: bool)
      requires Valid()
      modifies this
      ensures Valid() && r == percolatedSystem
      ensures r <==> Percolating(N, grid[..])
      ensures old(percolatedSystem) ==> r
    {
      if !percolatedSystem {
        percolatedSystem := quickUF.Connected(TOP_INDEX, BOTTOM_INDEX);
      }
      QuickConnectedIffPercolating();
      return percolatedSystem;
    }
  }
}
