/**
 * Small fixed runs of the percolation system: the single-site grid, a repeated open,
 * and the backwash case that the second forest exists to avoid.
 */
module Scenarios {
  import opened Wrappers
  import opened Grid
  import opened Percolation

  /** On a 1-by-1 grid, opening the only site makes the system percolate. */
  method SingleSiteOpens() returns (r: bool)
    ensures r
  {
    var p := new Percolation(1);
    var outcome := p.Open(1, 1);
    assert SiteID(1, 1, 1) == 0;
    SingleSitePercolates(p.grid[..]);
    r := p.Percolates();
  }

  /** Opening a site a second time leaves the grid and the forest labels as they were. */
  method ReopenChangesNothing() returns (same: bool)
    ensures same
  {
    var p := new Percolation(2);
    var first := p.Open(1, 2);
    var g, labels := p.grid[..], p.quickUF.id;
    var second := p.Open(1, 2);
    same := p.grid[..] == g && p.quickUF.id == labels;
  }

  /**
   * Backwash: with the whole bottom row of a 3-by-3 grid open, site (3, 1) is joined
   * to the virtual bottom in `quickUF`, yet it is not reported full.
   */
  method BottomRowIsNotFull() returns (full: Result<bool, IndexError>, toBottom: bool)
    ensures full == Ok(false) && toBottom
  {
    var p := new Percolation(3);
    var o1 := p.Open(3, 1);
    var o2 := p.Open(3, 2);
    var o3 := p.Open(3, 3);
    assert p.grid[..][0] == p.grid[..][1] == p.grid[..][2] == false;
    assert IsOpenSite(3, p.grid[..], Site(3, 1));
    toBottom := p.quickUF.Connected(SiteID(3, 3, 1), p.BOTTOM_INDEX);
    assert !IsFullSite(3, p.grid[..], Site(3, 1)) by {
      forall path: seq<Site> | IsOpenPath(3, p.grid[..], path)
        ensures path[0].row != 1
      {
        assert IsOpenSite(3, p.grid[..], path[0]);
      }
    }
    full := p.IsFull(3, 1);
  }
}
