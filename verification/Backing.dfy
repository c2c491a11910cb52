// Where pages live on the controllers (include/page_cache.h): striped over them or replicated on all, several ranges
// side by side, and how a slot's translation names a page of a range.
module Backing {
  import opened Bits
  import PageCache

  datatype Dist = Stripe | Replicate

  /** A range of `count` pages whose backing starts at page `start`. */
  datatype Range = Range(start: nat, count: nat, dist: Dist)

  /** get_backing_page. */
  function BackingPage(start: nat, offset: nat, ctrls: nat, dist: Dist): nat
    requires ctrls > 0
  {
    if dist.Stripe? then start + offset / ctrls else start + offset
  }

  /** The places of a page: get_backing_ctrl picks one controller, or all of them. */
  function Places(r: Range, offset: nat, ctrls: nat): (ps: seq<PageCache.Place>)
    requires ctrls > 0
    ensures |ps| > 0
  {
    var page := BackingPage(r.start, offset, ctrls, r.dist);
    if r.dist.Stripe? then [PageCache.Place(offset % ctrls, page)]
    else seq(ctrls, (c: nat) => PageCache.Place(c, page))
  }

  /** Reads may be sent to controller `c` for a page exactly when the page is replicated or striped onto it. */
  lemma OverrideFits(r: Range, offset: nat, ctrls: nat, c: nat)
    requires ctrls > 0 && c < ctrls
    ensures var ps := Places(r, offset, ctrls);
            PageCache.Place(c, ps[0].page) in ps <==> r.dist.Replicate? || c == offset % ctrls
  {
    var ps := Places(r, offset, ctrls);
    if r.dist.Replicate? {
      assert ps[c] == PageCache.Place(c, ps[0].page);
    }
  }

  /** First page behind the region of a range, on every controller. */
  function End(r: Range, ctrls: nat): nat
    requires ctrls > 0
  {
    r.start + (if r.dist.Stripe? then (r.count + ctrls - 1) / ctrls else r.count)
  }

  /** The page of every place of a range lies in its region. */
  lemma InRegion(r: Range, offset: nat, ctrls: nat, i: nat)
    requires ctrls > 0 && offset < r.count && i < |Places(r, offset, ctrls)|
    ensures r.start <= Places(r, offset, ctrls)[i].page < End(r, ctrls)
  {
    if r.dist.Stripe? { QuotientBelow(offset, r.count, ctrls); }
  }

  lemma QuotientBelow(offset: nat, count: nat, n: nat)
    requires n > 0 && offset < count
    ensures offset / n < (count + n - 1) / n
  {
    var q, k := offset / n, (count + n - 1) / n;
    assert q * n <= offset && (count + n - 1) < k * n + n;
    if k <= q { MulMonotone(k, q, n); }
  }

  /** Within a range different pages, and different replicas of one page, are at different places. */
  lemma SameRange(r: Range, ctrls: nat, a: nat, b: nat, i: nat, j: nat)
    requires ctrls > 0 && i < |Places(r, a, ctrls)| && j < |Places(r, b, ctrls)|
    ensures Places(r, a, ctrls)[i] == Places(r, b, ctrls)[j] <==> a == b && i == j
  {
    if r.dist.Stripe? {
      assert a == a / ctrls * ctrls + a % ctrls && b == b / ctrls * ctrls + b % ctrls;
    }
  }

  ghost predicate DisjointRegions(rs: seq<Range>, ctrls: nat)
    requires ctrls > 0
  {
    forall i, j | 0 <= i < |rs| && 0 <= j < |rs| && i != j :: End(rs[i], ctrls) <= rs[j].start || End(rs[j], ctrls) <= rs[i].start
  }

  /** The places of the first `n` pages of a range. */
  function RangePlaces(r: Range, ctrls: nat, n: nat): (ps: seq<seq<PageCache.Place>>)
    requires ctrls > 0
    ensures |ps| == n && forall a | 0 <= a < n :: ps[a] == Places(r, a, ctrls)
  {
    seq(n, a requires 0 <= a < n => Places(r, a, ctrls))
  }

  /** All pages of all ranges, range after range. */
  function AllPlaces(rs: seq<Range>, ctrls: nat): seq<seq<PageCache.Place>>
    requires ctrls > 0
  {
    if rs == [] then [] else AllPlaces(rs[..|rs| - 1], ctrls) + RangePlaces(rs[|rs| - 1], ctrls, rs[|rs| - 1].count)
  }

  /** Every place of the first ranges lies in the region of one of them. */
  lemma {:induction false} RegionOf(rs: seq<Range>, ctrls: nat, g: nat, i: nat) returns (k: nat)
    requires ctrls > 0 && g < |AllPlaces(rs, ctrls)| && i < |AllPlaces(rs, ctrls)[g]|
    ensures k < |rs| && rs[k].start <= AllPlaces(rs, ctrls)[g][i].page < End(rs[k], ctrls)
  {
    hide Places, End;
    var n := |rs| - 1;
    var front := AllPlaces(rs[..n], ctrls);
    if g < |front| {
      k := RegionOf(rs[..n], ctrls, g, i);
    } else {
      k := n;
      InRegion(rs[n], g - |front|, ctrls, i);
    }
  }

  /** Two places in two different regions are different. */
  lemma ApartFrom(rs: seq<Range>, ctrls: nat, g: nat, i: nat, a: nat, j: nat)
    requires ctrls > 0 && rs != [] && DisjointRegions(rs, ctrls)
    requires var front := AllPlaces(rs[..|rs| - 1], ctrls); g < |front| && i < |front[g]|
    requires a < rs[|rs| - 1].count && j < |Places(rs[|rs| - 1], a, ctrls)|
    ensures AllPlaces(rs[..|rs| - 1], ctrls)[g][i] != Places(rs[|rs| - 1], a, ctrls)[j]
  {
    hide Places, End, AllPlaces;
    var n := |rs| - 1;
    var k := RegionOf(rs[..n], ctrls, g, i);
    InRegion(rs[n], a, ctrls, j);
  }

  /** Ranges with disjoint regions give every page places of its own: what the page cache needs of its backing. */
  lemma {:induction false} PlacesDisjoint(rs: seq<Range>, ctrls: nat)
    requires ctrls > 0 && DisjointRegions(rs, ctrls)
    ensures PageCache.Disjoint(AllPlaces(rs, ctrls))
    ensures forall g | 0 <= g < |AllPlaces(rs, ctrls)| :: |AllPlaces(rs, ctrls)[g]| > 0
  {
    if rs != [] {
      hide Places, End;
      var n := |rs| - 1;
      var r, front, all := rs[n], AllPlaces(rs[..n], ctrls), AllPlaces(rs, ctrls);
      PlacesDisjoint(rs[..n], ctrls);
      forall g, h, i, j | 0 <= g < h < |all| && 0 <= i < |all[g]| && 0 <= j < |all[h]| ensures all[g][i] != all[h][j] {
        if h < |front| {
          assert all[g] == front[g] && all[h] == front[h];
        } else if g < |front| {
          ApartFrom(rs, ctrls, g, i, h - |front|, j);
        } else {
          SameRange(r, ctrls, g - |front|, h - |front|, i, j);
        }
      }
      forall g, i, j | 0 <= g < |all| && 0 <= i < j < |all[g]| ensures all[g][i] != all[g][j] {
        if g < |front| {
          assert all[g] == front[g];
        } else {
          SameRange(r, ctrls, g - |front|, g - |front|, i, j);
        }
      }
    }
  }

  // ----- translations -----

  /** `a | b`. */
  function Or(a: nat, b: nat): nat {
    if a == 0 && b == 0 then 0 else (if a % 2 == 1 || b % 2 == 1 then 1 else 0) + 2 * Or(a / 2, b / 2)
  }

  function GlobalAddress(page: nat, range: nat, bits: nat): nat {
    Or(page * Pow2(bits), range)
  }

  lemma {:induction false} OrZero(a: nat)
    ensures Or(a, 0) == a
  {
    if a != 0 { OrZero(a / 2); }
  }

  lemma {:induction false} OrIsSum(page: nat, range: nat, bits: nat)
    requires range < Pow2(bits)
    ensures Or(page * Pow2(bits), range) == page * Pow2(bits) + range
  {
    if bits == 0 {
      OrZero(page);
    } else {
      OrIsSum(page, range / 2, bits - 1);
      var h := page * Pow2(bits - 1);
      assert page * Pow2(bits) == 2 * h;
      hide Pow2;
      assert (2 * h) / 2 == h && (2 * h) % 2 == 0;
    }
  }

  /** The eviction code recovers from a translation exactly the page and the range it was made of. */
  lemma TranslationRoundTrip(page: nat, range: nat, bits: nat)
    requires range < Pow2(bits)
    ensures And(GlobalAddress(page, range, bits), Pow2(bits) - 1) == range
    ensures Shr(GlobalAddress(page, range, bits), bits) == page
  {
    hide Or, And, Shr, Pow2;
    var ga := GlobalAddress(page, range, bits);
    OrIsSum(page, range, bits);
    AndMask(ga, bits);
    ShrIsDiv(ga, bits);
    DivModUnique(ga, Pow2(bits), page, range);
  }
}
