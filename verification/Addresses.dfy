/** Alignment in bytes and in pages: sizes of pages and alignments are powers of two. */
module Addresses {
  import opened Options
  import opened Bitwise
  import opened Bisect
  import opened Words

  /** What is passed down for `pages` pages whose address must be a multiple of `alignment`,
      in a region that starts at address `ptr`. */
  function RequestFor(pages: nat, alignment: nat, ptr: nat, page: nat): Request
    requires alignment > 0 && page > 0
  {
    Request(pages, alignment / page, ptr % alignment / page)
  }

  lemma ModScaled(x: nat, a: nat, page: nat)
    requires a > 0 && page > 0
    ensures a * page > 0 && (x * page) % (a * page) == (x % a) * page
  {
    var d, r := x / a, x % a;
    assert x == a * d + r;
    assert x * page == (a * page) * d + r * page;
    assert r * page < a * page;
    Euclid(x * page, a * page, d, r * page);
  }

  lemma ModAdds(p: nat, o: nat, a: nat)
    requires a > 0
    ensures (p % a + o) % a == (p + o) % a
  {
    var d := p / a;
    var x := p % a + o;
    assert p + o == a * (d + x / a) + x % a;
    Euclid(p + o, a, d + x / a, x % a);
  }

  lemma Quotient(x: nat, page: nat)
    requires page > 0
    ensures x * page / page == x
  {
    Euclid(x * page, page, x, 0);
  }

  /** Page `o` of a region that starts at page `p` answers the alignment of the request
      exactly when its address is a multiple of the alignment; the length is passed on as it is. */
  lemma AddressAligned(pages: nat, k: nat, m: nat, p: nat, o: nat)
    ensures var (alignment, page) := (Pow2(k), Pow2(m));
      var q := RequestFor(pages, alignment, p * page, page);
      (q.align > 1 ==> (q.base + o) % q.align == 0) <==> ((p + o) * page) % alignment == 0
    ensures RequestFor(pages, Pow2(k), p * Pow2(m), Pow2(m)).pages == pages
  {
    var alignment, page := Pow2(k), Pow2(m);
    if k >= m {
      Pow2Splits(k, m);
      Coarse(pages, Pow2(k - m), page, p, o);
    } else {
      Pow2Splits(m, k);
      Pow2Less(k, m);
      Fine(pages, alignment, Pow2(m - k), p, o);
    }
  }

  /** The alignment is `a` pages. */
  lemma Coarse(pages: nat, a: nat, page: nat, p: nat, o: nat)
    requires a > 0 && page > 0
    ensures a * page > 0
    ensures var q := RequestFor(pages, a * page, p * page, page);
      (q.align > 1 ==> (q.base + o) % q.align == 0) <==> ((p + o) * page) % (a * page) == 0
  {
    ModScaled(p, a, page);
    ModScaled(p + o, a, page);
    ModAdds(p, o, a);
    Quotient(a, page);
    Quotient(p % a, page);
    Cancel((p + o) % a, page);
  }

  lemma Cancel(x: nat, page: nat)
    requires page > 0
    ensures x * page == 0 <==> x == 0
  {
  }

  /** A page is `b` times the alignment. */
  lemma Fine(pages: nat, alignment: nat, b: nat, p: nat, o: nat)
    requires alignment > 0 && b > 0 && alignment < b * alignment
    ensures RequestFor(pages, alignment, p * (b * alignment), b * alignment).align == 0
    ensures ((p + o) * (b * alignment)) % alignment == 0
  {
    Euclid(alignment, b * alignment, 0, alignment);
    assert (p + o) * (b * alignment) == alignment * ((p + o) * b);
    MultipleMod((p + o) * b, alignment);
  }

  lemma Pow2Word()
    ensures Pow2(63) == 0x8000_0000_0000_0000
  {
    assert Pow2(7) == 128 && Pow2(8) == 256;
    Pow2Splits(15, 8);
    Pow2Splits(16, 8);
    Pow2Splits(31, 16);
    Pow2Splits(32, 16);
    Pow2Splits(63, 32);
  }

  /** Requests made this way are legal. */
  lemma RequestLegal(pages: nat, k: nat, m: nat, p: nat)
    requires pages > 0 && k < 64
    ensures Legal(RequestFor(pages, Pow2(k), p * Pow2(m), Pow2(m)))
  {
    if k >= m {
      Pow2Splits(k, m);
      hide Pow2;
      LegalCoarse(pages, Pow2(k - m), Pow2(m), p);
      if k - m < 63 { Pow2Less(k - m, 63); }
      Pow2Word();
    } else {
      Pow2Less(k, m);
      hide Pow2;
      Euclid(Pow2(k), Pow2(m), 0, Pow2(k));
    }
  }

  lemma LegalCoarse(pages: nat, a: nat, page: nat, p: nat)
    requires a > 0 && page > 0 && a * page > 0
    ensures RequestFor(pages, a * page, p * page, page) == Request(pages, a, p % a)
  {
    ModScaled(p, a, page);
    Quotient(a, page);
    Quotient(p % a, page);
  }

  /** In a region that starts 10 pages past an aligned address, a slab of 32 pages of 4096 bytes is
      requested so that a free block of 60 pages at its start is misplaced: the run would begin 10 pages
      before the region. */
  lemma SlabMisplaced(slabs: nat)
    ensures var q := RequestFor(32, 32 * 4096, (32 * slabs + 10) * 4096, 4096);
      && Fits(0, 60, q, 22) && Place(0, 60, q) == Some(0xFFFF_FFF6) && PlacedWrong(0, 60, q)
  {
    Quotient(32, 4096);
    ModScaled(32 * slabs + 10, 32, 4096);
    Euclid(32 * slabs + 10, 32, slabs, 10);
    Quotient(10, 4096);
    var q := RequestFor(32, 32 * 4096, (32 * slabs + 10) * 4096, 4096);
    assert q == Request(32, 32, 10);
    MisplacementHappens(q);
    hide Place, RequestFor;
  }
}
