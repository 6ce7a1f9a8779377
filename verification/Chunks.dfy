/** The ledger that decides which memory is committed: one 8-bit counter of used pages for
    every chunk of 255 pages. */
module Chunks {
  import opened Blocks

  /** How many pages of `s` lie in [lo, hi). */
  ghost function Count(s: set<nat>, lo: nat, hi: nat): nat
    decreases hi
  {
    if hi <= lo then 0 else Count(s, lo, hi - 1) + if hi - 1 in s then 1 else 0
  }

  lemma {:induction false} CountBound(s: set<nat>, lo: nat, hi: nat)
    requires lo <= hi
    ensures Count(s, lo, hi) <= hi - lo
    decreases hi
  {
    if lo < hi { CountBound(s, lo, hi - 1); }
  }

  lemma {:induction false} CountPositive(s: set<nat>, lo: nat, hi: nat)
    ensures Count(s, lo, hi) > 0 <==> exists p :: p in s && lo <= p < hi
    decreases hi
  {
    if lo < hi {
      CountPositive(s, lo, hi - 1);
      if hi - 1 in s { assert lo <= hi - 1 < hi; }
    }
  }

  lemma {:induction false} CountAdds(s: set<nat>, t: set<nat>, lo: nat, hi: nat)
    requires s !! t
    ensures Count(s + t, lo, hi) == Count(s, lo, hi) + Count(t, lo, hi)
    decreases hi
  {
    if lo < hi { CountAdds(s, t, lo, hi - 1); }
  }

  /** The overlap of [o, o + n) with [lo, hi). */
  function Overlap(o: nat, n: nat, lo: nat, hi: nat): nat
  {
    var a := if o < lo then lo else o;
    var b := if o + n < hi then o + n else hi;
    if a < b then b - a else 0
  }

  lemma {:induction false} CountRun(o: nat, n: nat, lo: nat, hi: nat)
    requires lo <= hi
    ensures Count(Run(o, n), lo, hi) == Overlap(o, n, lo, hi)
    decreases hi
  {
    hide Run;
    if lo < hi { CountRun(o, n, lo, hi - 1); }
  }

  /** Every counter is the number of used pages in its chunk. */
  ghost predicate Ledger(chunks: seq<nat>, used: set<nat>)
  {
    forall c :: 0 <= c < |chunks| ==> chunks[c] == Count(used, 255 * c, 255 * c + 255)
  }

  /** Counters fit in eight bits. */
  lemma CounterFits(chunks: seq<nat>, used: set<nat>, c: nat)
    requires Ledger(chunks, used) && c < |chunks|
    ensures chunks[c] <= 255
  {
    CountBound(used, 255 * c, 255 * c + 255);
  }

  /** Counting the part of a run that falls in one chunk. */
  lemma LedgerAdd(chunks: seq<nat>, used: set<nat>, c: nat, o: nat, n: nat)
    requires Ledger(chunks, used) && c < |chunks| && used !! Run(o, n)
    requires 255 * c <= o && o + n <= 255 * c + 255
    ensures Ledger(chunks[c := chunks[c] + n], used + Run(o, n))
    ensures chunks[c] + n <= 255
  {
    hide Run, Count;
    var chunks' := chunks[c := chunks[c] + n];
    forall d | 0 <= d < |chunks'| ensures chunks'[d] == Count(used + Run(o, n), 255 * d, 255 * d + 255) {
      CountAdds(used, Run(o, n), 255 * d, 255 * d + 255);
      CountRun(o, n, 255 * d, 255 * d + 255);
    }
    CounterFits(chunks', used + Run(o, n), c);
  }

  lemma LedgerSubtract(chunks: seq<nat>, used: set<nat>, c: nat, o: nat, n: nat)
    requires Ledger(chunks, used) && c < |chunks| && Run(o, n) <= used
    requires 255 * c <= o && o + n <= 255 * c + 255
    ensures n <= chunks[c] && Ledger(chunks[c := chunks[c] - n], used - Run(o, n))
  {
    hide Run, Count;
    var rest := used - Run(o, n);
    assert rest + Run(o, n) == used;
    forall d | 0 <= d < |chunks|
      ensures chunks[d] == Count(rest, 255 * d, 255 * d + 255) + if d == c then n else 0
    {
      CountAdds(rest, Run(o, n), 255 * d, 255 * d + 255);
      CountRun(o, n, 255 * d, 255 * d + 255);
    }
  }

  method Increment(chunks: array<nat>, offset: nat, pages: nat, ghost used: set<nat>)
    requires Ledger(chunks[..], used) && used !! Run(offset, pages)
    requires pages > 0 && offset + pages <= 255 * chunks.Length
    modifies chunks
    ensures Ledger(chunks[..], used + Run(offset, pages))
  {
    hide Run, Ledger;
    var size := pages;
    var i := offset / 255;
    var n := if size < 255 - offset % 255 then size else 255 - offset % 255;
    RunSplit(offset, pages, n);
    LedgerAdd(chunks[..], used, i, offset, n);
    chunks[i] := chunks[i] + n;
    i := i + 1;
    size := size - n;
    ghost var done := n;
    while size > 0
      invariant 0 <= size && done + size == pages && i <= chunks.Length
      invariant size > 0 ==> offset + done == 255 * i
      invariant Ledger(chunks[..], used + Run(offset, done))
    {
      ghost var before := used + Run(offset, done);
      RunSplit(offset, pages, done);
      if size < 255 {
        LedgerAdd(chunks[..], before, i, offset + done, size);
        chunks[i] := chunks[i] + size;
        assert before + Run(offset + done, size) == used + Run(offset, pages);
        return;
      }
      LedgerAdd(chunks[..], before, i, offset + done, 255);
      RunSplit(offset, done + 255, done);
      RunSplit(offset + done, size, 255);
      assert before + Run(offset + done, 255) == used + Run(offset, done + 255);
      chunks[i] := 255;
      i := i + 1;
      size := size - 255;
      done := done + 255;
    }
  }

  method Decrement(chunks: array<nat>, offset: nat, pages: nat, ghost used: set<nat>)
    requires Ledger(chunks[..], used) && Run(offset, pages) <= used
    requires pages > 0 && offset + pages <= 255 * chunks.Length
    modifies chunks
    ensures Ledger(chunks[..], used - Run(offset, pages))
  {
    hide Run, Ledger;
    var size := pages;
    var i := offset / 255;
    var n := if size < 255 - offset % 255 then size else 255 - offset % 255;
    RunSplit(offset, pages, n);
    LedgerSubtract(chunks[..], used, i, offset, n);
    chunks[i] := chunks[i] - n;
    i := i + 1;
    size := size - n;
    ghost var done := n;
    while size > 0
      invariant 0 <= size && done + size == pages && i <= chunks.Length
      invariant size > 0 ==> offset + done == 255 * i
      invariant Ledger(chunks[..], used - Run(offset, done))
    {
      ghost var before := used - Run(offset, done);
      RunSplit(offset, pages, done);
      if size < 255 {
        LedgerSubtract(chunks[..], before, i, offset + done, size);
        chunks[i] := chunks[i] - size;
        assert before - Run(offset + done, size) == used - Run(offset, pages);
        return;
      }
      RunSplit(offset, done + 255, done);
      RunSplit(offset + done, size, 255);
      LedgerSubtract(chunks[..], before, i, offset + done, 255);
      CounterFits(chunks[..], before, i);
      assert before - Run(offset + done, 255) == used - Run(offset, done + 255);
      chunks[i] := 0;
      i := i + 1;
      size := size - 255;
      done := done + 255;
    }
  }

  // ---------- committing ----------

  /** The pages to commit before an allocation, or to decommit after a free. */
  function ChunkInterval(chunks: seq<nat>, offset: nat, size: nat, pub: nat): (nat, nat)
    requires pub <= 255 * |chunks| && size > 0 && offset + size <= pub
  {
    var from := 255 * (offset / 255 + if chunks[offset / 255] > 0 then 1 else 0);
    var s := offset + size;
    var to := 255 * (s / 255 + if s % 255 != 0 && chunks[s / 255] == 0 then 1 else 0);
    (from, if to < pub then to else pub)
  }

  /** Exactly the chunks with a nonzero counter are committed. */
  ghost predicate Committed(chunks: seq<nat>, committed: set<nat>, pub: nat)
  {
    pub <= 255 * |chunks| && forall p :: 0 <= p < pub ==> (p in committed <==> chunks[p / 255] > 0)
  }

  ghost function Interval(ft: (nat, nat)): set<nat>
  {
    if ft.1 > ft.0 then Run(ft.0, ft.1 - ft.0) else {}
  }

  /** No page in use is ever uncommitted. */
  lemma UsedIsCommitted(chunks: seq<nat>, used: set<nat>, committed: set<nat>, pub: nat, p: nat)
    requires Ledger(chunks, used) && Committed(chunks, committed, pub) && p < pub && p in used
    ensures p in committed
  {
    var c := p / 255;
    assert 255 * c <= p < 255 * c + 255;
    CountPositive(used, 255 * c, 255 * c + 255);
  }

  lemma CounterZero(chunks: seq<nat>, used: set<nat>, c: nat)
    requires Ledger(chunks, used) && c < |chunks|
    ensures chunks[c] > 0 <==> exists p :: p in used && 255 * c <= p < 255 * c + 255
  {
    CountPositive(used, 255 * c, 255 * c + 255);
  }

  /** Page `p` lies in a chunk that the run touches. */
  predicate Touches(offset: nat, size: nat, p: nat)
  {
    offset / 255 <= p / 255 && 255 * (p / 255) < offset + size
  }

  /** The interval holds exactly the touched pages whose chunk counter is zero, and perhaps
      others whose chunk lies wholly inside the run. */
  lemma IntervalExact(chunks: seq<nat>, offset: nat, size: nat, pub: nat, p: nat)
    requires pub <= 255 * |chunks| && size > 0 && offset + size <= pub && p < pub
    ensures var (from, to) := ChunkInterval(chunks, offset, size, pub);
      && (from <= p < to ==> Touches(offset, size, p))
      && (Touches(offset, size, p) && chunks[p / 255] == 0 ==> from <= p < to)
      && (from <= p < to && chunks[p / 255] > 0 ==>
            offset < 255 * (p / 255) && 255 * (p / 255) + 255 <= offset + size)
  {
  }

  /** Committing the interval and then counting the run keeps the ledger and the committed
      memory in step. */
  lemma CommitKeeps(chunks: seq<nat>, used: set<nat>, committed: set<nat>, pub: nat,
                    offset: nat, size: nat, chunks': seq<nat>)
    requires Ledger(chunks, used) && Committed(chunks, committed, pub)
    requires size > 0 && offset + size <= pub
    requires |chunks'| == |chunks| && Ledger(chunks', used + Run(offset, size))
    ensures Committed(chunks', committed + Interval(ChunkInterval(chunks, offset, size, pub)), pub)
  {
    hide Run, Ledger, ChunkInterval;
    var committed' := committed + Interval(ChunkInterval(chunks, offset, size, pub));
    forall p | 0 <= p < pub ensures p in committed' <==> chunks'[p / 255] > 0 {
      IntervalExact(chunks, offset, size, pub, p);
      CounterZero(chunks, used, p / 255);
      CounterZero(chunks', used + Run(offset, size), p / 255);
      if Touches(offset, size, p) {
        var q := if offset < 255 * (p / 255) then 255 * (p / 255) else offset;
        assert q in Run(offset, size) && 255 * (p / 255) <= q < 255 * (p / 255) + 255;
      } else {
        assert forall q :: q in Run(offset, size) ==> !(255 * (p / 255) <= q < 255 * (p / 255) + 255);
      }
    }
  }

  /** After a run has been uncounted, only chunks it touches may be committed in vain. */
  ghost predicate Lagging(chunks: seq<nat>, committed: set<nat>, pub: nat, offset: nat, size: nat)
  {
    pub <= 255 * |chunks| && forall p :: 0 <= p < pub ==>
      && (chunks[p / 255] > 0 ==> p in committed)
      && (p in committed && chunks[p / 255] == 0 ==> Touches(offset, size, p))
  }

  /** Decommitting the interval of an unused run brings them back in step. */
  lemma DecommitKeeps(chunks: seq<nat>, used: set<nat>, committed: set<nat>, pub: nat,
                      offset: nat, size: nat)
    requires Ledger(chunks, used) && Lagging(chunks, committed, pub, offset, size)
    requires size > 0 && offset + size <= pub && used !! Run(offset, size)
    ensures Committed(chunks, committed - Interval(ChunkInterval(chunks, offset, size, pub)), pub)
  {
    hide Run, Ledger, ChunkInterval;
    var committed' := committed - Interval(ChunkInterval(chunks, offset, size, pub));
    forall p | 0 <= p < pub ensures p in committed' <==> chunks[p / 255] > 0 {
      IntervalExact(chunks, offset, size, pub, p);
      CounterZero(chunks, used, p / 255);
    }
  }

  /** Uncounting part of a growing run of unused pages: the committed memory may lag on the
      whole of it. */
  lemma UncountLags(chunks: seq<nat>, used: set<nat>, committed: set<nat>, pub: nat, o: nat, n: nat,
                    x: nat, k: nat, chunks': seq<nat>, o': nat, n': nat)
    requires Ledger(chunks, used) && Ledger(chunks', used - Run(x, k)) && |chunks'| == |chunks|
    requires Lagging(chunks, committed, pub, o, n)
    requires o' <= o && o + n <= o' + n' && o' <= x && x + k <= o' + n'
    ensures Lagging(chunks', committed, pub, o', n')
  {
    hide Run, Ledger;
    forall p | 0 <= p < pub
      ensures chunks'[p / 255] > 0 ==> p in committed
      ensures p in committed && chunks'[p / 255] == 0 ==> Touches(o', n', p)
    {
      CounterZero(chunks, used, p / 255);
      CounterZero(chunks', used - Run(x, k), p / 255);
      if chunks'[p / 255] == 0 && chunks[p / 255] > 0 {
        var q :| q in used && 255 * (p / 255) <= q < 255 * (p / 255) + 255;
        assert q !in used - Run(x, k);
      }
    }
  }

  lemma LaggingWidens(chunks: seq<nat>, committed: set<nat>, pub: nat, o: nat, n: nat, o': nat, n': nat)
    requires Lagging(chunks, committed, pub, o, n) && o' <= o && o + n <= o' + n'
    ensures Lagging(chunks, committed, pub, o', n')
  {
  }

  lemma CommittedLags(chunks: seq<nat>, committed: set<nat>, pub: nat, o: nat, n: nat)
    requires Committed(chunks, committed, pub)
    ensures Lagging(chunks, committed, pub, o, n)
  {
  }
}
