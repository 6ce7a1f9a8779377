/** The pages that slabs occupy: a slab's node stands for a fixed number of used pages. */
module SlabPages {
  import opened Blocks
  import opened Allocator

  /** Each node's slab starts at the page given, and has `k` used pages of its own. */
  ghost predicate Lodged(slabs: map<nat, nat>, k: nat, used: set<nat>, pub: nat)
  {
    && (forall i :: i in slabs ==> slabs[i] + k <= pub && Run(slabs[i], k) <= used)
    && (forall i, j :: i in slabs && j in slabs && i != j ==> Run(slabs[i], k) !! Run(slabs[j], k))
  }

  ghost function LodgedPages(slabs: map<nat, nat>, k: nat): set<nat>
  {
    set i, p | i in slabs && p in Run(slabs[i], k) :: p
  }

  lemma LodgedIn(slabs: map<nat, nat>, k: nat, i: nat)
    requires i in slabs
    ensures Run(slabs[i], k) <= LodgedPages(slabs, k)
  {
  }

  lemma LodgedUsed(slabs: map<nat, nat>, k: nat, used: set<nat>, pub: nat)
    requires Lodged(slabs, k, used, pub)
    ensures LodgedPages(slabs, k) <= used
  {
    hide Run;
  }

  lemma FirstPage(o: nat, k: nat)
    requires k > 0
    ensures o in Run(o, k)
  {
  }

  lemma SecondPage(o: nat, k: nat)
    requires k > 1
    ensures o + 1 in Run(o, k)
  {
  }

  lemma SlabPlaced(s: State, slabs: map<nat, nat>, slabs': map<nat, nat>, id: nat, o: nat)
    requires Placed(s, slabs) && slabs' == slabs[id := o] && id < |s.off| && s.off[id] == o
    ensures Placed(s, slabs')
  {
  }

  /** So each slab's node has a page that no block starts at. */
  lemma LodgedSpare(slabs: map<nat, nat>, k: nat, used: set<nat>, pub: nat, pages: set<nat>)
    requires Lodged(slabs, k, used, pub) && k > 0 && pages !! used
    ensures Spare(slabs, pages, pub)
  {
    hide Run;
    forall i | i in slabs ensures slabs[i] in Run(slabs[i], k) {
      FirstPage(slabs[i], k);
    }
  }

  lemma LodgedStill(slabs: map<nat, nat>, k: nat, used: set<nat>, used': set<nat>, pub: nat)
    requires Lodged(slabs, k, used, pub) && LodgedPages(slabs, k) <= used'
    ensures Lodged(slabs, k, used', pub)
  {
    hide Run;
    forall i | i in slabs ensures Run(slabs[i], k) <= used' {
      LodgedIn(slabs, k, i);
    }
  }

  lemma NotLodged(slabs: map<nat, nat>, k: nat, p: nat)
    requires p !in LodgedPages(slabs, k) && k > 0
    ensures forall i :: i in slabs ==> slabs[i] != p
  {
    forall i | i in slabs ensures slabs[i] != p {
      LodgedIn(slabs, k, i);
      FirstPage(slabs[i], k);
    }
  }

  /** A new slab in used pages. */
  lemma Lodge(slabs: map<nat, nat>, k: nat, used: set<nat>, pub: nat, s: nat, o: nat)
    requires Lodged(slabs, k, used, pub) && s !in slabs && o + k <= pub
    requires Run(o, k) <= used && Run(o, k) !! LodgedPages(slabs, k)
    ensures Lodged(slabs[s := o], k, used, pub) && LodgedPages(slabs[s := o], k) == LodgedPages(slabs, k) + Run(o, k)
  {
    hide Run;
    var slabs' := slabs[s := o];
    forall i | i in slabs ensures Run(slabs[i], k) !! Run(o, k) {
      LodgedIn(slabs, k, i);
    }
    LodgedIn(slabs', k, s);
    forall p | p in LodgedPages(slabs, k) ensures p in LodgedPages(slabs', k) {
      var i :| i in slabs && p in Run(slabs[i], k);
      assert slabs'[i] == slabs[i];
      LodgedIn(slabs', k, i);
    }
  }

  /** A slab's pages are its own, and the others keep theirs when it goes. */
  lemma Unlodge(slabs: map<nat, nat>, k: nat, used: set<nat>, pub: nat, s: nat)
    requires Lodged(slabs, k, used, pub) && s in slabs
    ensures slabs[s] + k <= pub && Run(slabs[s], k) <= used
    ensures Lodged(slabs - {s}, k, used - Run(slabs[s], k), pub)
    ensures LodgedPages(slabs - {s}, k) == LodgedPages(slabs, k) - Run(slabs[s], k)
    ensures k > 1 ==> forall i :: i in slabs ==> slabs[i] != slabs[s] + 1
  {
    var rest := slabs - {s};
    forall p | p in LodgedPages(slabs, k) - Run(slabs[s], k) ensures p in LodgedPages(rest, k) {
      var i :| i in slabs && p in Run(slabs[i], k);
      assert rest[i] == slabs[i];
    }
    if k > 1 {
      forall i | i in slabs ensures slabs[i] != slabs[s] + 1 {
        FirstPage(slabs[i], k);
      }
    }
  }
}
