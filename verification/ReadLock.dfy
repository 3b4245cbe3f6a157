/**
 Who holds the read side of a read/write lock, by program counter: the two protocols count their readers with it.
 */
module ReadLock {

  function Holders<P>(pcs: map<nat, P>, holds: P -> bool): set<nat> {
    set i | i in pcs && holds(pcs[i])
  }

  /** One caller moves, taking the lock, giving it back, or neither. */
  lemma HoldersChange<P>(pcs: map<nat, P>, holds: P -> bool, i: nat, pc: P)
    requires i in pcs
    ensures holds(pc) && !holds(pcs[i]) ==> |Holders(pcs[i := pc], holds)| == |Holders(pcs, holds)| + 1
    ensures !holds(pc) && holds(pcs[i]) ==> |Holders(pcs[i := pc], holds)| == |Holders(pcs, holds)| - 1
    ensures (holds(pc) <==> holds(pcs[i])) ==> Holders(pcs[i := pc], holds) == Holders(pcs, holds)
    ensures holds(pcs[i]) ==> |Holders(pcs, holds)| > 0
  {
    var after := pcs[i := pc];
    if holds(pc) && !holds(pcs[i]) {
      assert Holders(after, holds) == Holders(pcs, holds) + {i};
    } else if !holds(pc) && holds(pcs[i]) {
      assert Holders(after, holds) == Holders(pcs, holds) - {i};
    } else {
      assert Holders(after, holds) == Holders(pcs, holds);
    }
    assert holds(pcs[i]) ==> i in Holders(pcs, holds);
  }
}
