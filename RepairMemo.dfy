/** The memo of repaired classes: translating a class repairs its whole
    superclass chain, and a class whose chain is repaired is not repaired
    again until the memo is flushed. */
module RepairMemo {
  import opened RepairTrees
  import opened RepairTraversal

  /** Every class with a tree on the superclass chain starting at `c` is in
      `repaired`. */
  predicate ChainRepaired(g: Setting, repaired: set<ClassId>, c: ClassId)
    requires WellFormed(g)
    decreases RankOf(g, c)
  {
    (c in g.envs ==> c in repaired)
    && (c in g.superclass ==> ChainRepaired(g, repaired, g.superclass[c]))
  }

  /** A larger memo still covers the chain. */
  lemma {:induction false} ChainRepairedGrows(g: Setting, repaired: set<ClassId>, more: set<ClassId>, c: ClassId)
    requires WellFormed(g) && ChainRepaired(g, repaired, c) && repaired <= more
    decreases RankOf(g, c)
    ensures ChainRepaired(g, more, c)
  {
    if c in g.superclass {
      ChainRepairedGrows(g, repaired, more, g.superclass[c]);
    }
  }

  /** A class whose chain is repaired is left alone: the state is returned
      unchanged. */
  lemma {:induction false} TrClassMemoized(g: Setting, s: State, c: ClassId)
    requires WellFormed(g) && Fits(g, s) && ChainRepaired(g, s.memo.repaired, c)
    decreases RankOf(g, c)
    ensures TrClass(g, s, c) == s
  {
    if !s.fatal && c in g.superclass {
      TrClassMemoized(g, s, g.superclass[c]);
    }
  }

  /** Unless MissingPlatformError was thrown, translating a class leaves
      its whole chain repaired. */
  lemma {:induction false} TrClassRepairsChain(g: Setting, s: State, c: ClassId)
    requires WellFormed(g) && Fits(g, s)
    decreases RankOf(g, c)
    ensures !TrClass(g, s, c).fatal ==> ChainRepaired(g, TrClass(g, s, c).memo.repaired, c)
  {
    var r := TrClass(g, s, c);
    if !s.fatal && !r.fatal {
      var s1 := if c in g.superclass then TrClass(g, s, g.superclass[c]) else s;
      assert !s1.fatal;
      if c in g.superclass {
        TrClassRepairsChain(g, s, g.superclass[c]);
        ChainRepairedGrows(g, s1.memo.repaired, r.memo.repaired, g.superclass[c]);
      }
    }
  }

  /** Translating a class twice is translating it once. */
  lemma TrClassIdempotent(g: Setting, s: State, c: ClassId)
    requires WellFormed(g) && Fits(g, s)
    ensures TrClass(g, TrClass(g, s, c), c) == TrClass(g, s, c)
  {
    var r := TrClass(g, s, c);
    if !r.fatal {
      TrClassRepairsChain(g, s, c);
      TrClassMemoized(g, r, c);
    }
  }
}
