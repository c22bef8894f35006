/** The durable log end to end, for the real canonical printer under any collision-free hash. */
module Durable {
  import opened Chain
  import opened Recovery

  /** Every lawful run from an empty log leaves a log that fsck accepts, holding exactly what
      was stored in order, and a live writer at its tip. */
  lemma EveryRunIsSafe(h: Hash, steps: seq<Step>)
    requires CollisionFree(h) && LawfulRun(ComputeHash(h), Empty, steps)
    ensures var d := ComputeHash(h);
      var s := Run(d, Empty, steps);
      && Accepted(d, s.log)
      && Payload(s.log) == AllStored(d, Empty, steps)
      && (s.tail.Some? ==> s.tail.value.tip == TipOf(s.log) && s.tail.value.lastTurn == LastTurn(s.log))
  {
    var d := ComputeHash(h);
    ComputeHashSound(h);
    RunSafe(d, Empty, steps);
    RunPayload(d, Empty, steps);
    assert Payload(Empty.log) + AllStored(d, Empty, steps) == AllStored(d, Empty, steps);
  }

  /** Two runs, however different their failures, whose logs end at the same tip stored the same
      contents in the same order. */
  lemma SameTipSameHistory(h: Hash, a: seq<Step>, b: seq<Step>)
    requires CollisionFree(h) && LawfulRun(ComputeHash(h), Empty, a) && LawfulRun(ComputeHash(h), Empty, b)
    requires var d := ComputeHash(h); TipOf(Run(d, Empty, a).log) == TipOf(Run(d, Empty, b).log)
    ensures var d := ComputeHash(h); AllStored(d, Empty, a) == AllStored(d, Empty, b)
  {
    var d := ComputeHash(h);
    ComputeHashSound(h);
    EveryRunIsSafe(h, a);
    EveryRunIsSafe(h, b);
    TipFixesLog(d, Run(d, Empty, a).log, Run(d, Empty, b).log);
  }

  /** The hypothesis on the hash can be met. */
  lemma CollisionFreeExists()
    ensures exists h :: CollisionFree(h)
  {
    var h: Hash := x => "x" + x;
    forall x, y | h(x) == h(y) ensures x == y {
      assert x == h(x)[1..] && y == h(y)[1..];
    }
    forall x ensures h(x) != GENESIS {
      assert h(x)[0] == 'x' && GENESIS[0] == 'b';
    }
    assert CollisionFree(h);
  }
}
