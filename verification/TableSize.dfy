/** The table grows only when every slot is used, so its length is the largest
    number of calls ever tracked at once. */
module TableSize {
  import opened Slots
  import opened Machine

  function UsedCount(t: Table): nat {
    if t == [] then 0 else UsedCount(t[..|t| - 1]) + if t[|t| - 1].isUsed then 1 else 0
  }

  lemma {:induction false} UsedCountBound(t: Table)
    ensures UsedCount(t) <= |t|
    ensures UsedCount(t) == |t| <==> forall i :: 0 <= i < |t| ==> t[i].isUsed
    decreases |t|
  {
    if t != [] {
      UsedCountBound(t[..|t| - 1]);
    }
  }

  /** The table has not grown beyond `len`, or it has and is full. */
  ghost predicate GrownFull(s: State, len: nat) {
    && len <= |s.table|
    && (len < |s.table| ==> forall i :: 0 <= i < |s.table| ==> s.table[i].isUsed)
  }

  lemma GrownFullKept(cfg: Config, s: State, a: Action, len: nat)
    requires GrownFull(s, len) && !a.Sweep?
    ensures GrownFull(Apply(cfg, s, a), len)
  {
  }
}
