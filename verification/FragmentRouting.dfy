/** Where follow-on fragments go: to the file recorded by the most recent first
    fragment of the same key with no last fragment seen since. */
module FragmentRouting {
  import opened Slots
  import opened Machine
  import opened FileSplit

  // ---- the key order of the fragment map ----

  predicate Less(a: FragKey, b: FragKey) {
    || a.saddr < b.saddr
    || (a.saddr == b.saddr && a.daddr < b.daddr)
    || (a.saddr == b.saddr && a.daddr == b.daddr && a.id < b.id)
  }

  /** The order is strict and total, so that an ordered map keyed by it tells keys
      apart exactly when they differ. */
  lemma KeyOrder(a: FragKey, b: FragKey, c: FragKey)
    ensures !Less(a, a)
    ensures Less(a, b) && Less(b, c) ==> Less(a, c)
    ensures !Less(a, b) && !Less(b, a) <==> a == b
  {
  }

  predicate Sorted(keys: seq<FragKey>) { forall m, n :: 0 <= m < n < |keys| ==> Less(keys[m], keys[n]) }

  /** The first key, from `n` on, that is not less than the one looked for. */
  function LowerBound(keys: seq<FragKey>, key: FragKey, n: nat): (r: nat)
    requires n <= |keys|
    ensures n <= r <= |keys| && (r < |keys| ==> !Less(keys[r], key))
    ensures forall m :: n <= m < r ==> Less(keys[m], key)
    decreases |keys| - n
  {
    if n < |keys| && Less(keys[n], key) then LowerBound(keys, key, n + 1) else n
  }

  /** A map that keeps its keys in this order finds exactly the keys it holds, each at
      its own place: the lower bound, unless the key is less than that. */
  lemma OrderedMapFinds(keys: seq<FragKey>, key: FragKey)
    requires Sorted(keys)
    ensures var n := LowerBound(keys, key, 0);
            var found := n < |keys| && !Less(key, keys[n]);
            (found <==> key in keys) && (found ==> keys[n] == key)
  {
    var n := LowerBound(keys, key, 0);
    if n < |keys| {
      KeyOrder(keys[n], key, key);
    }
    if key in keys {
      var j :| 0 <= j < |keys| && keys[j] == key;
      KeyOrder(key, key, key);
      assert !Less(keys[j], key);
      assert n <= j;
    }
  }

  // ---- the history of a key ----

  /** The file of the last first fragment, unless a last fragment came after it. */
  function Routed(log: seq<Event>, key: FragKey): Handle {
    if log == [] then 0
    else
      var e := log[|log| - 1];
      if e.FirstFragment? && e.key == key then e.file
      else if e.LastFragment? && e.key == key then 0
      else Routed(log[..|log| - 1], key)
  }

  predicate Routes(e: Event, key: FragKey) { (e.FirstFragment? || e.LastFragment?) && e.key == key }

  lemma RoutedOne(log: seq<Event>, e: Event, key: FragKey)
    ensures Routed(log + [e], key) ==
            if !Routes(e, key) then Routed(log, key) else if e.FirstFragment? then e.file else 0
  {
    assert (log + [e])[..|log + [e]| - 1] == log;
  }

  lemma {:induction false} RoutedQuiet(log: seq<Event>, more: seq<Event>, key: FragKey)
    requires forall e :: e in more ==> !Routes(e, key)
    ensures Routed(log + more, key) == Routed(log, key)
    decreases |more|
  {
    if more == [] {
      assert log + more == log;
    } else {
      var n := |more| - 1;
      assert log + more == log + more[..n] + [more[n]];
      RoutedOne(log + more[..n], more[n], key);
      RoutedQuiet(log, more[..n], key);
    }
  }

  /** The fragment map is that history. */
  ghost predicate RoutesHistory(s: State) {
    forall key :: Lookup(s.frags, key) == Routed(s.log, key)
  }

  lemma FollowHistory(cfg: Config, s: State, a: Action, key: FragKey)
    requires a.FollowFragment?
    ensures Routed(s.log + EventsOf(cfg, s, a), key) == if !a.more && key == a.key then 0 else Routed(s.log, key)
  {
    var f := Lookup(s.frags, a.key);
    var write := if f != 0 then [Wrote(Fragment, f, s.pos)] else [];
    RoutedQuiet(s.log, write, key);
    if !a.more {
      assert s.log + (write + [LastFragment(a.key)]) == s.log + write + [LastFragment(a.key)];
      RoutedOne(s.log + write, LastFragment(a.key), key);
    } else {
      assert write + [] == write;
    }
  }

  /** A lookup that inserts a null entry changes no answer; a last fragment clears one. */
  lemma FollowLookup(cfg: Config, s: State, a: Action, key: FragKey)
    requires a.FollowFragment?
    ensures Lookup(Apply(cfg, s, a).frags, key) == if !a.more && key == a.key then 0 else Lookup(s.frags, key)
  {
  }

  lemma OthersRouteNothing(cfg: Config, s: State, a: Action, key: FragKey)
    requires !a.FollowFragment? && !a.RecordFragment?
    ensures forall e :: e in EventsOf(cfg, s, a) ==> !Routes(e, key)
    ensures Apply(cfg, s, a).frags == s.frags
  {
    if a.Sweep? {
      SweepWritesNothing(cfg, s.table, |s.table|, a.now);
    }
  }

  lemma RoutesKept(cfg: Config, s: State, a: Action)
    requires RoutesHistory(s)
    ensures RoutesHistory(Apply(cfg, s, a))
  {
    LogIs(cfg, s, a);
    forall key
      ensures Lookup(Apply(cfg, s, a).frags, key) == Routed(Apply(cfg, s, a).log, key)
    {
      if a.FollowFragment? {
        FollowHistory(cfg, s, a, key);
        FollowLookup(cfg, s, a, key);
      } else if a.RecordFragment? && Enabled(s, a) {
        RoutedOne(s.log, FirstFragment(a.key, s.table[a.slot].file), key);
      } else if !a.RecordFragment? {
        OthersRouteNothing(cfg, s, a, key);
        RoutedQuiet(s.log, EventsOf(cfg, s, a), key);
      }
    }
  }
}
