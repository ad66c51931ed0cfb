/** The subscription compiler never blocks more than its lists ask for. */
module SubscriptionSafety {
  import opened Text
  import opened Dnr
  import opened NetworkFilter
  import opened Packing
  import opened SubscriptionLines
  import opened SubscriptionCompiler

  ghost predicate Shapely(rules: set<Rule>) {
    forall r | r in rules :: r.priority == if r.action == Block then 1 else 2
  }

  lemma KeptShapely(es: seq<Effect>)
    requires ShapedAll(es)
    ensures Shapely(Kept(Collect(es))) && Unpacked(Kept(Collect(es)))
  {
    CollectGathers(es);
  }

  lemma PackedShapely(kept: set<Rule>, packed: set<Rule>)
    requires Packs(kept, packed) && Shapely(kept)
    ensures Shapely(packed)
  {
    forall r | r in packed ensures r.priority == if r.action == Block then 1 else 2 {
      if r.condition.requestDomains != {} {
        var h :| h in r.condition.requestDomains;
        assert h in GroupHosts(kept, WithHosts(r, {}));
        var s :| s in kept && HostOf(s).Some? && Template(s) == WithHosts(r, {});
        assert s.priority == r.priority && s.action == r.action;
      } else {
        assert r in Loose(kept);
      }
    }
  }

  /** With blocks at priority 1 and exceptions at 2, a request is blocked exactly when a block
      applies and no exception does. */
  lemma BlockedMeans(rules: set<Rule>, q: Request)
    requires Shapely(rules)
    ensures Decide(rules, q) == Blocked
            <==> (exists r :: r in rules && r.action == Block && Applies(r, q))
                 && forall r | r in rules && r.action != Block :: !Applies(r, q)
  {
    if exists r :: Wins(r, rules, q) && r.action == Block {
      var r :| Wins(r, rules, q) && r.action == Block;
      assert forall o | o in rules && Applies(o, q) :: Beats(r, o);
    }
    if (exists r :: r in rules && r.action == Block && Applies(r, q))
       && forall r | r in rules && r.action != Block :: !Applies(r, q)
    {
      var r :| r in rules && r.action == Block && Applies(r, q);
      assert Wins(r, rules, q);
    }
  }

  ghost function AsSet(rules: seq<Rule>): set<Rule> { set r | r in rules }

  /** Cutting to the budget drops blocks only, so it can unblock requests but never block one;
      when nothing is dropped or suppressed the verdict is that of all surviving rules. */
  lemma EmissionSafe(packed: set<Rule>, suppressBlocks: bool, budget: nat, rules: seq<Rule>, q: Request)
    requires Shapely(packed) && Emission(Usable(packed, suppressBlocks), budget, rules)
    ensures Decide(AsSet(rules), q) == Blocked ==> Decide(packed, q) == Blocked && !suppressBlocks
    ensures !suppressBlocks && |packed| <= budget ==> AsSet(rules) == packed
  {
    var out := AsSet(rules);
    assert out <= packed;
    BlockedMeans(out, q);
    BlockedMeans(packed, q);
    if !suppressBlocks && |packed| <= budget {
      AsSetSize(rules);
      SameSize(out, packed);
    }
  }

  lemma SameSize<T>(a: set<T>, b: set<T>)
    requires a <= b && |a| == |b|
    ensures a == b
  {
    assert b == a + (b - a);
  }

  lemma {:induction false} AsSetSize(rules: seq<Rule>)
    requires NoRepeats(rules)
    ensures |AsSet(rules)| == |rules|
  {
    OrdersSize(rules, AsSet(rules));
  }

  lemma EmittedSafe(kept: set<Rule>, suppressBlocks: bool, budget: nat, out: Emitted, q: Request)
    requires Shapely(kept) && Unpacked(kept) && WellFormed(q) && EmissionOf(kept, suppressBlocks, budget, out)
    ensures Decide(AsSet(out.rules), q) == Blocked ==> Decide(kept, q) == Blocked && !suppressBlocks
    ensures !suppressBlocks && out.dropped == 0 ==> Decide(AsSet(out.rules), q) == Decide(kept, q)
  {
    var packed :| Packs(kept, packed) && EmissionFrom(packed, suppressBlocks, budget, out);
    PackedShapely(kept, packed);
    EmissionSafe(packed, suppressBlocks, budget, out.rules, q);
    PackingPreservesMeaning(kept, packed, q);
  }

  /** Some line's block survives and applies; no surviving exception of any line applies. */
  ghost predicate JustBlocked(es: seq<Effect>, cancelled: set<Rule>, q: Request) {
    && (exists e, r :: e in es && r in e.rules && r !in cancelled && r.action == Block && Applies(r, q))
    && (forall e, r | e in es && r in e.rules && r !in cancelled && r.action != Block :: !Applies(r, q))
  }

  lemma BlockedByLines(es: seq<Effect>, st: State, q: Request)
    requires Gathers(es, st) && Shapely(Kept(st)) && Decide(Kept(st), q) == Blocked
    ensures JustBlocked(es, st.cancelled, q)
  {
    BlockedMeans(Kept(st), q);
    var r :| r in Kept(st) && r.action == Block && Applies(r, q);
    var source :| source in es && r in source.rules;
    forall e, r | e in es && r in e.rules && r !in st.cancelled && r.action != Block ensures !Applies(r, q) {
      assert r in Kept(st);
    }
  }

  /** Whatever the output blocks is blocked by some surviving block rule of some line, and by no
      surviving exception of any line; suppression leaves nothing to block. */
  lemma OutputSound(es: seq<Effect>, budget: nat, out: Output, q: Request)
    requires ShapedAll(es) && Compiles(es, budget, out) && WellFormed(q)
    requires Decide(AsSet(out.rules), q) == Blocked
    ensures JustBlocked(es, Collect(es).cancelled, q)
    ensures forall e | e in es :: !e.suppressBlocks
  {
    var st := Collect(es);
    CollectGathers(es);
    KeptShapely(es);
    NetworkSafe(Kept(st), st.suppressBlocks, budget, OmittedCount(ScopeAll(st)), out, q);
    BlockedByLines(es, st, q);
  }

  lemma NetworkSafe(kept: set<Rule>, suppressBlocks: bool, budget: nat, omitted: nat, out: Output, q: Request)
    requires Shapely(kept) && Unpacked(kept) && WellFormed(q)
    requires NetworkSide(kept, suppressBlocks, budget, omitted, out)
    ensures Decide(AsSet(out.rules), q) == Blocked ==> Decide(kept, q) == Blocked && !suppressBlocks
    ensures !suppressBlocks && out.networkDropped == 0 ==> Decide(AsSet(out.rules), q) == Decide(kept, q)
    ensures out.networkSupported == |out.rules| + out.networkDropped && |out.rules| <= budget
  {
    EmittedSafe(kept, suppressBlocks, budget,
                Emitted(out.rules, out.networkSupported, out.networkDropped, out.safetySuppressed - omitted), q);
  }

  /** Without suppression and within the budget the compiled rules decide every request exactly
      as the surviving translated lines do. */
  lemma OutputExact(es: seq<Effect>, budget: nat, out: Output, q: Request)
    requires ShapedAll(es) && Compiles(es, budget, out) && WellFormed(q)
    requires !Collect(es).suppressBlocks && out.networkDropped == 0
    ensures Decide(AsSet(out.rules), q) == Decide(Kept(Collect(es)), q)
  {
    var st := Collect(es);
    KeptShapely(es);
    NetworkSafe(Kept(st), st.suppressBlocks, budget, OmittedCount(ScopeAll(st)), out, q);
  }

  /** The order of lines and sources does not change what is collected, except the order of the
      hiding rules. */
  lemma LineOrderIrrelevant(a: seq<Effect>, b: seq<Effect>)
    requires forall e :: e in a <==> e in b
    ensures Collect(a).(hides := []) == Collect(b).(hides := [])
    ensures forall h :: h in Collect(a).hides <==> h in Collect(b).hides
  {
    CollectGathers(a);
    CollectGathers(b);
    var x, y := Collect(a), Collect(b);
    assert x.rules == y.rules && x.cancelled == y.cancelled && x.exempt == y.exempt && x.suppressed == y.suppressed;
    assert x.genericExcluded == y.genericExcluded && x.allExcluded == y.allExcluded;
  }
}
