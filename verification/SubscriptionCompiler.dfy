/** The subscription compiler: collect what the lines contribute, cancel, pack, make blocks
    give way to exceptions, and cut to the browser's budget. */
module SubscriptionCompiler {
  import opened Text
  import opened Dnr
  import opened NetworkFilter
  import opened Packing
  import opened SubscriptionLines
  import opened Reasons
  import Diagnostics

  const MAX_BYTES := 8 * 1024 * 1024
  const MAX_LINES := 300_000
  const MAX_BUDGET := 29_800
  const MAX_COSMETIC := 10_000
  const MAX_DOMAINS := 200

  datatype Source = Source(id: string, text: string)

  function TrimBom(text: string): (r: string)
    ensures |r| <= |text|
  {
    TrimStartChar(text, 0xFEFF as char)
  }

  /** The trimmed lines of a source. */
  function Raws(text: string): (r: seq<string>)
    ensures |r| == |Lines(TrimBom(text))|
  {
    MapSeq(Lines(TrimBom(text)), Trim)
  }

  function EffectsOf(raws: seq<string>): (r: seq<Effect>)
    ensures |r| == |raws|
  {
    MapSeq(raws, LineEffect)
  }

  /** The contributions of all lines of all sources, in order. */
  function Effects(sources: seq<Source>): seq<Effect> {
    if sources == [] then [] else
      Effects(sources[..|sources| - 1]) + EffectsOf(Raws(sources[|sources| - 1].text))
  }

  // What the lines add up to

  datatype State = State(
    rules: set<Rule>,
    cancelled: set<Rule>,
    suppressBlocks: bool,
    hides: seq<Hide>,
    exempt: set<(string, string)>,
    suppressed: set<string>,
    genericExcluded: set<string>,
    allExcluded: set<string>,
    suppressGeneric: bool,
    suppressCosmetic: bool)

  const START := State({}, {}, false, [], {}, {}, {}, {}, false, false)

  function Absorb(st: State, e: Effect): State {
    State(
      st.rules + e.rules,
      st.cancelled + e.cancelled,
      st.suppressBlocks || e.suppressBlocks,
      st.hides + e.hides,
      st.exempt + e.exempt,
      st.suppressed + e.suppressed,
      st.genericExcluded + e.genericExcluded,
      st.allExcluded + e.allExcluded,
      st.suppressGeneric || e.suppressGeneric,
      st.suppressCosmetic || e.suppressCosmetic)
  }

  function Collect(es: seq<Effect>): State {
    if es == [] then START else Absorb(Collect(es[..|es| - 1]), es[|es| - 1])
  }

  /** A collected state holds exactly what the single lines contribute. */
  ghost predicate Gathers(es: seq<Effect>, st: State) {
    && (forall r :: r in st.rules <==> exists e :: e in es && r in e.rules)
    && (forall r :: r in st.cancelled <==> exists e :: e in es && r in e.cancelled)
    && (st.suppressBlocks <==> exists e :: e in es && e.suppressBlocks)
    && (forall h :: h in st.hides <==> exists e :: e in es && h in e.hides)
    && (forall x :: x in st.exempt <==> exists e :: e in es && x in e.exempt)
    && (forall s :: s in st.suppressed <==> exists e :: e in es && s in e.suppressed)
    && (forall d :: d in st.genericExcluded <==> exists e :: e in es && d in e.genericExcluded)
    && (forall d :: d in st.allExcluded <==> exists e :: e in es && d in e.allExcluded)
    && (st.suppressGeneric <==> exists e :: e in es && e.suppressGeneric)
    && (st.suppressCosmetic <==> exists e :: e in es && e.suppressCosmetic)
  }

  lemma {:induction false} CollectGathers(es: seq<Effect>)
    ensures Gathers(es, Collect(es))
  {
    if es != [] {
      var front, last := es[..|es| - 1], es[|es| - 1];
      CollectGathers(front);
      assert forall e :: e in es <==> e in front || e == last;
    }
  }

  // Cosmetic rules

  datatype Cosmetic = Cosmetic(domains: set<string>, excluded: set<string>, selector: string)

  function ExemptFor(st: State, selector: string): set<string> {
    set x | x in st.exempt && x.0 == selector :: x.1
  }

  function Exclusions(st: State, h: Hide): set<string> {
    h.excluded + st.allExcluded + (if h.domains == {} then st.genericExcluded else {}) + ExemptFor(st, h.selector)
  }

  predicate Omitted(st: State, h: Hide) {
    st.suppressCosmetic || (st.suppressGeneric && h.domains == {}) || h.selector in st.suppressed
    || |Exclusions(st, h)| > MAX_DOMAINS
  }

  function CosmeticOf(st: State, h: Hide): Cosmetic { Cosmetic(h.domains, Exclusions(st, h), h.selector) }

  /** A hiding rule with its final scope, and whether it must be left out. */
  datatype Scoped = Scoped(cosmetic: Cosmetic, omitted: bool)

  function ScopeOf(st: State, h: Hide): Scoped { Scoped(CosmeticOf(st, h), Omitted(st, h)) }

  function ScopeAll(st: State): (r: seq<Scoped>)
    ensures |r| == |st.hides|
  {
    seq(|st.hides|, i requires 0 <= i < |st.hides| => ScopeOf(st, st.hides[i]))
  }

  ghost function Cosmetics(scoped: seq<Scoped>): set<Cosmetic> {
    set s | s in scoped && !s.omitted :: s.cosmetic
  }

  ghost function OmittedCount(scoped: seq<Scoped>): nat {
    if scoped == [] then 0
    else OmittedCount(scoped[..|scoped| - 1]) + if scoped[|scoped| - 1].omitted then 1 else 0
  }

  // Emission of the packed rules

  /** Unless blocks are suppressed every packed rule may be emitted. */
  ghost function Usable(packed: set<Rule>, suppressBlocks: bool): set<Rule> {
    if suppressBlocks then Exceptions(packed) else packed
  }

  function Exceptions(rules: set<Rule>): set<Rule> {
    set r | r in rules && r.action != Block
  }

  ghost predicate NoRepeats(rules: seq<Rule>) {
    forall i, j | 0 <= i < j < |rules| :: rules[i] != rules[j]
  }

  ghost predicate ExceptionsFirst(rules: seq<Rule>) {
    forall i, j | 0 <= i < j < |rules| && rules[j].action != Block :: rules[i].action != Block
  }

  /** A cut of the usable rules to a budget that drops blocks only. */
  ghost predicate Emission(usable: set<Rule>, budget: nat, rules: seq<Rule>) {
    && NoRepeats(rules) && ExceptionsFirst(rules)
    && (forall r | r in rules :: r in usable)
    && (forall r | r in usable && r.action != Block :: r in rules)
    && |rules| == if |usable| <= budget then |usable| else budget
  }

  ghost predicate Orders(rules: seq<Rule>, elements: set<Rule>) {
    NoRepeats(rules) && (forall r :: r in rules <==> r in elements)
  }

  lemma {:induction false} OrdersSize(rules: seq<Rule>, elements: set<Rule>)
    requires Orders(rules, elements)
    ensures |rules| == |elements|
    decreases |rules|
  {
    if rules == [] {
      assert forall r :: r !in elements;
    } else {
      var last := rules[|rules| - 1];
      var front := rules[..|rules| - 1];
      assert forall i | 0 <= i < |front| :: front[i] == rules[i] && front[i] != last;
      assert forall r :: r in rules <==> r in front || r == last;
      assert Orders(front, elements - {last});
      OrdersSize(front, elements - {last});
      assert last in elements;
    }
  }

  method Listing(rules: set<Rule>) returns (order: seq<Rule>)
    ensures Orders(order, rules)
  {
    order := [];
    var rest := rules;
    while rest != {}
      invariant rest <= rules
      invariant Orders(order, rules - rest)
      decreases rest
    {
      var r :| r in rest;
      order := order + [r];
      rest := rest - {r};
    }
  }

  /** Sorting by (is a block, serialised rule): here any order with the exceptions first. */
  method SortRules(rules: set<Rule>) returns (order: seq<Rule>)
    ensures Orders(order, rules) && ExceptionsFirst(order)
    ensures forall i | 0 <= i < |order| :: order[i].action != Block <==> i < |Exceptions(rules)|
  {
    var exceptions := Exceptions(rules);
    var first := Listing(exceptions);
    var second := Listing(rules - exceptions);
    OrdersSize(first, exceptions);
    order := first + second;
    SortedJoin(rules, first, second);
  }

  lemma SortedJoin(rules: set<Rule>, first: seq<Rule>, second: seq<Rule>)
    requires Orders(first, Exceptions(rules)) && Orders(second, rules - Exceptions(rules))
    ensures var order := first + second;
            Orders(order, rules) && ExceptionsFirst(order)
            && forall i | 0 <= i < |order| :: order[i].action != Block <==> i < |first|
  {
    var order := first + second;
    forall i | 0 <= i < |order| ensures order[i].action != Block <==> i < |first| {
      if i < |first| { assert first[i] in first; } else { assert second[i - |first|] in second; }
    }
    forall i, j | 0 <= i < j < |order| ensures order[i] != order[j] {
      if i >= |first| { assert second[i - |first|] != second[j - |first|]; }
    }
  }

  datatype Emitted = Emitted(rules: seq<Rule>, supported: nat, dropped: nat, suppressed: nat)

  /** What emission promises for the rules that survived cancellation. */
  ghost predicate EmissionOf(kept: set<Rule>, suppressBlocks: bool, budget: nat, out: Emitted) {
    exists packed :: Packs(kept, packed) && EmissionFrom(packed, suppressBlocks, budget, out)
  }

  ghost predicate EmissionFrom(packed: set<Rule>, suppressBlocks: bool, budget: nat, out: Emitted) {
    && Emission(Usable(packed, suppressBlocks), budget, out.rules)
    && out.supported == |Usable(packed, suppressBlocks)|
    && out.supported == |out.rules| + out.dropped
    && out.suppressed == |packed| - out.supported
  }

  method Emit(kept: set<Rule>, suppressBlocks: bool, budget: nat) returns (r: Result<Emitted>)
    requires Unpacked(kept)
    ensures r.Ok? ==> EmissionOf(kept, suppressBlocks, budget, r.value)
    ensures r.Err? ==> r.reason == TooManyAllowances
                       && exists packed :: Packs(kept, packed) && |Exceptions(packed)| > budget
  {
    var packed := PackNetwork(kept);
    var usable := if suppressBlocks then Exceptions(packed) else packed;
    assert Exceptions(usable) == Exceptions(packed);
    var rules := SortRules(usable);
    OrdersSize(rules, usable);
    UsableSize(packed, suppressBlocks);
    if |Exceptions(usable)| > budget {
      return Err(TooManyAllowances);
    }
    var cut := if |rules| <= budget then rules else rules[..budget];
    CutKeepsExceptions(usable, rules, budget);
    var out := Emitted(cut, |usable|, |rules| - |cut|, |packed| - |usable|);
    assert EmissionFrom(packed, suppressBlocks, budget, out);
    return Ok(out);
  }

  lemma UsableSize(packed: set<Rule>, suppressBlocks: bool)
    ensures |Usable(packed, suppressBlocks)| <= |packed|
  {
    assert Usable(packed, suppressBlocks) <= packed;
    SubsetSize(Usable(packed, suppressBlocks), packed);
  }

  lemma CutKeepsExceptions(usable: set<Rule>, rules: seq<Rule>, budget: nat)
    requires Orders(rules, usable) && ExceptionsFirst(rules) && |rules| == |usable|
    requires forall i | 0 <= i < |rules| :: rules[i].action != Block <==> i < |Exceptions(usable)|
    requires |Exceptions(usable)| <= budget
    ensures Emission(usable, budget, if |rules| <= budget then rules else rules[..budget])
  {
    var cut := if |rules| <= budget then rules else rules[..budget];
    forall r | r in usable && r.action != Block ensures r in cut {
      var i :| 0 <= i < |rules| && rules[i] == r;
      assert cut[i] == r;
    }
    forall r | r in cut ensures r in usable {
      var i :| 0 <= i < |cut| && cut[i] == r;
      assert rules[i] in rules;
    }
  }

  // Per-list statistics

  datatype ListStats = ListStats(id: string, network: nat, cosmetic: nat, unsupported: nat, ignored: nat)

  function CountLine(stats: ListStats, class_: LineClass): ListStats {
    match class_
    case NetworkLine => stats.(network := stats.network + 1)
    case CosmeticLine => stats.(cosmetic := stats.cosmetic + 1)
    case UnsupportedLine => stats.(unsupported := stats.unsupported + 1)
    case IgnoredLine => stats.(ignored := stats.ignored + 1)
  }

  function CountLines(id: string, es: seq<Effect>): ListStats {
    if es == [] then ListStats(id, 0, 0, 0, 0)
    else CountLine(CountLines(id, es[..|es| - 1]), es[|es| - 1].class_)
  }

  /** Every scanned line is counted in exactly one class, and the accepted hiding rules are
      the lines of the cosmetic class. */
  lemma {:induction false} EveryLineCounted(id: string, es: seq<Effect>)
    requires forall e | e in es :: |e.hides| == if e.class_ == CosmeticLine then 1 else 0
    ensures var stats := CountLines(id, es);
            stats.network + stats.cosmetic + stats.unsupported + stats.ignored == |es|
            && stats.cosmetic == |Collect(es).hides| && stats.id == id
  {
    if es != [] {
      EveryLineCounted(id, es[..|es| - 1]);
      assert es[|es| - 1] in es;
    }
  }

  function ReasonCount(es: seq<Effect>): nat {
    if es == [] then 0 else ReasonCount(es[..|es| - 1]) + |es[|es| - 1].reasons|
  }

  datatype Origin = Origin(source: string, line: nat, raw: string)

  function EntryOf(at: Origin, reason: Reason): Diagnostics.Entry {
    Diagnostics.Cut(Diagnostics.Entry(at.source, at.line, at.raw, reason))
  }

  function EntriesOf(at: Origin, reasons: seq<Reason>): (r: seq<Diagnostics.Entry>)
    ensures |r| == |reasons|
  {
    seq(|reasons|, i requires 0 <= i < |reasons| => EntryOf(at, reasons[i]))
  }

  function Repeat(at: Origin, n: nat): seq<Origin> { seq(n, _ => at) }

  /** The diagnostics of some lines of a source. */
  ghost function Reported(id: string, raws: seq<string>, es: seq<Effect>): seq<Diagnostics.Entry>
    requires |raws| == |es|
  {
    if es == [] then [] else
      var n := |es| - 1;
      Reported(id, raws[..n], es[..n]) + EntriesOf(Origin(id, n + 1, raws[n]), es[n].reasons)
  }

  /** Where the hiding rules of some lines of a source come from. */
  ghost function HidesFrom(id: string, raws: seq<string>, es: seq<Effect>): seq<Origin>
    requires |raws| == |es|
  {
    if es == [] then [] else
      var n := |es| - 1;
      HidesFrom(id, raws[..n], es[..n]) + Repeat(Origin(id, n + 1, raws[n]), |es[n].hides|)
  }

  method Report(log: Diagnostics.Log, at: Origin, reasons: seq<Reason>)
    requires log.Valid()
    modifies log
    ensures log.Valid() && log.entries == old(log.entries) + EntriesOf(at, reasons)
  {
    for i := 0 to |reasons|
      invariant log.Valid() && log.entries == old(log.entries) + EntriesOf(at, reasons)[..i]
    {
      log.Add(Diagnostics.Entry(at.source, at.line, at.raw, reasons[i]));
    }
  }

  lemma Appended<T>(a: seq<T>, b: seq<T>, c: seq<T>)
    ensures a + b + c == a + (b + c)
  {
  }

  /** What the loop has after some lines. */
  ghost predicate Scanned(id: string, raws: seq<string>, es: seq<Effect>, earlier: seq<Effect>, st: State, stats: ListStats,
                          origins: seq<Origin>)
  {
    |raws| == |es| && st == Collect(earlier + es) && stats == CountLines(id, es) && origins == HidesFrom(id, raws, es)
  }

  lemma ScanStep(id: string, raws: seq<string>, es: seq<Effect>, earlier: seq<Effect>, i: nat, st: State, stats: ListStats,
                 origins: seq<Origin>)
    requires i < |es| == |raws| && Scanned(id, raws[..i], es[..i], earlier, st, stats, origins)
    ensures Scanned(id, raws[..i + 1], es[..i + 1], earlier, Absorb(st, es[i]), CountLine(stats, es[i].class_),
                    origins + Repeat(Origin(id, i + 1, raws[i]), |es[i].hides|))
  {
    StepBack(earlier, es, i);
    LinesSnoc(id, raws, es, i);
  }

  /** The loop over one source's lines, each with what it contributes. */
  method ScanLines(id: string, raws: seq<string>, es: seq<Effect>, before: State, log: Diagnostics.Log,
                   ghost earlier: seq<Effect>)
    returns (st: State, stats: ListStats, origins: seq<Origin>)
    requires |es| == |raws|
    requires log.Valid() && before == Collect(earlier)
    modifies log
    ensures Scanned(id, raws, es, earlier, st, stats, origins)
    ensures log.Valid() && log.entries == old(log.entries) + Reported(id, raws, es)
  {
    st, stats, origins := before, ListStats(id, 0, 0, 0, 0), [];
    assert earlier + es[..0] == earlier;
    for i := 0 to |raws|
      invariant Scanned(id, raws[..i], es[..i], earlier, st, stats, origins)
      invariant log.Valid() && log.entries == old(log.entries) + Reported(id, raws[..i], es[..i])
    {
      var at := Origin(id, i + 1, raws[i]);
      ScanStep(id, raws, es, earlier, i, st, stats, origins);
      LinesSnoc(id, raws, es, i);
      Appended(old(log.entries), Reported(id, raws[..i], es[..i]), EntriesOf(at, es[i].reasons));
      Report(log, at, es[i].reasons);
      st, stats := Absorb(st, es[i]), CountLine(stats, es[i].class_);
      origins := origins + Repeat(at, |es[i].hides|);
    }
    assert es[..|raws|] == es && raws[..|raws|] == raws;
  }

  lemma LinesSnoc(id: string, raws: seq<string>, es: seq<Effect>, i: nat)
    requires i < |es| == |raws|
    ensures Reported(id, raws[..i + 1], es[..i + 1])
            == Reported(id, raws[..i], es[..i]) + EntriesOf(Origin(id, i + 1, raws[i]), es[i].reasons)
    ensures HidesFrom(id, raws[..i + 1], es[..i + 1])
            == HidesFrom(id, raws[..i], es[..i]) + Repeat(Origin(id, i + 1, raws[i]), |es[i].hides|)
  {
    assert es[..i + 1][..i] == es[..i] && raws[..i + 1][..i] == raws[..i];
  }

  lemma StepBack(earlier: seq<Effect>, es: seq<Effect>, i: nat)
    requires i < |es|
    ensures es[..i + 1][..i] == es[..i] && es[..i + 1][i] == es[i]
    ensures var grown := earlier + es[..i + 1];
            grown != [] && grown[..|grown| - 1] == earlier + es[..i] && grown[|grown| - 1] == es[i]
  {
  }

  // The whole compilation

  datatype Output = Output(
    rules: seq<Rule>,
    cosmetics: set<Cosmetic>,
    networkSupported: nat,
    networkDropped: nat,
    cosmeticSupported: nat,
    cosmeticDropped: nat,
    safetySuppressed: nat,
    diagnosticsTotal: nat,
    truncated: bool,
    reasons: map<Reason, nat>,
    samples: seq<Diagnostics.Entry>,
    listStats: seq<ListStats>,
    unsupported: nat,
    ignored: nat,
    /** The line each emitted hiding rule carries as its text. */
    origins: map<Cosmetic, Origin>)

  predicate AcceptableSources(sources: seq<Source>, budget: nat) {
    && budget <= MAX_BUDGET
    && sources != []
    && (forall i | 0 <= i < |sources| :: sources[i].id in ["easylist", "easyprivacy"])
    && (forall i, j | 0 <= i < j < |sources| :: sources[i].id != sources[j].id)
    && (forall i | 0 <= i < |sources| ::
          Utf8Len(sources[i].text) <= MAX_BYTES && |Lines(sources[i].text)| <= MAX_LINES)
  }

  /** A compilation of these contributions. */
  ghost predicate Compiles(es: seq<Effect>, budget: nat, out: Output) {
    var st := Collect(es);
    NetworkSide(Kept(st), st.suppressBlocks, budget, OmittedCount(ScopeAll(st)), out)
    && CosmeticSide(ScopeAll(st), ReasonCount(es), out)
  }

  ghost predicate NetworkSide(kept: set<Rule>, suppressBlocks: bool, budget: nat, omitted: nat, out: Output) {
    && omitted <= out.safetySuppressed
    && EmissionOf(kept, suppressBlocks, budget,
                  Emitted(out.rules, out.networkSupported, out.networkDropped, out.safetySuppressed - omitted))
  }

  ghost predicate CosmeticSide(scoped: seq<Scoped>, reasons: nat, out: Output) {
    var all := Cosmetics(scoped);
    && out.cosmetics <= all
    && |out.cosmetics| == (if |all| <= MAX_COSMETIC then |all| else MAX_COSMETIC)
    && |out.cosmetics| + out.cosmeticDropped == |all|
    && |all| + OmittedCount(scoped) <= out.cosmeticSupported == |scoped|
    && out.diagnosticsTotal == reasons + OmittedCount(scoped)
  }

  /** The diagnostics of the hiding rules that are left out. */
  ghost function OmittedEntries(scoped: seq<Scoped>, origins: seq<Origin>): seq<Diagnostics.Entry>
    requires |origins| == |scoped|
  {
    if scoped == [] then [] else
      var n := |scoped| - 1;
      OmittedEntries(scoped[..n], origins[..n]) + if scoped[n].omitted then [EntryOf(origins[n], OmittedForExemption)] else []
  }

  /** The first of the scoped rules that is emitted as this one. */
  ghost predicate FirstEmitted(scoped: seq<Scoped>, i: int, c: Cosmetic) {
    0 <= i < |scoped| && scoped[i] == Scoped(c, false) && forall j | 0 <= j < i :: scoped[j] != Scoped(c, false)
  }

  /** Each rule keeps the line that was first to ask for it. */
  ghost predicate FirstOrigins(scoped: seq<Scoped>, origins: seq<Origin>, kept: map<Cosmetic, Origin>) {
    |origins| == |scoped|
    && forall c | c in kept :: exists i :: FirstEmitted(scoped, i, c) && kept[c] == origins[i]
  }

  /** What the last loop has after some scoped rules. */
  ghost predicate Emits(scoped: seq<Scoped>, origins: seq<Origin>, cosmetics: map<Cosmetic, Origin>, omitted: nat) {
    && cosmetics.Keys == Cosmetics(scoped) && FirstOrigins(scoped, origins, cosmetics)
    && omitted == OmittedCount(scoped) && |cosmetics.Keys| + omitted <= |scoped|
  }

  lemma EmitsOmitted(scoped: seq<Scoped>, origins: seq<Origin>, i: nat, cosmetics: map<Cosmetic, Origin>, omitted: nat)
    requires i < |scoped| == |origins| && scoped[i].omitted && Emits(scoped[..i], origins[..i], cosmetics, omitted)
    ensures Emits(scoped[..i + 1], origins[..i + 1], cosmetics, omitted + 1)
  {
    CosmeticsSnoc(scoped, i);
    OriginsSnoc(scoped, origins, i, cosmetics);
  }

  lemma EmitsInserted(scoped: seq<Scoped>, origins: seq<Origin>, i: nat, cosmetics: map<Cosmetic, Origin>, omitted: nat)
    requires i < |scoped| == |origins| && !scoped[i].omitted && Emits(scoped[..i], origins[..i], cosmetics, omitted)
    ensures Emits(scoped[..i + 1], origins[..i + 1], OrInsert(cosmetics, scoped[i].cosmetic, origins[i]), omitted)
  {
    CosmeticsSnoc(scoped, i);
    OriginsSnoc(scoped, origins, i, cosmetics);
  }

  /** The last loop of the compiler: emit every scoped hiding rule or leave it out. */
  method EmitCosmetics(scoped: seq<Scoped>, origins: seq<Origin>, log: Diagnostics.Log)
    returns (cosmetics: map<Cosmetic, Origin>, omitted: nat)
    requires |origins| == |scoped| && log.Valid()
    modifies log
    ensures Emits(scoped, origins, cosmetics, omitted)
    ensures log.Valid() && log.entries == old(log.entries) + OmittedEntries(scoped, origins)
  {
    cosmetics, omitted := map[], 0;
    for i := 0 to |scoped|
      invariant Emits(scoped[..i], origins[..i], cosmetics, omitted)
      invariant log.Valid() && log.entries == old(log.entries) + OmittedEntries(scoped[..i], origins[..i])
    {
      OmittedAppended(old(log.entries), scoped, origins, i);
      if scoped[i].omitted {
        EmitsOmitted(scoped, origins, i, cosmetics, omitted);
        omitted := omitted + 1;
        log.Add(Diagnostics.Entry(origins[i].source, origins[i].line, origins[i].raw, OmittedForExemption));
      } else {
        EmitsInserted(scoped, origins, i, cosmetics, omitted);
        cosmetics := OrInsert(cosmetics, scoped[i].cosmetic, origins[i]);
      }
    }
    assert scoped[..|scoped|] == scoped && origins[..|scoped|] == origins;
  }

  /** `entry(key).or_insert_with`. */
  function OrInsert(kept: map<Cosmetic, Origin>, c: Cosmetic, at: Origin): (r: map<Cosmetic, Origin>)
    ensures r.Keys == kept.Keys + {c}
  {
    if c in kept then kept else kept[c := at]
  }

  lemma OmittedSnoc(scoped: seq<Scoped>, origins: seq<Origin>, i: nat)
    requires i < |scoped| == |origins|
    ensures OmittedEntries(scoped[..i + 1], origins[..i + 1])
            == OmittedEntries(scoped[..i], origins[..i])
               + if scoped[i].omitted then [EntryOf(origins[i], OmittedForExemption)] else []
  {
    assert scoped[..i + 1][..i] == scoped[..i] && origins[..i + 1][..i] == origins[..i];
  }

  lemma OmittedAppended(start: seq<Diagnostics.Entry>, scoped: seq<Scoped>, origins: seq<Origin>, i: nat)
    requires i < |scoped| == |origins|
    ensures start + OmittedEntries(scoped[..i + 1], origins[..i + 1])
            == if scoped[i].omitted
               then start + OmittedEntries(scoped[..i], origins[..i]) + [EntryOf(origins[i], OmittedForExemption)]
               else start + OmittedEntries(scoped[..i], origins[..i])
  {
    OmittedSnoc(scoped, origins, i);
    Appended(start, OmittedEntries(scoped[..i], origins[..i]), [EntryOf(origins[i], OmittedForExemption)]);
  }

  lemma FirstEmittedGrows(scoped: seq<Scoped>, n: nat, i: int, c: Cosmetic)
    requires n < |scoped| && FirstEmitted(scoped[..n], i, c)
    ensures FirstEmitted(scoped[..n + 1], i, c)
  {
    assert scoped[..n + 1][..n] == scoped[..n];
  }

  lemma OriginsSnoc(scoped: seq<Scoped>, origins: seq<Origin>, i: nat, kept: map<Cosmetic, Origin>)
    requires i < |scoped| == |origins| && FirstOrigins(scoped[..i], origins[..i], kept)
    requires kept.Keys == Cosmetics(scoped[..i])
    ensures FirstOrigins(scoped[..i + 1], origins[..i + 1],
                         if scoped[i].omitted then kept else OrInsert(kept, scoped[i].cosmetic, origins[i]))
  {
    var now := if scoped[i].omitted then kept else OrInsert(kept, scoped[i].cosmetic, origins[i]);
    var before, after, from := scoped[..i], scoped[..i + 1], origins[..i + 1];
    forall c | c in now ensures exists j :: FirstEmitted(after, j, c) && now[c] == from[j] {
      if c in kept {
        var j :| FirstEmitted(before, j, c) && kept[c] == origins[..i][j];
        FirstEmittedGrows(scoped, i, j, c);
        assert from[j] == origins[..i][j];
      } else {
        NewEmitted(scoped, i, c);
        assert from[i] == origins[i];
      }
    }
  }

  lemma NewEmitted(scoped: seq<Scoped>, i: nat, c: Cosmetic)
    requires i < |scoped| && scoped[i] == Scoped(c, false) && c !in Cosmetics(scoped[..i])
    ensures FirstEmitted(scoped[..i + 1], i, c)
  {
    var before, after := scoped[..i], scoped[..i + 1];
    forall j | 0 <= j < i ensures after[j] != Scoped(c, false) { assert before[j] in before && after[j] == before[j]; }
  }

  lemma CosmeticsSnoc(scoped: seq<Scoped>, i: nat)
    requires i < |scoped|
    ensures var s := scoped[i];
            && Cosmetics(scoped[..i + 1]) == Cosmetics(scoped[..i]) + (if s.omitted then {} else {s.cosmetic})
            && OmittedCount(scoped[..i + 1]) == OmittedCount(scoped[..i]) + if s.omitted then 1 else 0
  {
    assert scoped[..i + 1] == scoped[..i] + [scoped[i]];
    assert scoped[..i + 1][..i] == scoped[..i];
  }

  method FirstCosmetics(all: set<Cosmetic>) returns (kept: set<Cosmetic>)
    ensures kept <= all && |kept| == if |all| <= MAX_COSMETIC then |all| else MAX_COSMETIC
  {
    kept := {};
    var rest := all;
    while |kept| < MAX_COSMETIC && rest != {}
      invariant kept + rest == all && kept !! rest && |kept| <= MAX_COSMETIC
      invariant |kept| + |rest| == |all|
      decreases rest
    {
      var c :| c in rest;
      kept, rest := kept + {c}, rest - {c};
    }
  }

  lemma FewerOrigins(scoped: seq<Scoped>, origins: seq<Origin>, all: map<Cosmetic, Origin>, kept: set<Cosmetic>)
    requires FirstOrigins(scoped, origins, all) && kept <= all.Keys
    ensures FirstOrigins(scoped, origins, map c | c in kept :: all[c])
  {
  }

  function Kept(st: State): set<Rule> { st.rules - st.cancelled }

  ghost predicate ShapedAll(es: seq<Effect>) {
    forall e | e in es :: ShapedEffect(e, false) || ShapedEffect(e, true)
  }

  /** All lines of all sources. */
  function AllRaws(sources: seq<Source>): seq<string> {
    if sources == [] then [] else AllRaws(sources[..|sources| - 1]) + Raws(sources[|sources| - 1].text)
  }

  lemma {:induction false} EffectsOfRaws(sources: seq<Source>)
    ensures Effects(sources) == EffectsOf(AllRaws(sources))
  {
    if sources != [] {
      EffectsOfRaws(sources[..|sources| - 1]);
      var a, b := AllRaws(sources[..|sources| - 1]), Raws(sources[|sources| - 1].text);
      MapSeqConcat(a, b, LineEffect);
    }
  }

  lemma EffectFrom(raws: seq<string>, e: Effect)
    requires e in EffectsOf(raws)
    ensures exists raw :: raw in raws && e == LineEffect(raw)
  {
    var i :| 0 <= i < |raws| && EffectsOf(raws)[i] == e;
    assert raws[i] in raws;
  }

  lemma EffectOfLine(raws: seq<string>, raw: string)
    requires raw in raws
    ensures LineEffect(raw) in EffectsOf(raws)
  {
    var i :| 0 <= i < |raws| && raws[i] == raw;
    assert EffectsOf(raws)[i] == LineEffect(raw);
  }

  lemma LinesShaped(raws: seq<string>)
    ensures ShapedAll(EffectsOf(raws))
  {
    forall e | e in EffectsOf(raws) ensures ShapedEffect(e, false) || ShapedEffect(e, true) {
      EffectFrom(raws, e);
      var raw :| raw in raws && e == LineEffect(raw);
      FormShape(raw, FormOf(raw));
    }
  }

  lemma KeptUnpacked(es: seq<Effect>)
    requires ShapedAll(es)
    ensures Unpacked(Kept(Collect(es)))
  {
    CollectGathers(es);
  }

  ghost function AllReported(sources: seq<Source>): seq<Diagnostics.Entry> {
    if sources == [] then [] else
      var last := sources[|sources| - 1];
      AllReported(sources[..|sources| - 1]) + Reported(last.id, Raws(last.text), EffectsOf(Raws(last.text)))
  }

  ghost function AllHidesFrom(sources: seq<Source>): seq<Origin> {
    if sources == [] then [] else
      var last := sources[|sources| - 1];
      AllHidesFrom(sources[..|sources| - 1]) + HidesFrom(last.id, Raws(last.text), EffectsOf(Raws(last.text)))
  }

  /** The loop over the sources. */
  method ScanSources(sources: seq<Source>, log: Diagnostics.Log)
    returns (st: State, listStats: seq<ListStats>, origins: seq<Origin>)
    requires log.Valid() && log.entries == []
    modifies log
    ensures st == Collect(Effects(sources))
    ensures origins == AllHidesFrom(sources)
    ensures listStats == StatsOf(sources)
    ensures log.Valid() && log.entries == AllReported(sources)
  {
    st, listStats, origins := START, [], [];
    for i := 0 to |sources|
      invariant log.Valid()
      invariant st == Collect(Effects(sources[..i]))
      invariant log.entries == AllReported(sources[..i])
      invariant origins == AllHidesFrom(sources[..i])
      invariant listStats == StatsOf(sources[..i])
    {
      var raws := Raws(sources[i].text);
      assert sources[..i + 1][..i] == sources[..i];
      var next, stats, more := ScanLines(sources[i].id, raws, EffectsOf(raws), st, log, Effects(sources[..i]));
      st, listStats, origins := next, listStats + [stats], origins + more;
    }
    assert sources[..|sources|] == sources;
  }

  function StatsOf(sources: seq<Source>): seq<ListStats> {
    if sources == [] then [] else
      var last := sources[|sources| - 1];
      StatsOf(sources[..|sources| - 1]) + [CountLines(last.id, EffectsOf(Raws(last.text)))]
  }

  ghost predicate TooManyExceptions(es: seq<Effect>, budget: nat) {
    exists packed :: Packs(Kept(Collect(es)), packed) && |Exceptions(packed)| > budget
  }

  function UnsupportedTotal(listStats: seq<ListStats>): nat {
    if listStats == [] then 0 else UnsupportedTotal(listStats[..|listStats| - 1]) + listStats[|listStats| - 1].unsupported
  }

  function IgnoredTotal(listStats: seq<ListStats>): nat {
    if listStats == [] then 0 else IgnoredTotal(listStats[..|listStats| - 1]) + listStats[|listStats| - 1].ignored
  }

  /** The texts that go with the output: the sample of all diagnostics, and the first line of each
      emitted hiding rule. */
  /** The report of these diagnostics: their number, the sample, whether it is all of them, and the
      number for each reason. */
  ghost predicate Reporting(log: seq<Diagnostics.Entry>, out: Output) {
    && out.diagnosticsTotal == |log| && out.samples == Diagnostics.Sample(log)
    && (out.truncated <==> out.samples != log)
    && Diagnostics.Tallies(log, out.reasons)
  }

  ghost predicate Annotated(reported: seq<Diagnostics.Entry>, scoped: seq<Scoped>, origins: seq<Origin>, out: Output) {
    && |origins| == |scoped|
    && Reporting(reported + OmittedEntries(scoped, origins), out)
    && out.origins.Keys == out.cosmetics && FirstOrigins(scoped, origins, out.origins)
    && out.unsupported == UnsupportedTotal(out.listStats) && out.ignored == IgnoredTotal(out.listStats)
  }

  lemma {:induction false} OmittedEntriesCount(scoped: seq<Scoped>, origins: seq<Origin>)
    requires |origins| == |scoped|
    ensures |OmittedEntries(scoped, origins)| == OmittedCount(scoped)
  {
    if scoped != [] { OmittedEntriesCount(scoped[..|scoped| - 1], origins[..|scoped| - 1]); }
  }

  /** The end of the compilation: hiding rules, totals and statistics around the emitted rules. */
  method Assemble(scoped: seq<Scoped>, origins: seq<Origin>, log: Diagnostics.Log, listStats: seq<ListStats>, e: Emitted,
                  ghost kept: set<Rule>, ghost suppressBlocks: bool, ghost budget: nat)
    returns (out: Output)
    requires |origins| == |scoped| && log.Valid() && EmissionOf(kept, suppressBlocks, budget, e)
    modifies log
    ensures NetworkSide(kept, suppressBlocks, budget, OmittedCount(scoped), out)
    ensures CosmeticSide(scoped, old(|log.entries|), out)
    ensures out.listStats == listStats && Annotated(old(log.entries), scoped, origins, out)
  {
    var all, omitted := EmitCosmetics(scoped, origins, log);
    var cosmetics := FirstCosmetics(all.Keys);
    FewerOrigins(scoped, origins, all, cosmetics);
    OmittedEntriesCount(scoped, origins);
    Diagnostics.SampleIsPart(log.entries);
    out := Output(
      e.rules, cosmetics, e.supported, e.dropped, |scoped|, |all.Keys| - |cosmetics|, e.suppressed + omitted,
      log.total, log.total > |log.samples|, log.reasons, log.samples, listStats, UnsupportedTotal(listStats), IgnoredTotal(listStats), map c | c in cosmetics :: all[c]);
    assert Emitted(e.rules, e.supported, e.dropped, out.safetySuppressed - omitted) == e;
  }

  lemma {:induction false} ReportedCount(id: string, raws: seq<string>, es: seq<Effect>)
    requires |raws| == |es|
    ensures |Reported(id, raws, es)| == ReasonCount(es)
    ensures |HidesFrom(id, raws, es)| == |Collect(es).hides|
  {
    if es != [] { ReportedCount(id, raws[..|es| - 1], es[..|es| - 1]); }
  }

  lemma {:induction false} CountsConcat(a: seq<Effect>, b: seq<Effect>)
    ensures ReasonCount(a + b) == ReasonCount(a) + ReasonCount(b)
    ensures Collect(a + b).hides == Collect(a).hides + Collect(b).hides
    decreases |b|
  {
    if b == [] {
      assert a + b == a;
    } else {
      assert (a + b)[..|a + b| - 1] == a + b[..|b| - 1];
      CountsConcat(a, b[..|b| - 1]);
    }
  }

  /** One diagnostic for each reason of each line, one origin for each hiding rule. */
  lemma {:induction false} AllReportedCount(sources: seq<Source>)
    ensures |AllReported(sources)| == ReasonCount(Effects(sources))
    ensures |AllHidesFrom(sources)| == |Collect(Effects(sources)).hides|
  {
    if sources != [] {
      var front, last := sources[..|sources| - 1], sources[|sources| - 1];
      AllReportedCount(front);
      ReportedCount(last.id, Raws(last.text), EffectsOf(Raws(last.text)));
      CountsConcat(Effects(front), EffectsOf(Raws(last.text)));
    }
  }

  /** `compile_subscriptions`. */
  method CompileSubscriptions(sources: seq<Source>, budget: nat) returns (r: Result<Output>)
    ensures r.Ok? ==> AcceptableSources(sources, budget) && Compiles(Effects(sources), budget, r.value)
                      && r.value.listStats == StatsOf(sources)
                      && Annotated(AllReported(sources), ScopeAll(Collect(Effects(sources))), AllHidesFrom(sources), r.value)
    ensures r.Err? ==> !AcceptableSources(sources, budget) || TooManyExceptions(Effects(sources), budget)
  {
    if !AcceptableSources(sources, budget) {
      return Err(BadSources);
    }
    var log := new Diagnostics.Log();
    var st, listStats, origins := ScanSources(sources, log);
    AllReportedCount(sources);
    EffectsOfRaws(sources);
    LinesShaped(AllRaws(sources));
    KeptUnpacked(Effects(sources));
    var emitted := Emit(Kept(st), st.suppressBlocks, budget);
    if emitted.Err? {
      return Err(emitted.reason);
    }
    var out := Assemble(ScopeAll(st), origins, log, listStats, emitted.value, Kept(st), st.suppressBlocks, budget);
    return Ok(out);
  }
}
