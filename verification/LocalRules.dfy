/** The companion's compiler for the local list. */
module LocalRules {
  import opened Text
  import opened Hosts
  import opened Selector

  const MAX_TEXT_BYTES := 128 * 1024
  const MAX_NONEMPTY_LINES := 2_000
  const MAX_LINE_BYTES := 2_048
  const MAX_COSMETIC_DOMAINS := 200
  const MAX_NETWORK_ID := 999_999_999

  // One rule

  datatype Normalized =
    | Network(pattern: string, exception: bool, thirdParty: bool)
    | Cosmetic(domains: set<string>, selector: string)

  predicate PathChar(c: char) {
    IsAlnum(c) || c in ['/', '.', '_', '%', '~', ':', '@', '!', '&', '=', '+', '-']
  }

  predicate ValidPath(path: string) {
    StartsWith(path, "/") && forall i | 0 <= i < |path| :: PathChar(path[i])
  }

  function LowerAll(parts: seq<string>): set<string> { set p | p in parts :: Lower(p) }

  predicate AllHosts(parts: seq<string>) { forall p | p in parts :: HostValid(p) }

  function ParseCosmetic(scope: string, selector: string): Option<Normalized> {
    if !ValidSelector(selector) then None
    else if scope == "" then Some(Cosmetic({}, Canonical(selector)))
    else
      var parts := Split(scope, ',');
      if !AllHosts(parts) || |LowerAll(parts)| > MAX_COSMETIC_DOMAINS then None
      else Some(Cosmetic(LowerAll(parts), Canonical(selector)))
  }

  lemma LowerAllSnoc(parts: seq<string>, i: nat)
    requires i < |parts|
    ensures LowerAll(parts[..i + 1]) == LowerAll(parts[..i]) + {Lower(parts[i])}
    ensures AllHosts(parts[..i + 1]) <==> AllHosts(parts[..i]) && HostValid(parts[i])
    ensures LowerAll(parts[..i]) <= LowerAll(parts)
    ensures AllHosts(parts) ==> AllHosts(parts[..i + 1])
  {
    assert parts[..i + 1] == parts[..i] + [parts[i]];
  }

  /** The scope loop of `parse_rule`: it stops at the first bad or surplus domain. */
  method ParseScope(parts: seq<string>) returns (domains: Option<set<string>>)
    ensures domains == if AllHosts(parts) && |LowerAll(parts)| <= MAX_COSMETIC_DOMAINS then Some(LowerAll(parts)) else None
  {
    var found: set<string> := {};
    for i := 0 to |parts|
      invariant found == LowerAll(parts[..i]) && |found| <= MAX_COSMETIC_DOMAINS && AllHosts(parts[..i])
    {
      LowerAllSnoc(parts, i);
      if !HostValid(parts[i]) {
        return None;
      }
      found := found + {Lower(parts[i])};
      if |found| > MAX_COSMETIC_DOMAINS {
        TooMany(parts, i + 1);
        return None;
      }
    }
    assert parts[..|parts|] == parts;
    return Some(found);
  }

  lemma TooMany(parts: seq<string>, n: nat)
    requires n <= |parts| && |LowerAll(parts[..n])| > MAX_COSMETIC_DOMAINS
    ensures |LowerAll(parts)| > MAX_COSMETIC_DOMAINS
  {
    assert LowerAll(parts[..n]) <= LowerAll(parts);
    SubsetSize(LowerAll(parts[..n]), LowerAll(parts));
  }

  /** The host and the rest of a pattern after its "||". */
  function HostAndSuffix(anchored: string): Option<(string, string)> {
    if EndsWith(anchored, "^") then Some((anchored[..|anchored| - 1], "^"))
    else
      var slash := IndexOf(anchored, '/');
      if slash == |anchored| || !ValidPath(anchored[slash..]) then None
      else Some((anchored[..slash], anchored[slash..]))
  }

  function ParsePattern(pattern: string, exception: bool, thirdParty: bool): Option<Normalized> {
    if !StartsWith(pattern, "||") then None else
      match HostAndSuffix(pattern[2..])
      case None => None
      case Some(cut) =>
        if HostValid(cut.0) then Some(Network("||" + Lower(cut.0) + cut.1, exception, thirdParty)) else None
  }

  function ParseNetwork(raw: string): Option<Normalized> {
    var exception := StartsWith(raw, "@@");
    var body := StripPrefix(raw, "@@");
    match SplitOnce(body, "$")
    case Some(cut) => if cut.1 == "third-party" then ParsePattern(cut.0, exception, true) else None
    case None => ParsePattern(body, exception, false)
  }

  /** `parse_rule`; a refused line yields nothing. */
  function ParseRule(raw: string): Option<Normalized> {
    if Contains(raw, "#@#") then None else
      match SplitOnce(raw, "##")
      case Some(cut) => ParseCosmetic(cut.0, cut.1)
      case None => ParseNetwork(raw)
  }

  // Keys and IDs

  function BoolText(b: bool): string { if b then "true" else "false" }

  /** `key_for` of a network rule. */
  function KeyFor(r: Normalized): string
    requires r.Network?
  {
    BoolText(r.exception) + "|" + (BoolText(r.thirdParty) + "|" + r.pattern)
  }

  lemma BoolTextPrefix(a: bool, b: bool, s: string, t: string)
    requires BoolText(a) + "|" + s == BoolText(b) + "|" + t
    ensures a == b && s == t
  {
    var u, v := BoolText(a) + "|" + s, BoolText(b) + "|" + t;
    assert u[0] == BoolText(a)[0] && v[0] == BoolText(b)[0];
    assert "true"[0] == 't' && "false"[0] == 'f';
    assert a == b;
    var n := |BoolText(a)| + 1;
    assert u[n..] == s && v[n..] == t;
  }

  /** Different network rules have different keys. */
  lemma KeyInjective(a: Normalized, b: Normalized)
    requires a.Network? && b.Network? && KeyFor(a) == KeyFor(b)
    ensures a == b
  {
    BoolTextPrefix(a.exception, b.exception, BoolText(a.thirdParty) + "|" + a.pattern,
                   BoolText(b.thirdParty) + "|" + b.pattern);
    BoolTextPrefix(a.thirdParty, b.thirdParty, a.pattern, b.pattern);
  }

  predicate IsId(id: int) { 1 <= id <= MAX_NETWORK_ID }

  function NextId(id: nat): nat { if id == MAX_NETWORK_ID then 1 else id + 1 }

  function HomeId(key: string, hash: string -> nat): nat { hash(key) % MAX_NETWORK_ID + 1 }

  /** The first free ID from here on, looking at no more than `steps` taken ones. */
  function Probe(taken: set<nat>, id: nat, steps: nat): nat
    decreases steps
  {
    if steps == 0 || id !in taken then id else Probe(taken, NextId(id), steps - 1)
  }

  function AllIds(ids: seq<nat>): set<nat> { set id | id in ids }

  /** `assign_ids`: one ID for each key, in the order of the keys. */
  function AssignedIds(keys: seq<string>, hash: string -> nat): (ids: seq<nat>)
    ensures |ids| == |keys|
  {
    if keys == [] then [] else
      var before := AssignedIds(keys[..|keys| - 1], hash);
      before + [Probe(AllIds(before), HomeId(keys[|keys| - 1], hash), |before|)]
  }

  /** The ID reached after some steps of probing. */
  function Stepped(id: nat, steps: nat): nat { (id - 1 + steps) % MAX_NETWORK_ID + 1 }

  lemma SteppedNext(id: nat, steps: nat)
    requires IsId(id)
    ensures NextId(Stepped(id, steps)) == Stepped(id, steps + 1) && Stepped(id, 0) == id && IsId(Stepped(id, steps))
  {
  }

  lemma SteppedDistinct(id: nat, i: nat, j: nat)
    requires IsId(id) && i < j < MAX_NETWORK_ID
    ensures Stepped(id, i) != Stepped(id, j)
  {
  }

  ghost function Visited(id: nat, steps: nat): set<nat> { set i | 0 <= i < steps :: Stepped(id, i) }

  lemma {:induction false} VisitedSize(id: nat, steps: nat)
    requires IsId(id) && steps <= MAX_NETWORK_ID
    ensures |Visited(id, steps)| == steps
  {
    if steps > 0 {
      VisitedSize(id, steps - 1);
      var last := Stepped(id, steps - 1);
      forall i | 0 <= i < steps - 1 ensures Stepped(id, i) != last { SteppedDistinct(id, i, steps - 1); }
      assert Visited(id, steps) == Visited(id, steps - 1) + {last};
    }
  }

  lemma {:induction false} ProbeIsStepped(taken: set<nat>, id: nat, i: nat, steps: nat)
    requires IsId(id) && Visited(id, i) <= taken
    ensures exists j :: i <= j <= i + steps && Probe(taken, Stepped(id, i), steps) == Stepped(id, j)
                        && Visited(id, j) <= taken && (Stepped(id, j) in taken ==> j == i + steps)
    decreases steps
  {
    if steps > 0 && Stepped(id, i) in taken {
      SteppedNext(id, i);
      assert Visited(id, i + 1) == Visited(id, i) + {Stepped(id, i)};
      ProbeIsStepped(taken, id, i + 1, steps - 1);
    }
  }

  /** Probing finds a free ID in range, wrapping around after the last one, as long as one exists. */
  lemma ProbeFinds(taken: set<nat>, id: nat, steps: nat)
    requires IsId(id) && |taken| <= steps && |taken| < MAX_NETWORK_ID
    ensures Probe(taken, id, steps) !in taken && IsId(Probe(taken, id, steps))
  {
    SteppedNext(id, 0);
    assert Visited(id, 0) == {};
    ProbeIsStepped(taken, id, 0, steps);
    var j :| 0 <= j <= steps && Probe(taken, id, steps) == Stepped(id, j) && Visited(id, j) <= taken
             && (Stepped(id, j) in taken ==> j == steps);
    if Stepped(id, j) in taken {
      var n := |taken| + 1;
      assert Visited(id, n) <= Visited(id, j) + {Stepped(id, j)};
      VisitedSize(id, n);
      SubsetSize(Visited(id, n), taken);
    }
    SteppedNext(id, j);
  }

  ghost predicate Distinct(ids: seq<nat>) {
    forall i, j | 0 <= i < j < |ids| :: ids[i] != ids[j]
  }

  lemma {:induction false} AllIdsSize(ids: seq<nat>)
    ensures |AllIds(ids)| <= |ids|
  {
    if ids != [] {
      AllIdsSize(ids[1..]);
      assert ids == [ids[0]] + ids[1..];
      assert AllIds(ids) == {ids[0]} + AllIds(ids[1..]);
    }
  }

  /** Assigned IDs are distinct and in range, whatever the hash. */
  lemma {:induction false} IdsDistinct(keys: seq<string>, hash: string -> nat)
    requires |keys| < MAX_NETWORK_ID
    ensures Distinct(AssignedIds(keys, hash)) && forall id | id in AssignedIds(keys, hash) :: IsId(id)
  {
    if keys != [] {
      var before := AssignedIds(keys[..|keys| - 1], hash);
      IdsDistinct(keys[..|keys| - 1], hash);
      AllIdsSize(before);
      ProbeFinds(AllIds(before), HomeId(keys[|keys| - 1], hash), |before|);
    }
  }

  /** Keys whose first choices differ all get them. */
  lemma {:induction false} HomesKept(keys: seq<string>, hash: string -> nat)
    requires forall i, j | 0 <= i < j < |keys| :: HomeId(keys[i], hash) != HomeId(keys[j], hash)
    ensures forall i | 0 <= i < |keys| :: AssignedIds(keys, hash)[i] == hash(keys[i]) % 999_999_999 + 1
  {
    if keys != [] {
      var n := |keys| - 1;
      HomesKept(keys[..n], hash);
      var before := AssignedIds(keys[..n], hash);
      forall id | id in AllIds(before) ensures id != HomeId(keys[n], hash) {
        var i :| 0 <= i < n && before[i] == id;
        assert keys[..n][i] == keys[i];
      }
    }
  }

  // What is diagnosed

  /** What becomes of a line: its rule is of this kind, or it has none. */
  function TargetOf(raw: string): Target {
    match ParseRule(raw)
    case None => Unsupported
    case Some(Network(_, _, _)) => Mv3Network
    case Some(Cosmetic(_, _)) => CosmeticTarget
  }

  /** The lines that are not ignored, with their numbers and targets, in order. */
  function Diagnosed(raws: seq<string>): seq<Diagnostic> {
    if raws == [] then [] else
      var n := |raws| - 1;
      Diagnosed(raws[..n]) + if IgnoredLine(raws[n]) then [] else [Diagnostic(n + 1, raws[n], TargetOf(raws[n]))]
  }

  lemma AddDiagnosed(p: Progress, raw: string, line: nat, source: string)
    ensures AddParsed(p, raw, line, source, ParseRule(raw)).diagnostics
            == p.diagnostics + [Diagnostic(line, raw, TargetOf(raw))]
  {
  }

  /** Every line that is not ignored is diagnosed once, in order, with its number and what became of it. */
  lemma {:induction false} ScanDiagnoses(raws: seq<string>, source: string)
    ensures Scan(raws, source).diagnostics == Diagnosed(raws)
  {
    if raws != [] {
      var n := |raws| - 1;
      ScanDiagnoses(raws[..n], source);
      if !IgnoredLine(raws[n]) { AddDiagnosed(Scan(raws[..n], source), raws[n], n + 1, source); }
    }
  }

  /** The probing loop for one key. */
  method FreeId(taken: set<nat>, home: nat, ghost bound: nat) returns (id: nat)
    requires IsId(home) && |taken| <= bound && |taken| < MAX_NETWORK_ID
    ensures id == Probe(taken, home, bound) && id !in taken
  {
    id := home;
    ghost var steps := bound;
    ProbeFinds(taken, home, bound);
    while id in taken
      invariant Probe(taken, id, steps) == Probe(taken, home, bound)
      decreases steps
    {
      id := NextId(id);
      steps := steps - 1;
    }
  }

  lemma AssignedSnoc(keys: seq<string>, i: nat, hash: string -> nat)
    requires i < |keys|
    ensures var before := AssignedIds(keys[..i], hash);
            AssignedIds(keys[..i + 1], hash) == before + [Probe(AllIds(before), HomeId(keys[i], hash), |before|)]
  {
    assert keys[..i + 1][..i] == keys[..i];
  }

  /** `assign_ids` as the program runs it. */
  method AssignIds(keys: seq<string>, hash: string -> nat) returns (ids: seq<nat>)
    requires |keys| < MAX_NETWORK_ID
    ensures ids == AssignedIds(keys, hash)
  {
    ids := [];
    var taken: set<nat> := {};
    for i := 0 to |keys|
      invariant ids == AssignedIds(keys[..i], hash) && taken == AllIds(ids)
    {
      AllIdsSize(ids);
      AssignedSnoc(keys, i, hash);
      var id := FreeId(taken, HomeId(keys[i], hash), |ids|);
      taken := taken + {id};
      ids := ids + [id];
    }
    assert keys[..|keys|] == keys;
  }

  // The compiler

  datatype CosmeticRule = CosmeticRule(domains: set<string>, selector: string, raw: string, source: string)

  datatype Target = Mv3Network | CosmeticTarget | Unsupported

  datatype Diagnostic = Diagnostic(line: nat, raw: string, target: Target)

  /** What the loop over the lines has built. */
  datatype Progress = Progress(
    keys: seq<string>,
    network: map<string, Normalized>,
    cosmetics: seq<CosmeticRule>,
    diagnostics: seq<Diagnostic>,
    ignored: nat,
    unsupported: nat)

  const NOTHING := Progress([], map[], [], [], 0, 0)

  predicate IgnoredLine(raw: string) {
    raw == "" || StartsWith(raw, "!") || raw == "[Adblock]" || raw == "[Adblock Plus 2.0]"
  }

  predicate HasCosmetic(cosmetics: seq<CosmeticRule>, r: Normalized)
    requires r.Cosmetic?
  {
    exists c | c in cosmetics :: c.domains == r.domains && c.selector == r.selector
  }

  /** One turn of the loop, for a line that is not ignored. */
  function AddParsed(p: Progress, raw: string, line: nat, source: string, parsed: Option<Normalized>): Progress {
    match parsed
    case None => p.(unsupported := p.unsupported + 1, diagnostics := p.diagnostics + [Diagnostic(line, raw, Unsupported)])
    case Some(Network(pattern, exception, thirdParty)) =>
      var r := Network(pattern, exception, thirdParty);
      p.(keys := Insert(p.keys, KeyFor(r)), network := p.network[KeyFor(r) := r],
         diagnostics := p.diagnostics + [Diagnostic(line, raw, Mv3Network)])
    case Some(Cosmetic(domains, selector)) =>
      p.(cosmetics := if HasCosmetic(p.cosmetics, parsed.value) then p.cosmetics
                      else p.cosmetics + [CosmeticRule(domains, selector, raw, source)],
         diagnostics := p.diagnostics + [Diagnostic(line, raw, CosmeticTarget)])
  }

  function AddLine(p: Progress, raw: string, line: nat, source: string): Progress {
    if IgnoredLine(raw) then p.(ignored := p.ignored + 1) else AddParsed(p, raw, line, source, ParseRule(raw))
  }

  function Scan(raws: seq<string>, source: string): Progress {
    if raws == [] then NOTHING
    else AddLine(Scan(raws[..|raws| - 1], source), raws[|raws| - 1], |raws|, source)
  }

  /** The network rules a line adds, if any. */
  function LineNetwork(raw: string): set<Normalized> {
    if IgnoredLine(raw) then {} else
      match ParseRule(raw)
      case Some(Network(pattern, exception, thirdParty)) => {Network(pattern, exception, thirdParty)}
      case _ => {}
  }

  ghost function AllNetwork(raws: seq<string>): set<Normalized> {
    set raw, r | raw in raws && r in LineNetwork(raw) :: r
  }

  /** The map holds exactly these network rules, under their keys, and its keys are listed in
      ascending order. */
  ghost predicate Keyed(p: Progress, rules: set<Normalized>) {
    && (forall r | r in rules :: r.Network? && KeyFor(r) in p.network && p.network[KeyFor(r)] == r)
    && (forall k | k in p.network :: p.network[k] in rules && k == KeyFor(p.network[k]))
    && Lists(p.keys, p.network.Keys)
  }

  lemma AddKeyed(p: Progress, rules: set<Normalized>, r: Normalized)
    requires Keyed(p, rules) && r.Network?
    ensures Keyed(p.(keys := Insert(p.keys, KeyFor(r)), network := p.network[KeyFor(r) := r]), rules + {r})
  {
    var k := KeyFor(r);
    if k in p.network { KeyInjective(p.network[k], r); }
    InsertLists(p.keys, k, p.network.Keys);
    assert p.network[k := r].Keys == p.network.Keys + {k};
    forall q | q in rules ensures p.network[k := r][KeyFor(q)] == q {
      if KeyFor(q) == k { KeyInjective(q, r); }
    }
  }

  lemma AddLineKeyed(p: Progress, rules: set<Normalized>, raw: string, line: nat, source: string)
    requires Keyed(p, rules)
    ensures Keyed(AddLine(p, raw, line, source), rules + LineNetwork(raw))
  {
    if !IgnoredLine(raw) { AddParsedKeyed(p, rules, raw, line, source, ParseRule(raw)); }
    else { assert rules + {} == rules; }
  }

  function ParsedNetwork(parsed: Option<Normalized>): set<Normalized> {
    if parsed.Some? && parsed.value.Network? then {parsed.value} else {}
  }

  lemma AddParsedKeyed(p: Progress, rules: set<Normalized>, raw: string, line: nat, source: string,
                       parsed: Option<Normalized>)
    requires Keyed(p, rules)
    ensures Keyed(AddParsed(p, raw, line, source, parsed), rules + ParsedNetwork(parsed))
  {
    if parsed.Some? && parsed.value.Network? { AddKeyed(p, rules, parsed.value); }
    else { assert rules + {} == rules; }
  }

  lemma {:induction false} ScanKeyed(raws: seq<string>, source: string)
    ensures Keyed(Scan(raws, source), AllNetwork(raws))
  {
    if raws == [] {
      assert AllNetwork(raws) == {};
    } else {
      var front, last := raws[..|raws| - 1], raws[|raws| - 1];
      ScanKeyed(front, source);
      AddLineKeyed(Scan(front, source), AllNetwork(front), last, |raws|, source);
      AllNetworkSnoc(front, last, raws);
    }
  }

  lemma AllNetworkSnoc(front: seq<string>, last: string, raws: seq<string>)
    requires raws == front + [last]
    ensures AllNetwork(raws) == AllNetwork(front) + LineNetwork(last)
  {
    assert forall raw :: raw in raws <==> raw in front || raw == last;
  }
}
