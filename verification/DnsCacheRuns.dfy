/** What the DNS cache promises: lifetimes never grow, and runs behave as a bounded list. */
module DnsCacheRuns {
  import opened Text
  import opened DnsCache

  // Which answers are kept, and for how long

  /** Positive answers, and negative ones that carry an SOA (section 5 of RFC 2308). */
  ghost predicate Cacheable(m: Message) {
    (m.code == NoError && m.answers != [])
    || ((m.code == NoError || m.code == NxDomain) && exists r :: r in m.nameServers && r.data.Soa?)
  }

  /** The times that bound an answer: every record's, and every SOA minimum in authority. */
  ghost predicate Bounds(m: Message, t: U32) {
    (exists r :: r in Records(m) && t == r.ttl)
    || (exists r :: r in m.nameServers && r.data.Soa? && t == r.data.minimum)
  }

  lemma {:induction false} LeastIs(xs: seq<U32>)
    ensures Least(xs) == None <==> xs == []
    ensures xs != [] ==> Least(xs).value in xs && forall x | x in xs :: Least(xs).value <= x
  {
    if xs != [] {
      LeastIs(xs[1..]);
      assert xs == [xs[0]] + xs[1..];
    }
  }

  lemma {:induction false} SoaTtlsAre(records: seq<Record>)
    ensures forall t | t in SoaTtls(records) ::
              exists r :: r in records && r.data.Soa? && t == Min(r.ttl, r.data.minimum)
    ensures forall r | r in records && r.data.Soa? :: Min(r.ttl, r.data.minimum) in SoaTtls(records)
  {
    if records != [] {
      SoaTtlsAre(records[1..]);
      assert records == [records[0]] + records[1..];
    }
  }

  lemma AllTtls(m: Message)
    ensures forall t :: t in MapSeq(Records(m), Ttl) <==> exists r :: r in Records(m) && t == r.ttl
  {
    var ttls := MapSeq(Records(m), Ttl);
    forall r | r in Records(m) ensures r.ttl in ttls {
      var i :| 0 <= i < |Records(m)| && Records(m)[i] == r;
      assert ttls[i] == r.ttl;
    }
  }

  ghost predicate LeastBound(m: Message, t: U32) {
    Bounds(m, t) && forall x :: Bounds(m, x) ==> t <= x
  }

  lemma SoaBound(m: Message, soa: U32)
    requires Least(SoaTtls(m.nameServers)) == Some(soa)
    ensures Bounds(m, soa)
    ensures forall r | r in m.nameServers && r.data.Soa? :: soa <= r.ttl && soa <= r.data.minimum
  {
    LeastIs(SoaTtls(m.nameServers));
    SoaTtlsAre(m.nameServers);
    var r :| r in m.nameServers && r.data.Soa? && soa == Min(r.ttl, r.data.minimum);
    assert r in Records(m);
  }

  lemma RecordBound(m: Message, least: U32)
    requires Least(MapSeq(Records(m), Ttl)) == Some(least)
    ensures Bounds(m, least) && forall r | r in Records(m) :: least <= r.ttl
  {
    var ttls := MapSeq(Records(m), Ttl);
    LeastIs(ttls);
    AllTtls(m);
    assert least in ttls;
    forall r | r in Records(m) ensures least <= r.ttl { assert r.ttl in ttls; }
  }

  lemma NoSoa(m: Message)
    ensures Least(SoaTtls(m.nameServers)) == None <==> forall r | r in m.nameServers :: !r.data.Soa?
  {
    LeastIs(SoaTtls(m.nameServers));
    SoaTtlsAre(m.nameServers);
    if Least(SoaTtls(m.nameServers)).Some? { SoaBound(m, Least(SoaTtls(m.nameServers)).value); }
  }

  /** The smaller of the two minima is the least bound. */
  lemma LeastOfBoth(m: Message, t: U32)
    requires var all, soa := Least(MapSeq(Records(m), Ttl)), Least(SoaTtls(m.nameServers));
             && all.Some? && t == match soa case None => all.value case Some(s) => Min(s, all.value)
    ensures LeastBound(m, t)
  {
    NoSoa(m);
    RecordBound(m, Least(MapSeq(Records(m), Ttl)).value);
    var soa := Least(SoaTtls(m.nameServers));
    if soa.Some? { SoaBound(m, soa.value); }
  }

  /** A kept answer lives exactly as long as its shortest-lived part. */
  lemma AnswerTtlExact(m: Message, t: U32)
    ensures AnswerTtl(m) == Some(t) <==> Cacheable(m) && t > 0 && LeastBound(m, t)
  {
    NoSoa(m);
    LeastIs(MapSeq(Records(m), Ttl));
    if Cacheable(m) {
      assert Records(m) != [];
      var all, soa := Least(MapSeq(Records(m), Ttl)), Least(SoaTtls(m.nameServers));
      var least := match soa case None => all.value case Some(s) => Min(s, all.value);
      LeastOfBoth(m, least);
      assert AnswerTtl(m) == if least > 0 then Some(least) else None;
    }
  }

  lemma CappedTtl(s: Record)
    ensures match s.data
            case Soa(minimum) => CapSoa(s).ttl == s.ttl || CapSoa(s).ttl == minimum
            case Other(_) => CapSoa(s) == s
  {
  }

  lemma StoredRecords(m: Message, r: Record)
    requires r in Records(Stored(m))
    ensures Bounds(m, r.ttl)
  {
    if r in Stored(m).nameServers {
      var i :| 0 <= i < |m.nameServers| && r == CapSoa(m.nameServers[i]);
      var s := m.nameServers[i];
      assert s in m.nameServers && s in Records(m);
      CappedTtl(s);
    } else {
      assert r in m.answers || r in m.additionals;
      assert r in Records(m);
    }
  }

  // What a hit returns

  /** An entry that `insert` could have made. */
  ghost predicate Made(e: Entry, m: Message, now: nat, size: Sizer) { EntryFor(m, now, size) == Some(e) }

  /** No entry outlives an hour, the SOA minimum or any of its records. */
  lemma EntryLifetime(e: Entry, m: Message, now: nat, size: Sizer)
    requires Made(e, m, now, size)
    ensures 0 < e.ttl <= MAX_TTL && e.inserted == now && Cacheable(m) && !m.truncated
    ensures forall r | r in m.nameServers && r.data.Soa? :: e.ttl <= r.ttl && e.ttl <= r.data.minimum
    ensures forall r | r in Records(e.message) :: e.ttl <= r.ttl
  {
    AnswerTtlExact(m, AnswerTtl(m).value);
    forall r | r in m.nameServers && r.data.Soa? ensures e.ttl <= r.ttl && e.ttl <= r.data.minimum {
      assert r in Records(m);
      assert Bounds(m, r.ttl) && Bounds(m, r.data.minimum);
    }
    forall r | r in Records(e.message) ensures e.ttl <= r.ttl { StoredRecords(m, r); }
  }

  /** Elapsed time since the entry was made, in nanoseconds. */
  function Elapsed(e: Entry, now: nat): nat { if now < e.inserted then 0 else now - e.inserted }

  /** On a hit the age is below the entry's time, no subtraction saturates, no cast truncates, and
      every returned record has a positive time that ends less than a second after its stored one. */
  lemma HitNeverExtends(e: Entry, m: Message, inserted: nat, size: Sizer, now: nat, r: Record)
    requires Made(e, m, inserted, size) && Hit(Some(e), now).Some? && r in Records(Hit(Some(e), now).value)
    ensures Age(e, now) < e.ttl && AsU32(Age(e, now)) == Age(e, now)
    ensures exists s :: s in Records(e.message) && r.data == s.data && r.ttl as int == s.ttl - Age(e, now)
    ensures 0 < r.ttl
    ensures exists s :: s in Records(e.message) && r.data == s.data && r.ttl * SECOND + Elapsed(e, now) < (s.ttl + 1) * SECOND
  {
    EntryLifetime(e, m, inserted, size);
    var age := Age(e, now);
    assert age < e.ttl;
    AgedRecords(e.message, age);
    var s :| s in Records(e.message) && r == AgeRecord(s, age);
    assert e.ttl <= s.ttl;
    assert r.data == s.data && r.ttl as int == s.ttl - age;
    assert age == Elapsed(e, now) / SECOND;
    assert Elapsed(e, now) < (age + 1) * SECOND;
  }

  lemma AgedRecords(m: Message, age: U32)
    ensures Records(Aged(m, age)) == AgeRecords(Records(m), age)
    ensures forall r | r in Records(Aged(m, age)) :: exists s :: s in Records(m) && r == AgeRecord(s, age)
  {
    var records := Records(m);
    assert Records(Aged(m, age)) == AgeRecords(records, age);
    forall r | r in AgeRecords(records, age) ensures exists s :: s in records && r == AgeRecord(s, age) {
      var i :| 0 <= i < |records| && r == AgeRecord(records[i], age);
      assert records[i] in records;
    }
  }

  /** The answer to a hit is the stored message but for its times. */
  lemma HitKeepsShape(e: Entry, now: nat)
    requires Hit(Some(e), now).Some?
    ensures var m := Hit(Some(e), now).value;
            && m.code == e.message.code && m.truncated == e.message.truncated
            && |m.answers| == |e.message.answers| && |m.nameServers| == |e.message.nameServers|
            && |m.additionals| == |e.message.additionals|
            && forall i | 0 <= i < |Records(m)| :: Records(m)[i].data == Records(e.message)[i].data
  {
    AgedRecords(e.message, AsU32(Age(e, now)));
  }

  // Runs

  datatype Op = Put(key: string, message: Message, now: nat) | Take(key: string, now: nat)

  function Step(items: seq<Item>, capacity: nat, size: Sizer, op: Op): seq<Item> {
    match op
    case Put(key, m, now) => Inserted(items, capacity, key, EntryFor(m, now, size))
    case Take(key, now) => Looked(items, key, now)
  }

  function Run(ops: seq<Op>, capacity: nat, size: Sizer): seq<Item> {
    if ops == [] then [] else Step(Run(ops[..|ops| - 1], capacity, size), capacity, size, ops[|ops| - 1])
  }

  /** Operation `i` put this entry under this key. */
  ghost predicate Accepted(ops: seq<Op>, i: int, key: string, e: Entry, capacity: nat, size: Sizer) {
    && 0 <= i < |ops| && ops[i].Put? && ops[i].key == key && capacity > 0
    && EntryFor(ops[i].message, ops[i].now, size) == Some(e)
  }

  ghost predicate Replaced(ops: seq<Op>, i: int, key: string, capacity: nat, size: Sizer) {
    exists j, e :: i < j && Accepted(ops, j, key, e, capacity, size)
  }

  /** Operation `i` is the latest to put something under the item's key, and it put this. */
  ghost predicate Latest(ops: seq<Op>, i: int, x: Item, capacity: nat, size: Sizer) {
    Accepted(ops, i, x.key, x.entry, capacity, size) && !Replaced(ops, i, x.key, capacity, size)
  }

  /** The items are the latest accepted puts of their keys, oldest first: item `k` was put by
      operation `at[k]`. */
  ghost predicate Dated(items: seq<Item>, ops: seq<Op>, at: seq<int>, capacity: nat, size: Sizer) {
    && |at| == |items|
    && (forall k | 0 <= k < |items| :: Latest(ops, at[k], items[k], capacity, size))
    && (forall j, k | 0 <= j < k < |at| :: at[j] < at[k])
  }

  ghost predicate Ordered(items: seq<Item>, ops: seq<Op>, capacity: nat, size: Sizer) {
    exists at: seq<int> :: Dated(items, ops, at, capacity, size)
  }

  lemma AcceptedSnoc(front: seq<Op>, op: Op, i: int, key: string, e: Entry, capacity: nat, size: Sizer)
    requires i != |front|
    ensures Accepted(front + [op], i, key, e, capacity, size) <==> Accepted(front, i, key, e, capacity, size)
  {
    if 0 <= i < |front| { assert (front + [op])[i] == front[i]; }
  }

  /** A later operation that puts nothing under the key changes neither fact. */
  lemma DateKept(front: seq<Op>, op: Op, i: int, key: string, e: Entry, capacity: nat, size: Sizer)
    requires Accepted(front, i, key, e, capacity, size) && !Replaced(front, i, key, capacity, size)
    requires forall x :: !Accepted(front + [op], |front|, key, x, capacity, size)
    ensures Accepted(front + [op], i, key, e, capacity, size)
    ensures !Replaced(front + [op], i, key, capacity, size)
  {
    AcceptedSnoc(front, op, i, key, e, capacity, size);
    if Replaced(front + [op], i, key, capacity, size) {
      var j, x :| i < j && Accepted(front + [op], j, key, x, capacity, size);
      AcceptedSnoc(front, op, j, key, x, capacity, size);
    }
  }

  /** Where the items that stay stood before. */
  ghost predicate Keeps(items: seq<Item>, key: string, kept: seq<Item>, from: seq<nat>) {
    && |from| == |kept|
    && (forall k | 0 <= k < |kept| :: from[k] < |items| && kept[k] == items[from[k]] && kept[k].key != key)
    && (forall j, k | 0 <= j < k < |from| :: from[j] < from[k])
  }

  function Shifted(from: seq<nat>): (r: seq<nat>)
    ensures |r| == |from| && forall k | 0 <= k < |from| :: r[k] == from[k] + 1
  {
    seq(|from|, k requires 0 <= k < |from| => from[k] + 1)
  }

  lemma KeepsShifted(items: seq<Item>, key: string, kept: seq<Item>, from: seq<nat>)
    requires items != [] && Keeps(items[1..], key, kept, from)
    ensures Keeps(items, key, kept, Shifted(from))
  {
  }

  lemma KeepsFirst(items: seq<Item>, key: string, kept: seq<Item>, from: seq<nat>)
    requires items != [] && items[0].key != key && Keeps(items, key, kept, from)
    requires forall k | 0 <= k < |from| :: from[k] > 0
    ensures Keeps(items, key, [items[0]] + kept, [0] + from)
  {
  }

  lemma {:induction false} WithoutKeeps(items: seq<Item>, key: string) returns (from: seq<nat>)
    ensures Keeps(items, key, Without(items, key), from)
  {
    if items == [] {
      from := [];
    } else {
      var rest := WithoutKeeps(items[1..], key);
      from := Shifted(rest);
      KeepsShifted(items, key, Without(items[1..], key), rest);
      if items[0].key != key {
        KeepsFirst(items, key, Without(items[1..], key), from);
        from := [0] + from;
      } else {
        assert Without(items, key) == Without(items[1..], key);
      }
    }
  }

  /** Dates survive removing a key. */
  lemma DatedWithout(items: seq<Item>, ops: seq<Op>, at: seq<int>, key: string, capacity: nat, size: Sizer)
    returns (less: seq<int>)
    requires Dated(items, ops, at, capacity, size)
    ensures Dated(Without(items, key), ops, less, capacity, size)
    ensures forall k | 0 <= k < |Without(items, key)| :: Without(items, key)[k].key != key
  {
    var from := WithoutKeeps(items, key);
    less := seq(|from|, k requires 0 <= k < |from| => at[from[k]]);
  }

  /** Dates survive an operation that puts nothing under any listed key. */
  lemma DatedSnoc(items: seq<Item>, front: seq<Op>, op: Op, at: seq<int>, capacity: nat, size: Sizer)
    requires Dated(items, front, at, capacity, size)
    requires forall k, x | 0 <= k < |items| :: !Accepted(front + [op], |front|, items[k].key, x, capacity, size)
    ensures Dated(items, front + [op], at, capacity, size)
  {
    forall k | 0 <= k < |items|
      ensures Accepted(front + [op], at[k], items[k].key, items[k].entry, capacity, size)
      ensures !Replaced(front + [op], at[k], items[k].key, capacity, size)
    {
      DateKept(front, op, at[k], items[k].key, items[k].entry, capacity, size);
    }
  }

  /** Before the eviction: the others and, last, the new item. */
  lemma DatedPush(items: seq<Item>, front: seq<Op>, op: Op, at: seq<int>, e: Entry, capacity: nat, size: Sizer)
    returns (now: seq<int>)
    requires Dated(items, front, at, capacity, size)
    requires Accepted(front + [op], |front|, op.key, e, capacity, size)
    ensures Dated(Without(items, op.key) + [Item(op.key, e)], front + [op], now, capacity, size)
  {
    var kept := Without(items, op.key);
    var less := DatedWithout(items, front, at, op.key, capacity, size);
    forall k | 0 <= k < |less| ensures less[k] < |front| { assert Latest(front, less[k], kept[k], capacity, size); }
    DatedSnoc(kept, front, op, less, capacity, size);
    assert Latest(front + [op], |front|, Item(op.key, e), capacity, size);
    now := less + [|front|];
  }

  lemma DatedCut(items: seq<Item>, ops: seq<Op>, at: seq<int>, n: nat, capacity: nat, size: Sizer) returns (now: seq<int>)
    requires Dated(items, ops, at, capacity, size)
    ensures Dated(LastFew(items, n), ops, now, capacity, size)
  {
    now := if |items| <= n then at else at[|items| - n..];
  }

  lemma {:induction false} RunOrdered(ops: seq<Op>, capacity: nat, size: Sizer)
    ensures Ordered(Run(ops, capacity, size), ops, capacity, size)
  {
    if ops == [] {
      assert Dated([], ops, [], capacity, size);
    } else {
      var front, op := ops[..|ops| - 1], ops[|ops| - 1];
      assert front + [op] == ops;
      RunOrdered(front, capacity, size);
      var items := Run(front, capacity, size);
      var at :| Dated(items, front, at, capacity, size);
      StepOrdered(items, front, op, at, capacity, size);
    }
  }

  lemma StepOrdered(items: seq<Item>, front: seq<Op>, op: Op, at: seq<int>, capacity: nat, size: Sizer)
    requires Dated(items, front, at, capacity, size)
    ensures Ordered(Step(items, capacity, size, op), front + [op], capacity, size)
  {
    if op.Put? && capacity > 0 && EntryFor(op.message, op.now, size).Some? {
      var e := EntryFor(op.message, op.now, size).value;
      assert (front + [op])[|front|] == op;
      var now := DatedPush(items, front, op, at, e, capacity, size);
      var cut := DatedCut(Without(items, op.key) + [Item(op.key, e)], front + [op], now, capacity, capacity, size);
    } else {
      DatedSnoc(items, front, op, at, capacity, size);
      if op.Take? && Looked(items, op.key, op.now) != items {
        var less := DatedWithout(items, front + [op], at, op.key, capacity, size);
      }
    }
  }

  /** After any run, a hit is the aged copy of the latest accepted insert for its key. */
  lemma HitIsLatest(ops: seq<Op>, capacity: nat, size: Sizer, key: string, e: Entry)
    requires Lookup(Run(ops, capacity, size), key) == Some(e)
    ensures exists i :: Latest(ops, i, Item(key, e), capacity, size)
  {
    RunOrdered(ops, capacity, size);
    var items := Run(ops, capacity, size);
    var at :| Dated(items, ops, at, capacity, size);
    var k := Found(items, key);
    assert Latest(ops, at[k], Item(key, e), capacity, size);
  }

  lemma {:induction false} Found(items: seq<Item>, key: string) returns (k: nat)
    requires Lookup(items, key).Some?
    ensures k < |items| && items[k] == Item(key, Lookup(items, key).value)
  {
    if items[0].key == key {
      k := 0;
    } else {
      var j := Found(items[1..], key);
      k := j + 1;
    }
  }

  /** Whatever came before, a record of a hit is a record of the latest accepted message for the
      key, with the age taken from its time and something left. */
  lemma RunHitSound(ops: seq<Op>, capacity: nat, size: Sizer, key: string, now: nat, r: Record)
    requires var hit := Hit(Lookup(Run(ops, capacity, size), key), now); hit.Some? && r in Records(hit.value)
    ensures exists i, e, s ::
              && Latest(ops, i, Item(key, e), capacity, size)
              && s in Records(Stored(ops[i].message)) && r.data == s.data
              && r.ttl as int == s.ttl - Age(e, now) && r.ttl > 0
  {
    var e := Lookup(Run(ops, capacity, size), key).value;
    HitIsLatest(ops, capacity, size, key, e);
    var i :| Latest(ops, i, Item(key, e), capacity, size);
    HitNeverExtends(e, ops[i].message, ops[i].now, size, now, r);
  }

  // Survival: only enough newer keys, or expiry, remove an entry

  /** The keys put by accepted operations after `i`. */
  ghost function NewerKeys(ops: seq<Op>, i: nat, size: Sizer): set<string> {
    set j | 0 <= j < |ops| && i < j && ops[j].Put? && EntryFor(ops[j].message, ops[j].now, size).Some? :: ops[j].key
  }

  lemma NewerSnoc(front: seq<Op>, op: Op, i: nat, size: Sizer)
    ensures NewerKeys(front, i, size) <= NewerKeys(front + [op], i, size)
  {
    forall k | k in NewerKeys(front, i, size) ensures k in NewerKeys(front + [op], i, size) {
      var j :| 0 <= j < |front| && i < j && front[j].Put? && EntryFor(front[j].message, front[j].now, size).Some?
               && front[j].key == k;
      assert (front + [op])[j] == front[j];
    }
  }

  ghost function KeysOf(items: seq<Item>): set<string> { set x | x in items :: x.key }

  lemma LatestUnique(ops: seq<Op>, i: int, j: int, x: Item, y: Item, capacity: nat, size: Sizer)
    requires Latest(ops, i, x, capacity, size) && Latest(ops, j, y, capacity, size) && x.key == y.key
    ensures i == j && x == y
  {
  }

  ghost predicate DifferentKeys(items: seq<Item>) {
    forall j, k | 0 <= j < k < |items| :: items[j].key != items[k].key
  }

  lemma DatedDiffer(items: seq<Item>, ops: seq<Op>, at: seq<int>, capacity: nat, size: Sizer)
    requires Dated(items, ops, at, capacity, size)
    ensures DifferentKeys(items)
  {
    forall j, k | 0 <= j < k < |items| ensures items[j].key != items[k].key {
      if items[j].key == items[k].key { LatestUnique(ops, at[j], at[k], items[j], items[k], capacity, size); }
    }
  }

  lemma {:induction false} KeysCount(items: seq<Item>)
    requires DifferentKeys(items)
    ensures |KeysOf(items)| == |items|
  {
    if items == [] {
      assert KeysOf(items) == {};
    } else {
      var n := |items| - 1;
      KeysCount(items[..n]);
      assert items == items[..n] + [items[n]];
      assert KeysOf(items) == KeysOf(items[..n]) + {items[n].key};
    }
  }

  lemma LatestIsNewer(ops: seq<Op>, j: int, i: nat, x: Item, capacity: nat, size: Sizer)
    requires Latest(ops, j, x, capacity, size) && i < j
    ensures x.key in NewerKeys(ops, i, size)
  {
  }

  /** Everything listed after an item was put later, under a newer key. */
  lemma LaterItems(items: seq<Item>, ops: seq<Op>, at: seq<int>, p: nat, capacity: nat, size: Sizer)
    requires Dated(items, ops, at, capacity, size) && p < |items| && at[p] >= 0
    ensures |items| - p - 1 <= |NewerKeys(ops, at[p], size)|
  {
    var later, dates := items[p + 1..], at[p + 1..];
    assert Dated(later, ops, dates, capacity, size);
    DatedDiffer(later, ops, dates, capacity, size);
    KeysCount(later);
    forall key | key in KeysOf(later) ensures key in NewerKeys(ops, at[p], size) {
      var k :| 0 <= k < |later| && later[k].key == key;
      LatestIsNewer(ops, dates[k], at[p], later[k], capacity, size);
    }
    SubsetSize(KeysOf(later), NewerKeys(ops, at[p], size));
  }

  lemma {:induction false} WithoutOther(items: seq<Item>, x: Item, key: string)
    requires x in items && x.key != key
    ensures x in Without(items, key)
  {
    if items[0] != x {
      assert items == [items[0]] + items[1..];
      WithoutOther(items[1..], x, key);
    }
  }

  ghost predicate Expires(ops: seq<Op>, i: nat, key: string, e: Entry) {
    exists j | 0 <= j < |ops| :: i < j && ops[j].Take? && ops[j].key == key && Age(e, ops[j].now) >= e.ttl
  }

  /** Eviction is oldest first: the latest accepted insert of a key stays until as many different
      newer keys as the capacity were accepted, or a lookup finds it expired. */
  lemma {:induction false} EntrySurvives(ops: seq<Op>, capacity: nat, size: Sizer, i: nat, x: Item)
    requires Latest(ops, i, x, capacity, size)
    requires !Expires(ops, i, x.key, x.entry) && |NewerKeys(ops, i, size)| < capacity
    ensures x in Run(ops, capacity, size)
    decreases |ops|
  {
    var front, op := ops[..|ops| - 1], ops[|ops| - 1];
    var items := Run(front, capacity, size);
    assert front + [op] == ops;
    if i == |front| {
      var all := Without(items, x.key) + [x];
      assert LastFew(all, capacity)[|LastFew(all, capacity)| - 1] == x;
    } else {
      LatestBefore(front, op, i, x, capacity, size);
      NewerSnoc(front, op, i, size);
      SubsetSize(NewerKeys(front, i, size), NewerKeys(ops, i, size));
      assert forall j | 0 <= j < |front| :: front[j] == ops[j];
      EntrySurvives(front, capacity, size, i, x);
      if op.Put? {
        PutKeeps(items, x, capacity, size, front, op, i);
      } else {
        assert op.key == x.key ==> Age(x.entry, op.now) < x.entry.ttl;
        TakeKeeps(items, x, capacity, size, front, i, op.now, op.key);
      }
    }
  }

  lemma LatestBefore(front: seq<Op>, op: Op, i: nat, x: Item, capacity: nat, size: Sizer)
    requires Latest(front + [op], i, x, capacity, size) && i < |front|
    ensures Latest(front, i, x, capacity, size)
  {
    AcceptedSnoc(front, op, i, x.key, x.entry, capacity, size);
    if Replaced(front, i, x.key, capacity, size) {
      var j, y :| i < j && Accepted(front, j, x.key, y, capacity, size);
      AcceptedSnoc(front, op, j, x.key, y, capacity, size);
    }
  }

  lemma PutKeeps(items: seq<Item>, x: Item, capacity: nat, size: Sizer, front: seq<Op>, op: Op, i: nat)
    requires items == Run(front, capacity, size) && x in items && op.Put? && i < |front|
    requires Latest(front + [op], i, x, capacity, size) && |NewerKeys(front + [op], i, size)| < capacity
    ensures x in Step(items, capacity, size, op)
  {
    var ops, entry := front + [op], EntryFor(op.message, op.now, size);
    if entry.Some? {
      assert ops[|front|] == op && Accepted(ops, |front|, op.key, entry.value, capacity, size);
      RunOrdered(front, capacity, size);
      var at :| Dated(items, front, at, capacity, size);
      var now := DatedPush(items, front, op, at, entry.value, capacity, size);
      LaterElsewhere(ops, i, x, |front|, op.key, entry.value, capacity, size);
      WithoutOther(items, x, op.key);
      NewestKept(Without(items, op.key) + [Item(op.key, entry.value)], ops, now, i, x, capacity, size);
    }
  }

  lemma LaterElsewhere(ops: seq<Op>, i: int, x: Item, j: int, key: string, e: Entry, capacity: nat, size: Sizer)
    requires Latest(ops, i, x, capacity, size) && i < j && Accepted(ops, j, key, e, capacity, size)
    ensures key != x.key
  {
  }

  /** An item with fewer newer keys than the capacity is among the newest items. */
  lemma NewestKept(items: seq<Item>, ops: seq<Op>, at: seq<int>, i: nat, x: Item, capacity: nat, size: Sizer)
    requires Dated(items, ops, at, capacity, size) && x in items
    requires Latest(ops, i, x, capacity, size) && |NewerKeys(ops, i, size)| < capacity
    ensures x in LastFew(items, capacity)
  {
    var p :| 0 <= p < |items| && items[p] == x;
    LatestUnique(ops, at[p], i, items[p], x, capacity, size);
    LaterItems(items, ops, at, p, capacity, size);
    LastFewHas(items, p, capacity);
  }

  lemma LastFewHas(items: seq<Item>, p: nat, n: nat)
    requires p < |items| && |items| - p <= n
    ensures items[p] in LastFew(items, n)
  {
    if |items| > n { assert LastFew(items, n)[p - (|items| - n)] == items[p]; }
  }

  lemma TakeKeeps(items: seq<Item>, x: Item, capacity: nat, size: Sizer, front: seq<Op>, i: nat, now: nat, key: string)
    requires items == Run(front, capacity, size) && x in items && Latest(front, i, x, capacity, size)
    requires key == x.key ==> Age(x.entry, now) < x.entry.ttl
    ensures x in Looked(items, key, now)
  {
    if key == x.key {
      var k :| 0 <= k < |items| && items[k] == x;
      Findable(items, k);
      var e := Lookup(items, key).value;
      HitIsLatest(front, capacity, size, key, e);
      var j :| Latest(front, j, Item(key, e), capacity, size);
      LatestUnique(front, j, i, Item(key, e), x, capacity, size);
    } else if Looked(items, key, now) != items {
      WithoutOther(items, x, key);
    }
  }

  lemma {:induction false} Findable(items: seq<Item>, k: nat)
    requires k < |items|
    ensures Lookup(items, items[k].key).Some?
  {
    if k > 0 { Findable(items[1..], k - 1); }
  }
}
