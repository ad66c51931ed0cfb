/** Which answers the DNS cache accepts, and when it serves them. */
module DnsCacheHits {
  import opened Text
  import opened DnsCache
  import opened DnsCacheRuns

  // Accepting

  /** What is stored is the message, except that an SOA record in authority lives no longer than its
      minimum. */
  lemma StoredIs(m: Message)
    ensures var s := Stored(m);
            && s.code == m.code && s.truncated == m.truncated && s.answers == m.answers && s.additionals == m.additionals
            && |s.nameServers| == |m.nameServers|
            && forall i | 0 <= i < |m.nameServers| ::
                 var r := m.nameServers[i];
                 s.nameServers[i].data == r.data
                 && s.nameServers[i].ttl == if r.data.Soa? && r.data.minimum < r.ttl then r.data.minimum else r.ttl
  {
    forall i | 0 <= i < |m.nameServers| ensures Stored(m).nameServers[i] == CapSoa(m.nameServers[i]) {}
  }

  /** An answer is accepted exactly when it is whole, cacheable, bounded by a positive time, and encodes
      within 16,384 bytes; it then lives for that time, but no longer than an hour. */
  lemma AcceptedExactly(m: Message, now: nat, size: Sizer, t: U32)
    requires LeastBound(m, t)
    ensures EntryFor(m, now, size).Some?
            <==> !m.truncated && Cacheable(m) && t > 0 && size(Stored(m)).Some? && size(Stored(m)).value <= 16_384
    ensures EntryFor(m, now, size).Some? ==>
              EntryFor(m, now, size).value == Entry(Stored(m), now, if t < 3_600 then t else 3_600)
  {
    AnswerTtlExact(m, t);
    if AnswerTtl(m).Some? {
      AnswerTtlExact(m, AnswerTtl(m).value);
    }
  }

  /** A message whose records and authority bound it by no time at all is never accepted. */
  lemma UnboundedRefused(m: Message, now: nat, size: Sizer)
    requires forall t :: !LeastBound(m, t)
    ensures EntryFor(m, now, size) == None
  {
    if AnswerTtl(m).Some? { AnswerTtlExact(m, AnswerTtl(m).value); }
  }

  // Serving

  /** Whole seconds since the entry was made; none if the clock went back. */
  function Seconds(e: Entry, now: nat): nat { if now < e.inserted then 0 else (now - e.inserted) / 1_000_000_000 }

  /** An entry is served exactly until its time has passed. */
  lemma ServedExactly(e: Entry, now: nat)
    ensures Hit(Some(e), now).Some? <==> e.ttl > 0 && now < e.inserted + e.ttl * 1_000_000_000
  {
  }

  /** What is served is the stored message with the elapsed seconds taken off every time. */
  lemma ServedMessage(e: Entry, m: Message, inserted: nat, size: Sizer, now: nat)
    requires Made(e, m, inserted, size) && Hit(Some(e), now).Some?
    ensures var hit := Hit(Some(e), now).value;
            && hit.code == e.message.code && hit.truncated == e.message.truncated
            && Older(hit.answers, e.message.answers, Seconds(e, now))
            && Older(hit.nameServers, e.message.nameServers, Seconds(e, now))
            && Older(hit.additionals, e.message.additionals, Seconds(e, now))
  {
    EntryLifetime(e, m, inserted, size);
    var s := e.message;
    AgedOlder(e, s.answers, now);
    AgedOlder(e, s.nameServers, now);
    AgedOlder(e, s.additionals, now);
  }

  ghost predicate Older(aged: seq<Record>, records: seq<Record>, seconds: nat) {
    && |aged| == |records|
    && forall i | 0 <= i < |records| :: aged[i].data == records[i].data && aged[i].ttl as int == records[i].ttl - seconds
  }

  lemma AgedOlder(e: Entry, records: seq<Record>, now: nat)
    requires Age(e, now) < e.ttl && forall r | r in records :: e.ttl <= r.ttl
    ensures Older(AgeRecords(records, AsU32(Age(e, now))), records, Seconds(e, now))
  {
    forall i | 0 <= i < |records| ensures e.ttl <= records[i].ttl { assert records[i] in records; }
  }

  lemma {:induction false} OneOfEachKey(items: seq<Item>, x: Item)
    requires DifferentKeys(items) && x in items
    ensures Lookup(items, x.key) == Some(x.entry)
  {
    var k :| 0 <= k < |items| && items[k] == x;
    if k > 0 {
      assert items[1..][k - 1] == x;
      OneOfEachKey(items[1..], x);
    }
  }

  /** Over every run, the latest accepted answer for a key is what a lookup serves, exactly until its
      time has passed, as long as fewer different newer keys than the capacity were accepted and no
      earlier lookup found it expired. */
  lemma RunServes(ops: seq<Op>, capacity: nat, size: Sizer, i: nat, x: Item, now: nat)
    requires Latest(ops, i, x, capacity, size)
    requires !Expires(ops, i, x.key, x.entry) && |NewerKeys(ops, i, size)| < capacity
    ensures var found := Lookup(Run(ops, capacity, size), x.key);
            && found == Some(x.entry) == EntryFor(ops[i].message, ops[i].now, size)
            && (Hit(found, now).Some? <==> now < ops[i].now + x.entry.ttl * 1_000_000_000)
  {
    EntrySurvives(ops, capacity, size, i, x);
    RunOrdered(ops, capacity, size);
    var at :| Dated(Run(ops, capacity, size), ops, at, capacity, size);
    DatedDiffer(Run(ops, capacity, size), ops, at, capacity, size);
    OneOfEachKey(Run(ops, capacity, size), x);
    EntryLifetime(x.entry, ops[i].message, ops[i].now, size);
    ServedExactly(x.entry, now);
  }
}
