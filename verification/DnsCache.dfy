/** The DNS answer cache: a map and a deque that together behave as a bounded list of entries,
    oldest first. */
module DnsCache {
  import opened Text

  const MAX_TTL := 3600
  const MAX_BYTES := 16_384
  const SECOND := 1_000_000_000

  type U32 = n: nat | n < 0x1_0000_0000

  // Messages

  datatype Data = Soa(minimum: U32) | Other(content: string)

  datatype Record = Record(ttl: U32, data: Data)

  datatype Code = NoError | NxDomain | OtherCode

  datatype Message = Message(
    code: Code, truncated: bool, answers: seq<Record>, nameServers: seq<Record>, additionals: seq<Record>)

  function Records(m: Message): seq<Record> { m.answers + m.nameServers + m.additionals }

  function Min(a: U32, b: U32): U32 { if a <= b then a else b }

  function Least(xs: seq<U32>): Option<U32> {
    if xs == [] then None
    else match Least(xs[1..]) case None => Some(xs[0]) case Some(y) => Some(Min(xs[0], y))
  }

  function SoaTtls(records: seq<Record>): seq<U32> {
    if records == [] then [] else
      (match records[0].data case Soa(minimum) => [Min(records[0].ttl, minimum)] case Other(_) => [])
      + SoaTtls(records[1..])
  }

  function Ttl(r: Record): U32 { r.ttl }

  /** The time to live of a whole answer, in seconds. */
  function AnswerTtl(m: Message): Option<U32> {
    var soa := Least(SoaTtls(m.nameServers));
    var all := Least(MapSeq(Records(m), Ttl));
    var ttl :=
      if m.code == NoError && m.answers != [] then all
      else if m.code == NoError || m.code == NxDomain then
        match soa case None => None
        case Some(negative) => Some(Min(match all case None => negative case Some(least) => least, negative))
      else None;
    match ttl case None => None
    case Some(least) =>
      var capped := match soa case None => least case Some(negative) => Min(negative, least);
      if capped > 0 then Some(capped) else None
  }

  function CapSoa(r: Record): Record {
    match r.data case Soa(minimum) => r.(ttl := Min(r.ttl, minimum)) case Other(_) => r
  }

  /** What is kept of a message: negative records live no longer than the SOA minimum. */
  function Stored(m: Message): Message { m.(nameServers := MapSeq(m.nameServers, CapSoa)) }

  // Entries as a list, oldest first

  datatype Entry = Entry(message: Message, inserted: nat, ttl: U32)

  datatype Item = Item(key: string, entry: Entry)

  function Without(items: seq<Item>, key: string): seq<Item> {
    if items == [] then []
    else (if items[0].key == key then [] else [items[0]]) + Without(items[1..], key)
  }

  function LastFew(items: seq<Item>, n: nat): seq<Item> { if |items| <= n then items else items[|items| - n..] }

  function Lookup(items: seq<Item>, key: string): Option<Entry> {
    if items == [] then None else if items[0].key == key then Some(items[0].entry) else Lookup(items[1..], key)
  }

  /** Encoding a message either fails or takes so many bytes. */
  type Sizer = Message -> Option<nat>

  function EntryFor(m: Message, now: nat, size: Sizer): Option<Entry> {
    if m.truncated || AnswerTtl(m) == None || size(Stored(m)) == None || size(Stored(m)).value > MAX_BYTES then None
    else Some(Entry(Stored(m), now, Min(AnswerTtl(m).value, MAX_TTL)))
  }

  /** An accepted insert replaces its key, becomes the newest and pushes out the oldest. */
  function Inserted(items: seq<Item>, capacity: nat, key: string, entry: Option<Entry>): seq<Item> {
    if capacity == 0 || entry == None then items
    else LastFew(Without(items, key) + [Item(key, entry.value)], capacity)
  }

  function Age(e: Entry, now: nat): nat { if now < e.inserted then 0 else (now - e.inserted) / SECOND }

  function SaturatingSub(a: U32, b: U32): U32 { if a < b then 0 else a - b }

  function AgeRecord(r: Record, age: U32): Record { r.(ttl := SaturatingSub(r.ttl, age)) }

  function AgeRecords(records: seq<Record>, age: U32): seq<Record> { MapSeq(records, r => AgeRecord(r, age)) }

  /** The cast of the 64-bit age to 32 bits. */
  function AsU32(age: nat): U32 { age % 0x1_0000_0000 }

  function Aged(m: Message, age: U32): Message {
    m.(answers := AgeRecords(m.answers, age), nameServers := AgeRecords(m.nameServers, age),
       additionals := AgeRecords(m.additionals, age))
  }

  function Hit(found: Option<Entry>, now: nat): Option<Message> {
    match found case None => None
    case Some(e) => if Age(e, now) >= e.ttl then None else Some(Aged(e.message, AsU32(Age(e, now))))
  }

  function Looked(items: seq<Item>, key: string, now: nat): seq<Item> {
    match Lookup(items, key) case None => items
    case Some(e) => if Age(e, now) >= e.ttl then Without(items, key) else items
  }

  // The structure

  function KeysWithout(order: seq<string>, key: string): seq<string> {
    if order == [] then []
    else (if order[0] == key then [] else [order[0]]) + KeysWithout(order[1..], key)
  }

  ghost predicate NoDuplicates(order: seq<string>) { forall i, j | 0 <= i < j < |order| :: order[i] != order[j] }

  /** The deque lists exactly the keys of the map, each once. */
  ghost predicate Listed(order: seq<string>, entries: map<string, Entry>) {
    NoDuplicates(order) && forall k :: k in order <==> k in entries
  }

  ghost function ItemsOf(order: seq<string>, entries: map<string, Entry>): (items: seq<Item>)
    requires forall k | k in order :: k in entries
    ensures |items| == |order|
  {
    seq(|order|, i requires 0 <= i < |order| => Item(order[i], entries[order[i]]))
  }

  class Cache {
    const capacity: nat
    var entries: map<string, Entry>
    var order: seq<string>

    ghost predicate Valid()
      reads this
    {
      Listed(order, entries) && |entries| <= capacity
    }

    ghost function Items(): seq<Item>
      reads this
      requires Valid()
    {
      ItemsOf(order, entries)
    }

    constructor (capacity: nat)
      ensures Valid() && this.capacity == capacity && Items() == []
    {
      this.capacity := capacity;
      entries, order := map[], [];
    }

    /** `Cache::get`. */
    method Get(key: string, now: nat) returns (r: Option<Message>)
      requires Valid()
      modifies this
      ensures Valid()
      ensures r == Hit(Lookup(old(Items()), key), now)
      ensures Items() == Looked(old(Items()), key, now)
    {
      LookupListed(order, entries, key);
      if key !in entries {
        return None;
      }
      var entry := entries[key];
      var age := Age(entry, now);
      if age >= entry.ttl {
        RemoveListed(order, entries, key);
        entries := entries - {key};
        order := KeysWithout(order, key);
        return None;
      }
      var answers := AgeList(entry.message.answers, AsU32(age));
      var nameServers := AgeList(entry.message.nameServers, AsU32(age));
      var additionals := AgeList(entry.message.additionals, AsU32(age));
      return Some(entry.message.(answers := answers, nameServers := nameServers, additionals := additionals));
    }

    /** `Cache::insert`. */
    method Insert(key: string, message: Message, now: nat, size: Sizer)
      requires Valid()
      modifies this
      ensures Valid()
      ensures Items() == Inserted(old(Items()), capacity, key, EntryFor(message, now, size))
    {
      if capacity == 0 || message.truncated {
        return;
      }
      var ttl := AnswerTtl(message);
      if ttl == None {
        return;
      }
      var nameServers := CapList(message.nameServers);
      var stored := message.(nameServers := nameServers);
      var bytes := size(stored);
      if bytes == None || bytes.value > MAX_BYTES {
        return;
      }
      Place(key, Entry(stored, now, Min(ttl.value, MAX_TTL)));
    }

    /** The end of `insert`: unlist the key, evict the oldest, list the key last. */
    method Place(key: string, entry: Entry)
      requires Valid() && capacity > 0
      modifies this
      ensures Valid()
      ensures Items() == Inserted(old(Items()), capacity, key, Some(entry))
    {
      ghost var kept := Without(Items(), key);
      UnlistKey(order, entries, key);
      order := KeysWithout(order, key);
      while |entries| >= capacity && key !in entries
        invariant Unlisted(order, entries, key) && |entries| <= capacity
        invariant ItemsOf(order, entries) == LastFew(kept, |order|)
        invariant |order| == |kept| || |order| == capacity - 1
        decreases |order|
      {
        if order == [] {
          break;
        }
        UnlistedSize(order, entries, key);
        EvictStep(order, entries, key);
        entries := entries - {order[0]};
        order := order[1..];
      }
      UnlistedSize(order, entries, key);
      ListKey(order, entries, key, entry);
      KeepLast(kept, |order|, capacity, Item(key, entry));
      order := order + [key];
      entries := entries[key := entry];
    }
  }

  /** The loops of `get` over the three record lists. */
  method AgeList(records: seq<Record>, age: U32) returns (aged: seq<Record>)
    ensures aged == AgeRecords(records, age)
  {
    aged := records;
    for i := 0 to |records|
      invariant |aged| == |records|
      invariant forall j | 0 <= j < i :: aged[j] == AgeRecord(records[j], age)
      invariant forall j | i <= j < |records| :: aged[j] == records[j]
    {
      aged := aged[i := AgeRecord(aged[i], age)];
    }
  }

  /** The loop of `insert` over the name servers. */
  method CapList(records: seq<Record>) returns (capped: seq<Record>)
    ensures capped == MapSeq(records, CapSoa)
  {
    capped := records;
    for i := 0 to |records|
      invariant |capped| == |records|
      invariant forall j | 0 <= j < i :: capped[j] == CapSoa(records[j])
      invariant forall j | i <= j < |records| :: capped[j] == records[j]
    {
      capped := capped[i := CapSoa(capped[i])];
    }
  }

  // The deque and the map together

  /** Like `Listed`, except that the key may be in the map without being listed. */
  ghost predicate Unlisted(order: seq<string>, entries: map<string, Entry>, key: string) {
    NoDuplicates(order) && forall k :: k in order <==> k in entries && k != key
  }

  lemma {:induction false} KeysWithoutIs(order: seq<string>, key: string)
    requires NoDuplicates(order)
    ensures NoDuplicates(KeysWithout(order, key))
    ensures forall k :: k in KeysWithout(order, key) <==> k in order && k != key
  {
    if order != [] {
      assert order == [order[0]] + order[1..];
      KeysWithoutIs(order[1..], key);
      assert order[0] !in order[1..];
    }
  }

  lemma {:induction false} ItemsWithout(order: seq<string>, entries: map<string, Entry>, key: string)
    requires forall k | k in order :: k in entries
    ensures forall k | k in KeysWithout(order, key) :: k in entries
    ensures ItemsOf(KeysWithout(order, key), entries) == Without(ItemsOf(order, entries), key)
  {
    if order != [] {
      ItemsWithout(order[1..], entries, key);
      ItemsCons(order, entries);
      if order[0] != key { ItemsConcat([order[0]], KeysWithout(order[1..], key), entries); }
    }
  }

  lemma ItemsCons(order: seq<string>, entries: map<string, Entry>)
    requires order != [] && forall k | k in order :: k in entries
    ensures ItemsOf(order, entries)[0] == Item(order[0], entries[order[0]])
    ensures ItemsOf(order, entries)[1..] == ItemsOf(order[1..], entries)
  {
  }

  lemma ItemsConcat(a: seq<string>, b: seq<string>, entries: map<string, Entry>)
    requires forall k | k in a || k in b :: k in entries
    ensures ItemsOf(a + b, entries) == ItemsOf(a, entries) + ItemsOf(b, entries)
  {
  }

  lemma UnlistKey(order: seq<string>, entries: map<string, Entry>, key: string)
    requires Listed(order, entries)
    ensures Unlisted(KeysWithout(order, key), entries, key)
    ensures ItemsOf(KeysWithout(order, key), entries) == Without(ItemsOf(order, entries), key)
  {
    KeysWithoutIs(order, key);
    ItemsWithout(order, entries, key);
  }

  lemma {:induction false} SizeOfListing(order: seq<string>, keys: set<string>)
    requires NoDuplicates(order) && forall k :: k in order <==> k in keys
    ensures |order| == |keys|
  {
    if order == [] {
      assert keys == {};
    } else {
      var front, last := order[..|order| - 1], order[|order| - 1];
      assert order == front + [last] && last !in front;
      SizeOfListing(front, keys - {last});
    }
  }

  lemma UnlistedSize(order: seq<string>, entries: map<string, Entry>, key: string)
    requires Unlisted(order, entries, key)
    ensures |entries| == |order| + if key in entries then 1 else 0
  {
    SizeOfListing(order, entries.Keys - {key});
    if key in entries {
      assert entries.Keys == (entries.Keys - {key}) + {key};
    } else {
      assert entries.Keys == entries.Keys - {key};
    }
    assert |entries| == |entries.Keys|;
  }

  lemma SmallerMap(entries: map<string, Entry>, key: string)
    requires key in entries
    ensures (entries - {key}).Keys == entries.Keys - {key} && |entries - {key}| == |entries| - 1
  {
    var less := entries - {key};
    assert less.Keys == entries.Keys - {key};
    assert |less| == |less.Keys| && |entries| == |entries.Keys|;
  }

  lemma TailKeys(order: seq<string>, k: string)
    requires NoDuplicates(order) && order != []
    ensures NoDuplicates(order[1..]) && order[0] !in order[1..]
    ensures k in order[1..] <==> k in order && k != order[0]
  {
    assert order == [order[0]] + order[1..];
  }

  lemma ItemsAgree(order: seq<string>, a: map<string, Entry>, b: map<string, Entry>)
    requires forall k | k in order :: k in a && k in b && a[k] == b[k]
    ensures ItemsOf(order, a) == ItemsOf(order, b)
  {
  }

  lemma EvictStep(order: seq<string>, entries: map<string, Entry>, key: string)
    requires Unlisted(order, entries, key) && order != []
    ensures Unlisted(order[1..], entries - {order[0]}, key)
    ensures |entries - {order[0]}| == |entries| - 1
    ensures ItemsOf(order[1..], entries - {order[0]}) == ItemsOf(order, entries)[1..]
  {
    var first, less := order[0], entries - {order[0]};
    assert first in entries;
    SmallerMap(entries, first);
    forall k ensures k in order[1..] <==> k in less && k != key { TailKeys(order, k); }
    TailKeys(order, first);
    ItemsAgree(order[1..], entries, less);
    assert ItemsOf(order[1..], entries) == ItemsOf(order, entries)[1..];
  }

  lemma ListKey(order: seq<string>, entries: map<string, Entry>, key: string, entry: Entry)
    requires Unlisted(order, entries, key)
    ensures Listed(order + [key], entries[key := entry])
    ensures ItemsOf(order + [key], entries[key := entry]) == ItemsOf(order, entries) + [Item(key, entry)]
    ensures |entries[key := entry]| == |order| + 1
  {
    SizeOfListing(order + [key], entries[key := entry].Keys);
    assert |entries[key := entry]| == |entries[key := entry].Keys|;
  }

  lemma KeepLast(kept: seq<Item>, n: nat, capacity: nat, x: Item)
    requires n <= |kept| && n < capacity && (n == |kept| || n == capacity - 1)
    ensures LastFew(kept, n) + [x] == LastFew(kept + [x], capacity)
  {
  }

  lemma {:induction false} LookupListed(order: seq<string>, entries: map<string, Entry>, key: string)
    requires forall k | k in order :: k in entries
    ensures Lookup(ItemsOf(order, entries), key) == if key in order then Some(entries[key]) else None
  {
    if order != [] {
      LookupListed(order[1..], entries, key);
      assert ItemsOf(order, entries)[1..] == ItemsOf(order[1..], entries);
      assert order == [order[0]] + order[1..];
    }
  }

  lemma MapWithout(entries: map<string, Entry>, key: string)
    ensures |entries - {key}| <= |entries|
  {
    if key in entries {
      SmallerMap(entries, key);
    } else {
      assert entries - {key} == entries;
    }
  }

  lemma RemoveListed(order: seq<string>, entries: map<string, Entry>, key: string)
    requires Listed(order, entries)
    ensures Listed(KeysWithout(order, key), entries - {key})
    ensures |entries - {key}| <= |entries|
    ensures ItemsOf(KeysWithout(order, key), entries - {key}) == Without(ItemsOf(order, entries), key)
  {
    UnlistKey(order, entries, key);
    MapWithout(entries, key);
    ItemsAgree(KeysWithout(order, key), entries, entries - {key});
  }
}
