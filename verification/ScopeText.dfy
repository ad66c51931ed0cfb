/** What a scope list of a line says, read from its entries. */
module ScopeText {
  import opened Text
  import opened Hosts
  import opened Dnr
  import opened NetworkFilter

  /** An entry beginning with "~" excludes the domain after it. */
  predicate Negates(entry: string) { entry != "" && entry[0] == '~' }

  function DomainOf(entry: string): string { if Negates(entry) then entry[1..] else entry }

  /** Some entry of this kind names the host or a domain above it, in any case. */
  ghost predicate Names(entries: seq<string>, negated: bool, host: Option<string>) {
    host.Some? && exists e :: e in entries && Negates(e) == negated && MatchesDomain(host.value, Lower(DomainOf(e)))
  }

  /** The list admits a host: it is empty, or a plain entry names the host or there is none, and no
      negated entry does. */
  ghost predicate Admits(value: string, delimiter: char, host: Option<string>) {
    var entries := Split(value, delimiter);
    value == ""
    || (((forall e | e in entries :: Negates(e)) || Names(entries, false, host)) && !Names(entries, true, host))
  }

  function NamesIn(entries: seq<string>, negated: bool): set<string> {
    set e | e in entries && Negates(e) == negated :: Lower(DomainOf(e))
  }

  /** Every entry names a valid host, and neither kind names more than 200. */
  predicate GoodScope(value: string, delimiter: char) {
    var entries := Split(value, delimiter);
    value == ""
    || ((forall e | e in entries :: HostValid(DomainOf(e)))
        && |NamesIn(entries, false)| <= 200 && |NamesIn(entries, true)| <= 200)
  }

  lemma ItemReads(e: string)
    ensures ItemOf(e) == Item(Negates(e), Lower(DomainOf(e)), HostValid(DomainOf(e)))
  {
    if e != "" { assert e[..1] == "~" <==> e[0] == '~'; }
  }

  lemma ItemsRead(value: string, delimiter: char, item: Item)
    ensures item in ItemsOf(value, delimiter) <==> exists e :: e in Split(value, delimiter) && ItemOf(e) == item
  {
    var parts, items := Split(value, delimiter), ItemsOf(value, delimiter);
    if item in items {
      var i :| 0 <= i < |items| && items[i] == item;
      assert parts[i] in parts && ItemOf(parts[i]) == item;
    }
    if e :| e in parts && ItemOf(e) == item {
      var i :| 0 <= i < |parts| && parts[i] == e;
      assert items[i] == item;
    }
  }

  lemma NamedReads(value: string, delimiter: char, negated: bool)
    ensures Named(ItemsOf(value, delimiter), negated) == NamesIn(Split(value, delimiter), negated)
  {
    var parts, items := Split(value, delimiter), ItemsOf(value, delimiter);
    forall d | d in Named(items, negated) ensures d in NamesIn(parts, negated) {
      var item :| item in items && item.negated == negated && item.domain == d;
      ItemsRead(value, delimiter, item);
      var e :| e in parts && ItemOf(e) == item;
      ItemReads(e);
    }
    forall d | d in NamesIn(parts, negated) ensures d in Named(items, negated) {
      var e :| e in parts && Negates(e) == negated && Lower(DomainOf(e)) == d;
      ItemReads(e);
      ItemsRead(value, delimiter, ItemOf(e));
    }
  }

  lemma ValidReads(value: string, delimiter: char)
    ensures AllValid(ItemsOf(value, delimiter)) <==> forall e | e in Split(value, delimiter) :: HostValid(DomainOf(e))
  {
    var parts, items := Split(value, delimiter), ItemsOf(value, delimiter);
    if AllValid(items) {
      forall e | e in parts ensures HostValid(DomainOf(e)) {
        ItemReads(e);
        ItemsRead(value, delimiter, ItemOf(e));
      }
    }
    if forall e | e in parts :: HostValid(DomainOf(e)) {
      forall item | item in items ensures item.valid {
        ItemsRead(value, delimiter, item);
        var e :| e in parts && ItemOf(e) == item;
        ItemReads(e);
      }
    }
  }

  /** A list is accepted exactly when it is good, and its two sets are the domains of its plain and of
      its negated entries. */
  lemma ScopeReads(value: string, delimiter: char)
    ensures ScopesOf(value, delimiter).Ok? <==> GoodScope(value, delimiter)
    ensures ScopesOf(value, delimiter).Ok? && value != "" ==>
              ScopesOf(value, delimiter).value
              == Scope(NamesIn(Split(value, delimiter), false), NamesIn(Split(value, delimiter), true))
  {
    NamedReads(value, delimiter, false);
    NamedReads(value, delimiter, true);
    ValidReads(value, delimiter);
  }

  lemma NamesAny(entries: seq<string>, negated: bool, host: Option<string>)
    ensures FromAny(host, NamesIn(entries, negated)) <==> Names(entries, negated, host)
  {
    if Names(entries, negated, host) {
      var e :| e in entries && Negates(e) == negated && MatchesDomain(host.value, Lower(DomainOf(e)));
      assert Lower(DomainOf(e)) in NamesIn(entries, negated);
    }
  }

  lemma NamesSome(entries: seq<string>, e: string)
    requires e in entries
    ensures NamesIn(entries, Negates(e)) != {}
  {
    assert Lower(DomainOf(e)) in NamesIn(entries, Negates(e));
  }

  /** The host is in the included domains, or there are none, and it is in no excluded one: exactly
      what the list admits. */
  lemma ScopeAdmits(value: string, delimiter: char, scope: Scope, host: Option<string>)
    requires ScopesOf(value, delimiter) == Ok(scope)
    ensures (scope.yes == {} || FromAny(host, scope.yes)) && !FromAny(host, scope.no) <==> Admits(value, delimiter, host)
  {
    ScopeReads(value, delimiter);
    if value != "" {
      var entries := Split(value, delimiter);
      NamesAny(entries, false, host);
      NamesAny(entries, true, host);
      if e :| e in entries && !Negates(e) { NamesSome(entries, e); }
    }
  }
}
