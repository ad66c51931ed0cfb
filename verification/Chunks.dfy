/** Cutting a set of hosts into groups of at most 1,000. */
module Chunks {
  const MAX_GROUP := 1000

  ghost predicate Sized<T(!new)>(hosts: set<T>, chunks: seq<set<T>>) {
    forall i | 0 <= i < |chunks| :: chunks[i] != {} && |chunks[i]| <= MAX_GROUP && chunks[i] <= hosts
  }

  ghost predicate Covers<T(!new)>(hosts: set<T>, chunks: seq<set<T>>) {
    forall h | h in hosts :: exists i :: 0 <= i < |chunks| && h in chunks[i]
  }

  ghost predicate Disjoint<T(!new)>(chunks: seq<set<T>>) {
    forall i, j, h | 0 <= i < j < |chunks| && h in chunks[i] :: h !in chunks[j]
  }

  /** Groups of hosts: nonempty, bounded, disjoint, and together all of them. */
  ghost predicate Partition<T(!new)>(hosts: set<T>, chunks: seq<set<T>>) {
    Sized(hosts, chunks) && Covers(hosts, chunks) && Disjoint(chunks)
  }

  lemma SizedGrows<T(!new)>(taken: set<T>, chunks: seq<set<T>>, chunk: set<T>)
    requires Sized(taken, chunks) && chunk != {} && |chunk| <= MAX_GROUP
    ensures Sized(taken + chunk, chunks + [chunk])
  {
  }

  lemma CoversGrows<T(!new)>(taken: set<T>, chunks: seq<set<T>>, chunk: set<T>)
    requires Covers(taken, chunks)
    ensures Covers(taken + chunk, chunks + [chunk])
  {
    var all := chunks + [chunk];
    forall h | h in taken + chunk ensures exists i :: 0 <= i < |all| && h in all[i] {
      if h in taken {
        var i :| 0 <= i < |chunks| && h in chunks[i];
        assert h in all[i];
      } else {
        assert h in all[|chunks|];
      }
    }
  }

  lemma DisjointGrows<T(!new)>(taken: set<T>, chunks: seq<set<T>>, chunk: set<T>)
    requires Sized(taken, chunks) && Disjoint(chunks) && chunk !! taken
    ensures Disjoint(chunks + [chunk])
  {
  }

  /** Up to `MAX_GROUP` members of a nonempty set. */
  method Take<T(!new, ==)>(hosts: set<T>) returns (chunk: set<T>)
    requires hosts != {}
    ensures chunk <= hosts && chunk != {}
    ensures |chunk| == if |hosts| <= MAX_GROUP then |hosts| else MAX_GROUP
  {
    chunk := {};
    var rest := hosts;
    while |chunk| < MAX_GROUP && rest != {}
      invariant chunk + rest == hosts && chunk !! rest && |chunk| <= MAX_GROUP
      invariant |chunk| + |rest| == |hosts|
      decreases rest
    {
      var h :| h in rest;
      chunk, rest := chunk + {h}, rest - {h};
    }
  }

  lemma PartitionGrows<T(!new)>(hosts: set<T>, taken: set<T>, rest: set<T>, chunks: seq<set<T>>, chunk: set<T>)
    requires Partition(taken, chunks) && chunk != {} && |chunk| <= MAX_GROUP
    requires taken + rest == hosts && taken !! rest && chunk <= rest
    ensures Partition(taken + chunk, chunks + [chunk])
    ensures (taken + chunk) + (rest - chunk) == hosts && (taken + chunk) !! (rest - chunk)
    ensures |rest - chunk| == |rest| - |chunk|
  {
    SizedGrows(taken, chunks, chunk);
    CoversGrows(taken, chunks, chunk);
    DisjointGrows(taken, chunks, chunk);
  }

  function Groups(n: nat): nat { (n + MAX_GROUP - 1) / MAX_GROUP }

  /** `hosts.chunks(1000)`: as few groups as their size allows. */
  method Chunk<T(!new, ==)>(hosts: set<T>) returns (chunks: seq<set<T>>)
    ensures Partition(hosts, chunks)
    ensures |chunks| == Groups(|hosts|)
  {
    chunks := [];
    var rest := hosts;
    ghost var taken: set<T> := {};
    while rest != {}
      invariant taken + rest == hosts && taken !! rest
      invariant Partition(taken, chunks)
      invariant |chunks| + Groups(|rest|) == Groups(|hosts|)
      decreases |rest|
    {
      var chunk := Take(rest);
      PartitionGrows(hosts, taken, rest, chunks, chunk);
      GroupsStep(|rest|, |chunk|);
      chunks := chunks + [chunk];
      rest, taken := rest - chunk, taken + chunk;
    }
    assert taken == hosts;
  }

  lemma GroupsStep(n: nat, taken: nat)
    requires n > 0 && taken == if n <= MAX_GROUP then n else MAX_GROUP
    ensures 1 + Groups(n - taken) == Groups(n)
  {
  }
}
