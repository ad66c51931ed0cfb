/** The bounded diagnostic sample of the subscription compiler. */
module Diagnostics {
  import opened Text
  import opened Reasons

  const MAX_SAMPLES := 200
  const MAX_PER_REASON := 5
  const MAX_RAW := 2048

  datatype Entry = Entry(source: string, line: nat, raw: string, reason: Reason)

  /** What is kept of an entry: its text is cut. */
  function Cut(e: Entry): Entry { e.(raw := Truncate(e.raw, MAX_RAW)) }

  ghost function Count(log: seq<Entry>, reason: Reason): nat {
    if log == [] then 0
    else Count(log[..|log| - 1], reason) + if log[|log| - 1].reason == reason then 1 else 0
  }

  /** The sample of a log: the first entries, at most five for one reason. */
  ghost function Sample(log: seq<Entry>): seq<Entry> {
    if log == [] then [] else
      var sample, last := Sample(log[..|log| - 1]), log[|log| - 1];
      if Count(sample, last.reason) < MAX_PER_REASON && |sample| < MAX_SAMPLES then sample + [last] else sample
  }

  function Get(counts: map<Reason, nat>, reason: Reason): nat {
    if reason in counts then counts[reason] else 0
  }

  /** The entries of each reason that occurs, counted. */
  ghost predicate Tallies(log: seq<Entry>, counts: map<Reason, nat>) {
    forall r :: (r in counts <==> Count(log, r) > 0) && Get(counts, r) == Count(log, r)
  }

  class Log {
    var samples: seq<Entry>
    var reasons: map<Reason, nat>
    var total: nat
    var sampled: map<Reason, nat>
    ghost var entries: seq<Entry>

    ghost predicate Valid()
      reads this
    {
      && total == |entries|
      && samples == Sample(entries)
      && Tallies(entries, reasons)
      && (forall r :: Get(sampled, r) == Count(samples, r))
    }

    constructor ()
      ensures Valid() && entries == []
    {
      samples, reasons, total, sampled, entries := [], map[], 0, map[], [];
    }

    /** `Diagnostics::add`: everything is counted, only a sample is kept. */
    method Add(entry: Entry)
      requires Valid()
      modifies this
      ensures Valid() && entries == old(entries) + [Cut(entry)]
    {
      var reason := entry.reason;
      entries := entries + [Cut(entry)];
      assert entries[..|entries| - 1] == old(entries);
      total := total + 1;
      reasons := reasons[reason := Get(reasons, reason) + 1];
      if Get(sampled, reason) >= MAX_PER_REASON || |samples| >= MAX_SAMPLES {
        return;
      }
      sampled := sampled[reason := Get(sampled, reason) + 1];
      samples := samples + [Cut(entry)];
      assert samples[..|samples| - 1] == old(samples);
    }
  }

  /** The sample is never longer than the log and respects both limits. */
  lemma {:induction false} SampleBounds(log: seq<Entry>, reason: Reason)
    ensures |Sample(log)| <= MAX_SAMPLES && |Sample(log)| <= |log|
    ensures Count(Sample(log), reason) <= MAX_PER_REASON
  {
    if log != [] {
      var front, last := log[..|log| - 1], log[|log| - 1];
      SampleBounds(front, reason);
      var sample := Sample(front);
      assert (sample + [last])[..|sample|] == sample;
    }
  }

  /** A sample as long as its log is the log. */
  lemma {:induction false} SampleIsPart(log: seq<Entry>)
    ensures |Sample(log)| <= |log|
    ensures |Sample(log)| == |log| ==> Sample(log) == log
  {
    if log != [] {
      SampleIsPart(log[..|log| - 1]);
      assert log == log[..|log| - 1] + [log[|log| - 1]];
    }
  }

  /** A log within both limits is kept whole. */
  lemma {:induction false} SampleWhole(log: seq<Entry>)
    requires |log| <= MAX_SAMPLES && forall r :: Count(log, r) <= MAX_PER_REASON
    ensures Sample(log) == log
  {
    if log != [] {
      var front, last := log[..|log| - 1], log[|log| - 1];
      assert forall r :: Count(front, r) <= Count(log, r);
      SampleWhole(front);
      assert Count(log, last.reason) == Count(front, last.reason) + 1;
      assert front + [last] == log;
    }
  }
}
