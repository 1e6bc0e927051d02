/** Greedy near-duplicate filtering of incoming logs (deduplicate_logs): a log
    is kept unless its content is more similar than the threshold to the
    content of a log already kept. */
module Ingestion {
  import opened Records
  import opened Seqs

  /** deduplicate_logs(logs, similarity_threshold=0.9). */
  const DefaultThreshold: real := 0.9

  /** util.pytorch_cos_sim of the embeddings of two contents: the first argument
      is the incoming log, the second a kept one. */
  type Similarity = (string, string) -> real

  function ContentOf(log: Payload): string {
    Get(log.content, "")
  }

  /** Some kept log is more similar than `threshold` to `x`. */
  predicate IsDuplicate(x: Payload, kept: seq<Payload>, sim: Similarity, threshold: real) {
    exists j :: 0 <= j < |kept| && sim(ContentOf(x), ContentOf(kept[j])) > threshold
  }

  /** The logs deduplicate_logs keeps, in input order. */
  function Greedy(s: seq<Payload>, sim: Similarity, threshold: real): seq<Payload> {
    if |s| == 0 then []
    else
      var kept := Greedy(s[..|s| - 1], sim, threshold);
      var x := s[|s| - 1];
      if IsDuplicate(x, kept, sim, threshold) then kept else kept + [x]
  }

  lemma GreedyStep(s: seq<Payload>, i: nat, sim: Similarity, threshold: real)
    requires i < |s|
    ensures var kept := Greedy(s[..i], sim, threshold);
            Greedy(s[..i + 1], sim, threshold)
              == if IsDuplicate(s[i], kept, sim, threshold) then kept else kept + [s[i]]
  {
    assert s[..i + 1][..i] == s[..i];
  }

  /** The output is an ordered subsequence of the input, so no longer than it. */
  lemma {:induction false} GreedySubsequence(s: seq<Payload>, sim: Similarity, threshold: real)
    ensures IsSubsequence(Greedy(s, sim, threshold), s)
    ensures |Greedy(s, sim, threshold)| <= |s|
  {
    if |s| > 0 {
      var s' := s[..|s| - 1];
      var x := s[|s| - 1];
      GreedySubsequence(s', sim, threshold);
      assert s == s' + [x];
      if IsDuplicate(x, Greedy(s', sim, threshold), sim, threshold) {
        SubsequenceSkip(Greedy(s', sim, threshold), s', x);
      } else {
        SubsequenceKeep(Greedy(s', sim, threshold), s', x);
      }
      SubsequenceMembers(Greedy(s, sim, threshold), s);
    }
  }

  /** The first log of a non-empty input is always kept, in first place. */
  lemma {:induction false} GreedyKeepsFirst(s: seq<Payload>, sim: Similarity, threshold: real)
    requires |s| > 0
    ensures |Greedy(s, sim, threshold)| > 0 && Greedy(s, sim, threshold)[0] == s[0]
  {
    if |s| > 1 {
      GreedyKeepsFirst(s[..|s| - 1], sim, threshold);
      assert s[..|s| - 1][0] == s[0];
    } else {
      assert s[..0] == [];
    }
  }

  /** No two kept logs are duplicates: a later kept log is at most `threshold`
      similar to every earlier one. */
  predicate PairwiseDistinct(kept: seq<Payload>, sim: Similarity, threshold: real) {
    forall i, j :: 0 <= i < j < |kept| ==> sim(ContentOf(kept[j]), ContentOf(kept[i])) <= threshold
  }

  lemma {:induction false} GreedyPairwise(s: seq<Payload>, sim: Similarity, threshold: real)
    ensures PairwiseDistinct(Greedy(s, sim, threshold), sim, threshold)
  {
    if |s| > 0 {
      GreedyPairwise(s[..|s| - 1], sim, threshold);
    }
  }

  /** The logs kept from a prefix are a prefix of the logs kept from the whole. */
  lemma {:induction false} GreedyPrefix(s: seq<Payload>, i: nat, sim: Similarity, threshold: real)
    requires i <= |s|
    ensures var kept := Greedy(s[..i], sim, threshold);
            |kept| <= |Greedy(s, sim, threshold)| && Greedy(s, sim, threshold)[..|kept|] == kept
    decreases |s| - i
  {
    if i == |s| {
      assert s[..i] == s;
    } else {
      GreedyPrefix(s, i + 1, sim, threshold);
      GreedyStep(s, i, sim, threshold);
      var kept, next := Greedy(s[..i], sim, threshold), Greedy(s[..i + 1], sim, threshold);
      var out := Greedy(s, sim, threshold);
      assert next[..|kept|] == kept;
      assert out[..|kept|] == next[..|kept|];
    }
  }

  /** A dropped log has an earlier kept log, in the output, that it is more than
      `threshold` similar to; a kept log has none. */
  lemma DroppedHasWitness(s: seq<Payload>, i: nat, sim: Similarity, threshold: real)
    requires i < |s|
    ensures var before := Greedy(s[..i], sim, threshold);
            var out := Greedy(s, sim, threshold);
            && |before| <= |out|
            && (|Greedy(s[..i + 1], sim, threshold)| == |before| <==>
                  exists j :: 0 <= j < |before| && sim(ContentOf(s[i]), ContentOf(out[j])) > threshold)
            && (|Greedy(s[..i + 1], sim, threshold)| == |before| + 1 ==>
                  |before| < |out| && out[|before|] == s[i])
  {
    var before := Greedy(s[..i], sim, threshold);
    var out := Greedy(s, sim, threshold);
    GreedyStep(s, i, sim, threshold);
    GreedyPrefix(s, i, sim, threshold);
    GreedyPrefix(s, i + 1, sim, threshold);
    assert forall j :: 0 <= j < |before| ==> out[j] == before[j];
  }

  /** The comparison is strict: a log exactly `threshold` similar to the kept
      one is kept. */
  lemma EqualSimilarityIsKept(a: Payload, b: Payload, sim: Similarity, threshold: real)
    requires sim(ContentOf(b), ContentOf(a)) == threshold
    ensures Greedy([a, b], sim, threshold) == [a, b]
  {
    assert [a, b][..1] == [a];
    assert [a][..0] == [];
    assert Greedy([a], sim, threshold) == [a];
    assert !IsDuplicate(b, [a], sim, threshold);
  }

  /** A list with no duplicate pair passes through unchanged. */
  lemma {:induction false} GreedyKeepsDistinct(t: seq<Payload>, sim: Similarity, threshold: real)
    requires PairwiseDistinct(t, sim, threshold)
    ensures Greedy(t, sim, threshold) == t
  {
    if |t| > 0 {
      var t' := t[..|t| - 1];
      assert PairwiseDistinct(t', sim, threshold);
      GreedyKeepsDistinct(t', sim, threshold);
      assert !IsDuplicate(t[|t| - 1], t', sim, threshold);
      assert t' + [t[|t| - 1]] == t;
    }
  }

  /** Deduplicating the output again returns it unchanged. */
  lemma GreedyIdempotent(s: seq<Payload>, sim: Similarity, threshold: real)
    ensures Greedy(Greedy(s, sim, threshold), sim, threshold) == Greedy(s, sim, threshold)
  {
    GreedyPairwise(s, sim, threshold);
    GreedyKeepsDistinct(Greedy(s, sim, threshold), sim, threshold);
  }

  /** Every log has content, so `log["content"]` does not raise. */
  predicate AllHaveContent(s: seq<Payload>) {
    forall i :: 0 <= i < |s| ==> s[i].content.Some?
  }

  /** The contents of the kept logs, the list the inner loop compares against. */
  function Contents(kept: seq<Payload>): (r: seq<string>)
    ensures |r| == |kept|
  {
    seq(|kept|, j requires 0 <= j < |kept| => ContentOf(kept[j]))
  }

  /** One step of deduplicate_logs' outer loop: comparing the next log with the
      kept contents decides whether the greedy selection keeps it. */
  lemma DeduplicateStep(logs: seq<Payload>, i: nat, sim: Similarity, threshold: real)
    requires i < |logs|
    ensures var kept := Greedy(logs[..i], sim, threshold);
            var dup := exists j :: 0 <= j < |kept| && sim(ContentOf(logs[i]), Contents(kept)[j]) > threshold;
            && Greedy(logs[..i + 1], sim, threshold) == (if dup then kept else kept + [logs[i]])
            && Contents(kept + [logs[i]]) == Contents(kept) + [ContentOf(logs[i])]
  {
    var kept := Greedy(logs[..i], sim, threshold);
    GreedyStep(logs, i, sim, threshold);
    if IsDuplicate(logs[i], kept, sim, threshold) {
      var j :| 0 <= j < |kept| && sim(ContentOf(logs[i]), ContentOf(kept[j])) > threshold;
      assert Contents(kept)[j] == ContentOf(kept[j]);
    }
    assert Contents(kept + [logs[i]]) == Contents(kept) + [ContentOf(logs[i])];
  }

  /** The inner loop of deduplicate_logs: some kept content is more than
      `threshold` similar to `content`. */
  method MatchesAny(content: string, seen: seq<string>, sim: Similarity, threshold: real)
    returns (isDuplicate: bool)
    ensures isDuplicate <==> exists j :: 0 <= j < |seen| && sim(content, seen[j]) > threshold
  {
    var k := 0;
    while k < |seen|
      invariant 0 <= k <= |seen|
      invariant forall j :: 0 <= j < k ==> sim(content, seen[j]) <= threshold
    {
      if sim(content, seen[k]) > threshold {
        return true;
      }
      k := k + 1;
    }
    return false;
  }

  /** The body of deduplicate_logs' outer loop for a log with content: the
      log is kept, and its content remembered, unless it matches a kept one. */
  method KeepIfNew(logs: seq<Payload>, i: nat, unique: seq<Payload>, seen: seq<string>,
                   sim: Similarity, threshold: real)
    returns (unique': seq<Payload>, seen': seq<string>)
    requires i < |logs| && logs[i].content.Some?
    requires unique == Greedy(logs[..i], sim, threshold) && seen == Contents(unique)
    ensures unique' == Greedy(logs[..i + 1], sim, threshold) && seen' == Contents(unique')
  {
    var content := logs[i].content.value;
    var isDuplicate := MatchesAny(content, seen, sim, threshold);
    DeduplicateStep(logs, i, sim, threshold);
    if isDuplicate {
      unique', seen' := unique, seen;
    } else {
      unique', seen' := unique + [logs[i]], seen + [content];
    }
  }

  /** deduplicate_logs; None where the Python raises (a log without content). */
  method DeduplicateLogs(logs: seq<Payload>, sim: Similarity, threshold: real)
    returns (r: Option<seq<Payload>>)
    ensures r.Some? <==> AllHaveContent(logs)
    ensures r.Some? ==> r.value == Greedy(logs, sim, threshold)
  {
    var unique: seq<Payload> := [];
    var seen: seq<string> := [];
    var i := 0;
    while i < |logs|
      invariant 0 <= i <= |logs|
      invariant AllHaveContent(logs[..i])
      invariant unique == Greedy(logs[..i], sim, threshold)
      invariant seen == Contents(unique)
    {
      if logs[i].content.None? {
        return None;
      }
      unique, seen := KeepIfNew(logs, i, unique, seen, sim, threshold);
      assert logs[..i + 1] == logs[..i] + [logs[i]];
      i := i + 1;
    }
    assert logs[..i] == logs;
    r := Some(unique);
  }
}
