/** The retrieval combiner of memory/retrieval.py: the semantic fetcher's
    summary-first reordering, the CRAG-style fused relevance score, and the
    combiner that deduplicates the three candidate lists by log_id, scores,
    sorts and splits them at the relevance threshold. */
module Retrieval {
  import opened Records
  import opened Text
  import opened Seqs

  const RelevanceThreshold: real := 0.4
  /** get_combined_logs' default top_k. */
  const CombinedTopK: nat := 12
  /** get_semantic_logs' default top_k, the one get_combined_logs uses. */
  const SemanticTopK: nat := 5

  // ---------------------------------------------------------------------
  // Semantic fetcher: summaries first
  // ---------------------------------------------------------------------

  /** The payloads of the vector-search hits, each tagged with source "Qdrant". */
  function TagQdrant(hits: seq<Payload>): (r: seq<Payload>)
    ensures |r| == |hits|
    ensures forall i :: 0 <= i < |r| ==> r[i].source == Some("Qdrant")
    ensures forall i :: 0 <= i < |r| ==> r[i].(source := hits[i].source) == hits[i]
  {
    seq(|hits|, i requires 0 <= i < |hits| => hits[i].(source := Some("Qdrant")))
  }

  /** The summary payloads of `s`, in order. */
  function Summaries(s: seq<Payload>): (r: seq<Payload>)
    ensures forall i :: 0 <= i < |r| ==> IsSummary(r[i])
    ensures forall x :: x in r ==> x in s
  {
    if |s| == 0 then []
    else Summaries(s[..|s| - 1]) + (if IsSummary(s[|s| - 1]) then [s[|s| - 1]] else [])
  }

  /** The non-summary payloads of `s`, in order. */
  function Others(s: seq<Payload>): (r: seq<Payload>)
    ensures forall i :: 0 <= i < |r| ==> !IsSummary(r[i])
    ensures forall x :: x in r ==> x in s
  {
    if |s| == 0 then []
    else Others(s[..|s| - 1]) + (if IsSummary(s[|s| - 1]) then [] else [s[|s| - 1]])
  }

  /** get_semantic_logs after the search: summaries ahead of the other logs, cut to top_k. */
  function SemanticLogs(hits: seq<Payload>, topK: nat): (r: seq<Payload>)
    ensures |r| <= topK && |r| <= |hits|
    ensures forall i, j :: 0 <= i < j < |r| && IsSummary(r[j]) ==> IsSummary(r[i])
    ensures forall i :: 0 <= i < |r| ==> r[i].source == Some("Qdrant")
  {
    var logs := TagQdrant(hits);
    SplitLength(logs);
    var all := Summaries(logs) + Others(logs);
    assert forall i :: 0 <= i < |all| ==> all[i] in logs;
    if topK < |all| then all[..topK] else all
  }

  lemma {:induction false} SplitLength(s: seq<Payload>)
    ensures |Summaries(s)| + |Others(s)| == |s|
    decreases |s|
  {
    if |s| > 0 {
      SplitLength(s[..|s| - 1]);
    }
  }

  /** The two kinds together hold the same elements as the sequence. */
  lemma {:induction false} SplitByKind(s: seq<Payload>)
    ensures multiset(Summaries(s)) + multiset(Others(s)) == multiset(s)
    decreases |s|
  {
    if |s| > 0 {
      var s', x := s[..|s| - 1], s[|s| - 1];
      SplitByKind(s');
      assert s == s' + [x];
      assert multiset(s) == multiset(s') + multiset{x};
      if IsSummary(x) {
        assert Summaries(s) == Summaries(s') + [x] && Others(s) == Others(s');
        assert multiset(Summaries(s)) == multiset(Summaries(s')) + multiset{x};
      } else {
        assert Summaries(s) == Summaries(s') && Others(s) == Others(s') + [x];
        assert multiset(Others(s)) == multiset(Others(s')) + multiset{x};
      }
    }
  }

  /** Each kind keeps the order of the sequence. */
  lemma {:induction false} KindsKeepOrder(s: seq<Payload>)
    ensures IsSubsequence(Summaries(s), s) && IsSubsequence(Others(s), s)
    decreases |s|
  {
    if |s| > 0 {
      var s', x := s[..|s| - 1], s[|s| - 1];
      KindsKeepOrder(s');
      assert s == s' + [x];
      if IsSummary(x) {
        assert Summaries(s) == Summaries(s') + [x] && Others(s) == Others(s');
        SubsequenceKeep(Summaries(s'), s', x);
        SubsequenceSkip(Others(s'), s', x);
      } else {
        assert Summaries(s) == Summaries(s') && Others(s) == Others(s') + [x];
        SubsequenceSkip(Summaries(s'), s', x);
        SubsequenceKeep(Others(s'), s', x);
      }
    }
  }

  /** The fetcher only reorders: within each kind the search order is kept, and
      when the search returned at most top_k hits nothing is lost. */
  lemma SemanticLogsReorder(hits: seq<Payload>, topK: nat)
    ensures var logs := TagQdrant(hits);
            var r := SemanticLogs(hits, topK);
            && r == (Summaries(logs) + Others(logs))[..|r|]
            && IsSubsequence(Summaries(logs), logs)
            && IsSubsequence(Others(logs), logs)
            && (|hits| <= topK ==> multiset(r) == multiset(logs))
  {
    SplitLength(TagQdrant(hits));
    SplitByKind(TagQdrant(hits));
    KindsKeepOrder(TagQdrant(hits));
  }

  // ---------------------------------------------------------------------
  // Score fusion
  // ---------------------------------------------------------------------

  /** What compute_crag_score takes from outside: `similarity` is
      1 - cosine(query vector, embedding of the content), `decay` is
      exp(-age / 30) of an age in whole days, and `round` is round(x, 4). */
  datatype Scoring = Scoring(
    similarity: string -> real,
    decay: int -> real,
    round: real -> real,
    clock: Clock)

  const NeutralRecency: real := 0.5
  const SpeakerWeights: map<string, real> := map["carol" := 1.0, "eve" := 0.7, "bob" := 0.5]
  const DefaultSpeakerWeight: real := 0.2
  /** The reinforcement step; a ledger row holds a count of steps. */
  const BoostStep: real := 0.05

  /** exp(-age/30) of the age in whole days, or 0.5 when the timestamp is absent or does not parse. */
  function Recency(log: Payload, ctx: Scoring): (r: real)
    ensures ParsedDate(log, ctx.clock).None? ==> r == NeutralRecency
    ensures ParsedDate(log, ctx.clock).Some? ==>
              r == ctx.decay(ctx.clock.today - ParsedDate(log, ctx.clock).value.ordinal)
  {
    match ParsedDate(log, ctx.clock)
    case None => NeutralRecency
    case Some(d) => ctx.decay(ctx.clock.today - d.ordinal)
  }

  /** `semantic[0]["project"]`, which anchors the relational fetch, does not
      raise: there is no semantic result, or the first one has a project. */
  predicate AnchorReadable(semantic: seq<Payload>) {
    |semantic| == 0 || semantic[0].project.Some?
  }

  /** The project of the first semantic result, None when there is none. */
  function QueryProject(semantic: seq<Payload>): (p: Option<string>)
    ensures |semantic| == 0 ==> p.None?
  {
    if |semantic| == 0 then None else semantic[0].project
  }

  /** 1.0 when `log.get("project") == query_project`, where an absent project is None. */
  function ProjectMatch(log: Payload, queryProject: Option<string>): (r: real)
    ensures r == 1.0 <==> log.project == queryProject
    ensures r == 0.0 <==> log.project != queryProject
  {
    if log.project == queryProject then 1.0 else 0.0
  }

  /** The priority of the lower-cased speaker, 0.2 for anyone not in the table. */
  function SpeakerScore(log: Payload): (r: real)
    ensures r == 1.0 <==> ToLower(Get(log.user, "")) == "carol"
    ensures r == 0.7 <==> ToLower(Get(log.user, "")) == "eve"
    ensures r == 0.5 <==> ToLower(Get(log.user, "")) == "bob"
    ensures r == DefaultSpeakerWeight <==> ToLower(Get(log.user, "")) !in SpeakerWeights
  {
    var speaker := ToLower(Get(log.user, ""));
    if speaker in SpeakerWeights then SpeakerWeights[speaker] else DefaultSpeakerWeight
  }

  /** The retention boost read for a log: `table` is the memory_retention_boosts
      table of the database queried, None when that database has no such table
      (the query raises and the boost falls back to 0.0). */
  function Boost(table: Option<map<string, nat>>, log: Payload): (r: real)
    ensures r >= 0.0
    ensures r > 0.0 <==> table.Some? && log.logId.Some? && log.logId.value in table.value
                         && table.value[log.logId.value] > 0
  {
    if table.None? || log.logId.None? || log.logId.value !in table.value then 0.0
    else BoostStep * (table.value[log.logId.value] as real)
  }

  /** compute_crag_score: 0.4 semantic + 0.3 recency + 0.2 project + 0.1 speaker + boost. */
  function CragScore(log: Payload, ctx: Scoring, queryProject: Option<string>,
                     table: Option<map<string, nat>>): real
  {
    0.4 * ctx.similarity(Get(log.content, ""))
    + 0.3 * Recency(log, ctx)
    + 0.2 * ProjectMatch(log, queryProject)
    + 0.1 * SpeakerScore(log)
    + Boost(table, log)
  }

  /** The ranges of the sub-scores as the source computes them: 1 - cosine
      distance lies in [-1, 1], and exp(-age / 30) is positive, and at most 1
      for an age that is not negative. */
  ghost predicate SubScoreRanges(log: Payload, ctx: Scoring) {
    && -1.0 <= ctx.similarity(Get(log.content, "")) <= 1.0
    && (forall age :: 0.0 <= ctx.decay(age))
    && (forall age :: age >= 0 ==> ctx.decay(age) <= 1.0)
  }

  /** The timestamp does not lie after the clock's today. */
  predicate NotFuture(log: Payload, ctx: Scoring) {
    ParsedDate(log, ctx.clock).None? || ParsedDate(log, ctx.clock).value.ordinal <= ctx.clock.today
  }

  /** Without the boost the score lies in [-0.38, 1.0], and the boost is added
      outside; a timestamp after today raises the recency above 1, so only the
      lower bound holds then. */
  lemma CragScoreBounds(log: Payload, ctx: Scoring, queryProject: Option<string>,
                        table: Option<map<string, nat>>)
    requires SubScoreRanges(log, ctx)
    ensures var b := Boost(table, log);
            -0.38 + b <= CragScore(log, ctx, queryProject, table)
    ensures var b := Boost(table, log);
            NotFuture(log, ctx) ==> CragScore(log, ctx, queryProject, table) <= 1.0 + b
  {
    var s := SpeakerScore(log);
    assert 0.2 <= s <= 1.0;
    var rec := Recency(log, ctx);
    assert 0.0 <= rec;
    if NotFuture(log, ctx) {
      assert rec <= 1.0;
    }
  }

  /** A ledger row of k steps adds exactly 0.05 * k to the score of the log it names. */
  lemma BoostIsAdditive(log: Payload, ctx: Scoring, queryProject: Option<string>,
                        ledger: map<string, nat>)
    requires log.logId.Some?
    ensures var id := log.logId.value;
            var k := if id in ledger then ledger[id] else 0;
            CragScore(log, ctx, queryProject, Some(ledger))
              == CragScore(log, ctx, queryProject, Some(map[])) + BoostStep * (k as real)
  {
  }

  /** A record identical to the query, dated today, in the query's project,
      spoken by Carol and never reinforced scores exactly 1.0, the top of the
      range without a boost. */
  lemma PerfectMatchScoresOne(log: Payload, ctx: Scoring, ledger: map<string, nat>)
    requires ctx.similarity(Get(log.content, "")) == 1.0
    requires ParsedDate(log, ctx.clock).Some? && ParsedDate(log, ctx.clock).value.ordinal == ctx.clock.today
    requires ctx.decay(0) == 1.0
    requires log.user == Some("Carol")
    requires log.logId.Some? && log.logId.value !in ledger
    ensures CragScore(log, ctx, log.project, Some(ledger)) == 1.0
  {
    assert ToLower("Carol") == "carol";
  }

  /** With no semantic result there is no query project, and then every log
      WITHOUT a project matches: None == None in the source's comparison. */
  lemma NoAnchorMatchesProjectless(log: Payload)
    requires log.project.None?
    ensures ProjectMatch(log, QueryProject([])) == 1.0
  {
  }

  // ---------------------------------------------------------------------
  // Combiner
  // ---------------------------------------------------------------------

  /** A candidate together with the rounded score written into its dictionary. */
  datatype Scored = Scored(log: Payload, score: real)

  /** The log_ids (truthy ones) of a list of payloads. */
  function IdsOf(s: seq<Payload>): set<string> {
    set i | 0 <= i < |s| && HasId(s[i]) :: s[i].logId.value
  }

  /** s[i] is the first payload in `s` carrying its (truthy) log_id. */
  predicate IsFirstOccurrence(s: seq<Payload>, i: int)
    requires 0 <= i < |s|
  {
    HasId(s[i]) && forall j :: 0 <= j < i ==> s[j].logId != s[i].logId
  }

  /** The deduplication of the concatenated candidates: a payload is kept when it
      has a truthy log_id not seen before. */
  function FirstById(s: seq<Payload>): (r: seq<Payload>)
    ensures forall i :: 0 <= i < |r| ==> HasId(r[i])
  {
    if |s| == 0 then []
    else
      var d := FirstById(s[..|s| - 1]);
      var x := s[|s| - 1];
      if HasId(x) && x.logId.value !in IdsOf(d) then d + [x] else d
  }

  lemma IdsOfAppend(d: seq<Payload>, x: Payload)
    ensures IdsOf(d + [x]) == IdsOf(d) + (if HasId(x) then {x.logId.value} else {})
  {
    var e := d + [x];
    forall id | id in IdsOf(e) ensures id in IdsOf(d) + (if HasId(x) then {x.logId.value} else {}) {
      var i :| 0 <= i < |e| && HasId(e[i]) && e[i].logId.value == id;
      if i < |d| { assert e[i] == d[i]; }
    }
    forall id | id in IdsOf(d) ensures id in IdsOf(e) {
      var i :| 0 <= i < |d| && HasId(d[i]) && d[i].logId.value == id;
      assert e[i] == d[i];
    }
    if HasId(x) {
      assert e[|d|] == x;
    }
  }

  /** One step of the deduplication loop. */
  lemma FirstByIdStep(s: seq<Payload>, i: nat)
    requires i < |s|
    ensures var d := FirstById(s[..i]);
            FirstById(s[..i + 1])
              == if HasId(s[i]) && s[i].logId.value !in IdsOf(d) then d + [s[i]] else d
  {
    assert s[..i + 1][..i] == s[..i];
  }

  /** The deduplicated list is an ordered subsequence carrying every truthy log_id. */
  lemma {:induction false} FirstByIdSubsequence(s: seq<Payload>)
    ensures IsSubsequence(FirstById(s), s)
    ensures IdsOf(FirstById(s)) == IdsOf(s)
    decreases |s|
  {
    if |s| > 0 {
      var s', x := s[..|s| - 1], s[|s| - 1];
      var d := FirstById(s');
      FirstByIdSubsequence(s');
      assert s == s' + [x];
      IdsOfAppend(s', x);
      IdsOfAppend(d, x);
      if HasId(x) && x.logId.value !in IdsOf(d) {
        SubsequenceKeep(d, s', x);
      } else {
        SubsequenceSkip(d, s', x);
      }
    }
  }

  /** Pairwise distinct log_ids. */
  predicate UniqueIds(s: seq<Payload>) {
    forall i, j :: 0 <= i < j < |s| ==> s[i].logId != s[j].logId
  }

  /** No log_id is kept twice. */
  lemma {:induction false} FirstByIdDistinct(s: seq<Payload>)
    ensures UniqueIds(FirstById(s))
    decreases |s|
  {
    if |s| > 0 {
      var s', x := s[..|s| - 1], s[|s| - 1];
      var d := FirstById(s');
      FirstByIdDistinct(s');
      if HasId(x) && x.logId.value !in IdsOf(d) {
        var r := d + [x];
        assert FirstById(s) == r;
        forall i, j | 0 <= i < j < |r| ensures r[i].logId != r[j].logId {
          if j == |d| {
            assert r[i] == d[i] && HasId(d[i]) && r[j] == x;
            assert d[i].logId.value in IdsOf(d);
            assert d[i].logId.value != x.logId.value;
          } else {
            assert r[i] == d[i] && r[j] == d[j];
            assert d[i].logId != d[j].logId;
          }
        }
      } else {
        assert FirstById(s) == d;
      }
    }
  }

  /** What is kept is exactly the first occurrence of each truthy log_id, in
      semantic, timeline, relational order. */
  lemma {:induction false} FirstByIdKeepsFirst(s: seq<Payload>)
    ensures forall x :: x in FirstById(s) <==>
              exists i :: 0 <= i < |s| && s[i] == x && IsFirstOccurrence(s, i)
    decreases |s|
  {
    if |s| > 0 {
      var s', x := s[..|s| - 1], s[|s| - 1];
      var d := FirstById(s');
      FirstByIdKeepsFirst(s');
      FirstByIdSubsequence(s');
      var r := FirstById(s);
      forall y | y in r ensures exists i :: 0 <= i < |s| && s[i] == y && IsFirstOccurrence(s, i) {
        if y in d {
          var i :| 0 <= i < |s'| && s'[i] == y && IsFirstOccurrence(s', i);
          assert s[i] == y && IsFirstOccurrence(s, i);
        } else {
          assert y == x && HasId(x) && x.logId.value !in IdsOf(d);
          forall j | 0 <= j < |s| - 1 ensures s[j].logId != x.logId {
            assert s'[j] == s[j];
          }
          assert IsFirstOccurrence(s, |s| - 1);
        }
      }
      forall y | exists i :: 0 <= i < |s| && s[i] == y && IsFirstOccurrence(s, i) ensures y in r {
        var i :| 0 <= i < |s| && s[i] == y && IsFirstOccurrence(s, i);
        if i < |s'| {
          assert s'[i] == y && IsFirstOccurrence(s', i);
          assert y in d;
        }
      }
    }
  }

  /** Every unique candidate with its rounded fused score. */
  function ScoreAll(s: seq<Payload>, ctx: Scoring, queryProject: Option<string>,
                    table: Option<map<string, nat>>): (r: seq<Scored>)
    ensures |r| == |s|
    ensures forall i :: 0 <= i < |r| ==> r[i].log == s[i]
  {
    seq(|s|, i requires 0 <= i < |s| =>
      Scored(s[i], ctx.round(CragScore(s[i], ctx, queryProject, table))))
  }

  /** Scoring one more deduplicated candidate appends its entry. */
  lemma ScoreAllAppend(d: seq<Payload>, x: Payload, ctx: Scoring, queryProject: Option<string>,
                       table: Option<map<string, nat>>)
    ensures ScoreAll(d + [x], ctx, queryProject, table)
            == ScoreAll(d, ctx, queryProject, table)
               + [Scored(x, ctx.round(CragScore(x, ctx, queryProject, table)))]
  {
  }

  /** Stable descending insertion: `x` goes before the first entry it does not score below. */
  function Insert(x: Scored, s: seq<Scored>): (r: seq<Scored>)
    ensures multiset(r) == multiset(s) + multiset{x}
  {
    if |s| == 0 || x.score >= s[0].score then [x] + s
    else
      assert s == [s[0]] + s[1..];
      [s[0]] + Insert(x, s[1..])
  }

  /** `combined.sort(key=score, reverse=True)`: a stable sort, non-increasing by score. */
  function SortDesc(s: seq<Scored>): (r: seq<Scored>)
    ensures multiset(r) == multiset(s)
  {
    if |s| == 0 then []
    else
      assert s == [s[0]] + s[1..];
      Insert(s[0], SortDesc(s[1..]))
  }

  predicate SortedDesc(s: seq<Scored>) {
    forall i, j :: 0 <= i < j < |s| ==> s[i].score >= s[j].score
  }

  /** The entries of `s` whose score is exactly v, in order. */
  function WithScore(s: seq<Scored>, v: real): seq<Scored> {
    if |s| == 0 then []
    else (if s[0].score == v then [s[0]] else []) + WithScore(s[1..], v)
  }

  /** Insertion keeps a sorted list sorted; its head is the new entry or the old head. */
  lemma {:induction false} InsertKeepsSorted(x: Scored, s: seq<Scored>)
    requires SortedDesc(s)
    ensures SortedDesc(Insert(x, s))
    ensures |Insert(x, s)| == |s| + 1
    ensures Insert(x, s)[0] == x || (|s| > 0 && Insert(x, s)[0] == s[0])
    decreases |s|
  {
    var r := Insert(x, s);
    if |s| == 0 || x.score >= s[0].score {
      assert r == [x] + s;
    } else {
      InsertKeepsSorted(x, s[1..]);
      var t := Insert(x, s[1..]);
      assert r == [s[0]] + t;
      assert t[0].score <= s[0].score;
      forall i, j | 0 <= i < j < |r| ensures r[i].score >= r[j].score {
        if i == 0 {
          assert r[j] == t[j - 1] && t[0].score >= t[j - 1].score;
        } else {
          assert r[i] == t[i - 1] && r[j] == t[j - 1];
        }
      }
    }
  }

  /** Insertion puts the new entry first among the entries of its score and
      leaves the entries of every other score as they were. */
  lemma {:induction false} InsertStable(x: Scored, s: seq<Scored>)
    requires SortedDesc(s)
    ensures WithScore(Insert(x, s), x.score) == [x] + WithScore(s, x.score)
    ensures forall v :: v != x.score ==> WithScore(Insert(x, s), v) == WithScore(s, v)
    decreases |s|
  {
    var r := Insert(x, s);
    if |s| == 0 || x.score >= s[0].score {
      assert r == [x] + s && r[1..] == s;
    } else {
      InsertStable(x, s[1..]);
      var t := Insert(x, s[1..]);
      assert r == [s[0]] + t && r[1..] == t;
      assert WithScore(r, x.score) == WithScore(t, x.score);
      assert WithScore(s, x.score) == WithScore(s[1..], x.score);
      forall v | v != x.score ensures WithScore(r, v) == WithScore(s, v) {
        assert WithScore(r, v) == (if s[0].score == v then [s[0]] else []) + WithScore(t, v);
      }
    }
  }

  /** The sort is a permutation, sorted non-increasing, and stable: for every score
      value the entries with that score keep their order. */
  lemma {:induction false} SortDescCorrect(s: seq<Scored>)
    ensures SortedDesc(SortDesc(s))
    ensures multiset(SortDesc(s)) == multiset(s)
    ensures forall v :: WithScore(SortDesc(s), v) == WithScore(s, v)
    decreases |s|
  {
    if |s| > 0 {
      SortDescCorrect(s[1..]);
      InsertKeepsSorted(s[0], SortDesc(s[1..]));
      InsertStable(s[0], SortDesc(s[1..]));
    }
  }

  /** The entries scoring at least `th`, in order. */
  function AtLeast(s: seq<Scored>, th: real): (r: seq<Scored>)
    ensures forall i :: 0 <= i < |r| ==> r[i].score >= th
    ensures |r| <= |s|
  {
    if |s| == 0 then []
    else (if s[0].score >= th then [s[0]] else []) + AtLeast(s[1..], th)
  }

  /** The entries scoring below `th`, in order. */
  function Below(s: seq<Scored>, th: real): (r: seq<Scored>)
    ensures forall i :: 0 <= i < |r| ==> r[i].score < th
  {
    if |s| == 0 then []
    else (if s[0].score < th then [s[0]] else []) + Below(s[1..], th)
  }

  /** A Python slice `s[:k]` with k >= 0. */
  function Take(s: seq<Scored>, k: nat): (r: seq<Scored>)
    ensures |r| == if k < |s| then k else |s|
    ensures r == s[..|r|]
  {
    if k < |s| then s[..k] else s
  }

  /** On a list sorted non-increasing, the above-threshold entries are exactly a
      prefix and the discarded entries exactly the rest. */
  lemma {:induction false} ThresholdSplitsSorted(s: seq<Scored>, th: real)
    requires SortedDesc(s)
    ensures s == AtLeast(s, th) + Below(s, th)
    decreases |s|
  {
    if |s| > 0 {
      ThresholdSplitsSorted(s[1..], th);
      if s[0].score < th {
        assert AtLeast(s[1..], th) == [];
      }
    }
  }

  predicate DistinctIds(s: seq<Scored>) {
    forall i, j :: 0 <= i < j < |s| ==> s[i].log.logId != s[j].log.logId
  }

  lemma {:induction false} InsertDistinct(x: Scored, t: seq<Scored>)
    requires DistinctIds(t)
    requires forall k :: 0 <= k < |t| ==> t[k].log.logId != x.log.logId
    ensures DistinctIds(Insert(x, t))
    decreases |t|
  {
    var r := Insert(x, t);
    if |t| == 0 || x.score >= t[0].score {
      assert r == [x] + t;
      forall i, j | 0 <= i < j < |r| ensures r[i].log.logId != r[j].log.logId {
        assert r[j] == t[j - 1];
        if i > 0 { assert r[i] == t[i - 1]; }
      }
    } else {
      var u := Insert(x, t[1..]);
      InsertDistinct(x, t[1..]);
      assert r == [t[0]] + u;
      forall i, j | 0 <= i < j < |r| ensures r[i].log.logId != r[j].log.logId {
        assert r[j] == u[j - 1];
        if i == 0 {
          assert r[j] in multiset(u);
          if r[j] != x {
            assert r[j] in t[1..];
            var k :| 0 <= k < |t[1..]| && t[1..][k] == r[j];
            assert t[k + 1] == r[j];
          }
        } else {
          assert r[i] == u[i - 1];
        }
      }
    }
  }

  lemma {:induction false} SortKeepsDistinctIds(s: seq<Scored>)
    requires DistinctIds(s)
    ensures DistinctIds(SortDesc(s))
    decreases |s|
  {
    if |s| > 0 {
      var t := SortDesc(s[1..]);
      SortKeepsDistinctIds(s[1..]);
      forall k | 0 <= k < |t| ensures t[k].log.logId != s[0].log.logId {
        assert t[k] in multiset(s[1..]);
        var m :| 0 <= m < |s[1..]| && s[1..][m] == t[k];
        assert s[m + 1] == t[k];
      }
      InsertDistinct(s[0], t);
    }
  }

  /** The unique candidates, scored and sorted. */
  function Ranked(candidates: seq<Payload>, ctx: Scoring, queryProject: Option<string>,
                  table: Option<map<string, nat>>): seq<Scored>
  {
    SortDesc(ScoreAll(FirstById(candidates), ctx, queryProject, table))
  }

  /** The ranked list is sorted, carries each log_id once, and holds exactly the
      deduplicated candidates; ties keep their concatenation order. */
  lemma RankedProperties(candidates: seq<Payload>, ctx: Scoring, queryProject: Option<string>,
                         table: Option<map<string, nat>>)
    ensures var ranked := Ranked(candidates, ctx, queryProject, table);
            var scored := ScoreAll(FirstById(candidates), ctx, queryProject, table);
            && SortedDesc(ranked)
            && DistinctIds(ranked)
            && multiset(ranked) == multiset(scored)
            && (forall v :: WithScore(ranked, v) == WithScore(scored, v))
  {
    var scored := ScoreAll(FirstById(candidates), ctx, queryProject, table);
    FirstByIdDistinct(candidates);
    assert DistinctIds(scored);
    SortDescCorrect(scored);
    SortKeepsDistinctIds(scored);
  }

  /** Cutting a gap out of a sorted list with distinct ids keeps both properties. */
  lemma CutKeepsOrder(s: seq<Scored>, n: nat, m: nat)
    requires SortedDesc(s) && DistinctIds(s) && n <= m <= |s|
    ensures SortedDesc(s[..n] + s[m..]) && DistinctIds(s[..n] + s[m..])
  {
    var kept := s[..n] + s[m..];
    forall i, j | 0 <= i < j < |kept|
      ensures kept[i].score >= kept[j].score && kept[i].log.logId != kept[j].log.logId
    {
      var i' := if i < n then i else i - n + m;
      var j' := if j < n then j else j - n + m;
      assert kept[i] == s[i'] && kept[j] == s[j'];
    }
  }

  /** The threshold split of a ranked list: `retained` is the first top_k of the
      above-threshold prefix and `discarded` the whole below-threshold tail, so
      together they are the ranked list with the overflow cut out. */
  lemma SplitAtThreshold(ranked: seq<Scored>, topK: nat)
    requires SortedDesc(ranked)
    ensures var above := AtLeast(ranked, RelevanceThreshold);
            var retained := Take(above, topK);
            && ranked == above + Below(ranked, RelevanceThreshold)
            && retained == ranked[..|retained|]
            && |retained| == (if topK < |above| then topK else |above|)
            && Below(ranked, RelevanceThreshold) == ranked[|above|..]
  {
    ThresholdSplitsSorted(ranked, RelevanceThreshold);
    var above := AtLeast(ranked, RelevanceThreshold);
    assert above == ranked[..|above|];
  }

  /** Above-threshold entries past top_k land in neither list (the retained list
      holds the first top_k of them, or all when there are fewer), and every
      retained entry scores at least as high as any ranked entry that was not
      retained. */
  lemma OverflowDropped(ranked: seq<Scored>, topK: nat)
    requires SortedDesc(ranked) && DistinctIds(ranked)
    ensures var above := AtLeast(ranked, RelevanceThreshold);
            var retained := Take(above, topK);
            var discarded := Below(ranked, RelevanceThreshold);
            && (forall k :: topK <= k < |above| ==> above[k] !in retained && above[k] !in discarded)
            && (forall i, x :: 0 <= i < |retained| && x in ranked && x !in retained ==>
                  retained[i].score >= x.score)
  {
    SplitAtThreshold(ranked, topK);
    var above := AtLeast(ranked, RelevanceThreshold);
    var retained := Take(above, topK);
    var n := |retained|;
    forall k | n <= k < |above| ensures above[k] !in retained {
      assert above[k] == ranked[k];
    }
    forall i, x | 0 <= i < n && x in ranked && x !in retained ensures retained[i].score >= x.score {
      var m :| 0 <= m < |ranked| && ranked[m] == x;
      assert retained[i] == ranked[i];
    }
  }

  /** What the combiner returns for a candidate list: the retained and discarded
      lists meet the threshold, the cap, the order and the id uniqueness. */
  lemma CombinedOutcome(candidates: seq<Payload>, ctx: Scoring, queryProject: Option<string>,
                        table: Option<map<string, nat>>, topK: nat)
    ensures var ranked := Ranked(candidates, ctx, queryProject, table);
            var retained := Take(AtLeast(ranked, RelevanceThreshold), topK);
            var discarded := Below(ranked, RelevanceThreshold);
            && SortedDesc(retained + discarded)
            && DistinctIds(retained + discarded)
  {
    var ranked := Ranked(candidates, ctx, queryProject, table);
    RankedProperties(candidates, ctx, queryProject, table);
    SplitAtThreshold(ranked, topK);
    CutKeepsOrder(ranked, |Take(AtLeast(ranked, RelevanceThreshold), topK)|, |AtLeast(ranked, RelevanceThreshold)|);
  }

  /** One step of the loop of get_combined_logs: the scored, deduplicated
      prefix grows by the next payload exactly when its log_id is new. */
  lemma ScoreUniqueStep(all: seq<Payload>, i: nat, ctx: Scoring, queryProject: Option<string>,
                        table: Option<map<string, nat>>)
    requires i < |all|
    ensures var d := FirstById(all[..i]);
            var x := all[i];
            if HasId(x) && x.logId.value !in IdsOf(d) then
              && ScoreAll(FirstById(all[..i + 1]), ctx, queryProject, table)
                 == ScoreAll(d, ctx, queryProject, table)
                    + [Scored(x, ctx.round(CragScore(x, ctx, queryProject, table)))]
              && IdsOf(FirstById(all[..i + 1])) == IdsOf(d) + {x.logId.value}
            else
              FirstById(all[..i + 1]) == d
  {
    var d := FirstById(all[..i]);
    FirstByIdStep(all, i);
    IdsOfAppend(d, all[i]);
    ScoreAllAppend(d, all[i], ctx, queryProject, table);
  }

  /** The loop of get_combined_logs: each candidate with a truthy, unseen
      log_id is scored and appended, in candidate order. */
  method ScoreUnique(all: seq<Payload>, ctx: Scoring, queryProject: Option<string>,
                     table: Option<map<string, nat>>)
    returns (combined: seq<Scored>)
    ensures combined == ScoreAll(FirstById(all), ctx, queryProject, table)
  {
    var seen: set<string> := {};
    combined := [];
    var i := 0;
    while i < |all|
      invariant 0 <= i <= |all|
      invariant combined == ScoreAll(FirstById(all[..i]), ctx, queryProject, table)
      invariant seen == IdsOf(FirstById(all[..i]))
    {
      var log := all[i];
      ScoreUniqueStep(all, i, ctx, queryProject, table);
      if log.logId.Some? && log.logId.value != "" && log.logId.value !in seen {
        var score := CragScore(log, ctx, queryProject, table);
        combined := combined + [Scored(log, ctx.round(score))];
        seen := seen + {log.logId.value};
      }
      i := i + 1;
    }
    assert all[..i] == all;
  }

  /** get_combined_logs after the three fetches: `hits` are the vector-search
      results (already without archived points), `timeline` and `related` the
      other two lists. `table` is the memory_retention_boosts table as the
      database compute_crag_score queries shows it, None when that database
      has no such table; as written the query goes to the timeline database,
      so `table` is None (see BoostWiring). */
  method CombineLogs(hits: seq<Payload>, timeline: seq<Payload>, related: seq<Payload>,
                     ctx: Scoring, table: Option<map<string, nat>>, topK: nat)
    returns (ok: bool, retained: seq<Scored>, discarded: seq<Scored>)
    ensures ok <==> AnchorReadable(SemanticLogs(hits, SemanticTopK))
    ensures !ok ==> retained == [] && discarded == []
    ensures ok ==>
              var semantic := SemanticLogs(hits, SemanticTopK);
              var ranked := Ranked(semantic + timeline + related, ctx, QueryProject(semantic), table);
              && retained == Take(AtLeast(ranked, RelevanceThreshold), topK)
              && discarded == Below(ranked, RelevanceThreshold)
    ensures |retained| <= topK
    ensures forall i :: 0 <= i < |retained| ==> retained[i].score >= RelevanceThreshold
    ensures forall i :: 0 <= i < |discarded| ==> discarded[i].score < RelevanceThreshold
    ensures SortedDesc(retained + discarded)
    ensures DistinctIds(retained + discarded)
  {
    var semantic := SemanticLogs(hits, SemanticTopK);
    if !AnchorReadable(semantic) {
      return false, [], [];
    }
    ok := true;
    var all := semantic + timeline + related;
    var queryProject := QueryProject(semantic);
    var combined := ScoreUnique(all, ctx, queryProject, table);
    combined := SortDesc(combined);
    retained := Take(AtLeast(combined, RelevanceThreshold), topK);
    discarded := Below(combined, RelevanceThreshold);
    CombinedOutcome(all, ctx, queryProject, table, topK);
  }
}
