/** Where the retention boosts are written and where they are read. The
    summarizer writes them into the memory_retention_boosts table of
    ../data/retention_boosts.duckdb (memory/summarizer.py:19-28, 103-107); the
    score fusion queries that table through its connection to
    ../data/timeline_logs.duckdb (memory/retrieval.py:18, 113-120), a database
    in which the repository creates only the timeline_logs table. */
module BoostWiring {
  import opened Records
  import opened Retrieval
  import Summarizer

  /** A DuckDB database file: the tables it holds and, when it holds
      memory_retention_boosts, that table's rows in steps of 0.05. */
  datatype Database = Database(tables: set<string>, boosts: map<string, nat>)

  const BoostTableName: string := "memory_retention_boosts"
  const TimelineTableName: string := "timeline_logs"

  /** The boost table as a SELECT against `db` sees it: None when the table does
      not exist, so that the query raises. */
  function BoostTableOf(db: Database): (t: Option<map<string, nat>>)
    ensures t.Some? <==> BoostTableName in db.tables
    ensures t.Some? ==> t.value == db.boosts
  {
    if BoostTableName in db.tables then Some(db.boosts) else None
  }

  /** ../data/timeline_logs.duckdb with the one table the repository creates in it. */
  function TimelineDb(): Database {
    Database({TimelineTableName}, map[])
  }

  /** ../data/retention_boosts.duckdb after init_retention_db, holding `ledger`. */
  function RetentionDb(ledger: map<string, nat>): Database {
    Database({BoostTableName}, ledger)
  }

  /** compute_crag_score as written: the boost query goes to the timeline
      database whatever the ledger holds. */
  function ScoreAsWritten(log: Payload, ctx: Scoring, queryProject: Option<string>,
                          ledger: map<string, nat>): real
  {
    CragScore(log, ctx, queryProject, BoostTableOf(TimelineDb()))
  }

  /** compute_crag_score reading the ledger the summarizer writes, from the
      retention database. */
  function ScoreCorrected(log: Payload, ctx: Scoring, queryProject: Option<string>,
                          ledger: map<string, nat>): real
  {
    CragScore(log, ctx, queryProject, BoostTableOf(RetentionDb(ledger)))
  }

  /** As written, the boost is always 0.0, so reinforcement never changes a score. */
  lemma AsWrittenIgnoresReinforcement(log: Payload, ctx: Scoring, queryProject: Option<string>,
                                      ledger: map<string, nat>, reinforced: seq<Payload>)
    ensures Boost(BoostTableOf(TimelineDb()), log) == 0.0
    ensures ScoreAsWritten(log, ctx, queryProject, Summarizer.Reinforced(ledger, reinforced))
            == ScoreAsWritten(log, ctx, queryProject, ledger)
  {
  }

  /** Reading the retention database instead, a log reinforced k more times
      scores exactly 0.05 * k higher. */
  lemma CorrectedRewardsReinforcement(log: Payload, ctx: Scoring, queryProject: Option<string>,
                                      ledger: map<string, nat>, reinforced: seq<Payload>)
    requires HasId(log)
    ensures ScoreCorrected(log, ctx, queryProject, Summarizer.Reinforced(ledger, reinforced))
            == ScoreCorrected(log, ctx, queryProject, ledger)
               + BoostStep * (Summarizer.Occurrences(reinforced, log.logId.value) as real)
  {
    var id := log.logId.value;
    Summarizer.ReinforcedCounts(ledger, reinforced, id);
    var after := Summarizer.Reinforced(ledger, reinforced);
    assert Boost(Some(after), log) == BoostStep * (Summarizer.Lookup(after, id) as real);
    assert Boost(Some(ledger), log) == BoostStep * (Summarizer.Lookup(ledger, id) as real);
  }

  /** As written, get_combined_logs ranks the candidates exactly as it would
      with an empty ledger: no reinforcement ever moves a log up. */
  lemma AsWrittenRankingIgnoresLedger(candidates: seq<Payload>, ctx: Scoring,
                                      queryProject: Option<string>)
    ensures Ranked(candidates, ctx, queryProject, BoostTableOf(TimelineDb()))
            == Ranked(candidates, ctx, queryProject, Some(map[]))
  {
    var d := FirstById(candidates);
    assert BoostTableOf(TimelineDb()) == None;
    forall i | 0 <= i < |d|
      ensures CragScore(d[i], ctx, queryProject, None)
              == CragScore(d[i], ctx, queryProject, Some(map[]))
    {
      assert Boost(None, d[i]) == 0.0 == Boost(Some(map[]), d[i]);
    }
    assert ScoreAll(d, ctx, queryProject, BoostTableOf(TimelineDb()))
           == ScoreAll(d, ctx, queryProject, Some(map[]));
  }
}
