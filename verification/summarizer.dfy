/** The adaptive-forgetting lifecycle: select aged records from the vector
    store, group them by project and month, publish one summary per group,
    archive the originals and reinforce them in the retention ledger. */
module Summarizer {
  import opened Records
  import opened Text
  import opened Seqs

  /** get_old_logs(days_old=30) as run_summarizer calls it. */
  const DaysOld: int := 30

  // ---------------------------------------------------------------------------
  // Selecting aged records (get_old_logs)
  // ---------------------------------------------------------------------------

  /** The test get_old_logs applies to one scanned payload: a truthy timestamp,
      a falsy `archived`, a timestamp that parses and an age of at least
      `daysOld` whole days. */
  predicate EligibleAsWritten(p: Payload, clock: Clock, daysOld: int) {
    && p.timestamp.Some? && p.timestamp.value != ""
    && !p.archived
    && clock.parse(p.timestamp.value).Some?
    && clock.today - clock.parse(p.timestamp.value).value.ordinal >= daysOld
  }

  /** The selection the lifecycle is meant to make: the same test, and summary
      records (which are written without an `archived` key) are never folded
      into a new summary. */
  predicate Eligible(p: Payload, clock: Clock, daysOld: int) {
    EligibleAsWritten(p, clock, daysOld) && !IsSummary(p)
  }

  /** The scanned payloads get_old_logs returns, in scan order. */
  function SelectOld(s: seq<Payload>, clock: Clock, daysOld: int): (r: seq<Payload>)
    ensures |r| <= |s|
    ensures forall i :: 0 <= i < |r| ==> EligibleAsWritten(r[i], clock, daysOld)
  {
    if |s| == 0 then []
    else
      SelectOld(s[..|s| - 1], clock, daysOld)
        + (if EligibleAsWritten(s[|s| - 1], clock, daysOld) then [s[|s| - 1]] else [])
  }

  /** The selection is an ordered subsequence of the scan holding exactly its
      eligible payloads: every returned log is old enough, has a parsable
      timestamp and is not archived, and no eligible log is missed. */
  lemma {:induction false} SelectOldExact(s: seq<Payload>, clock: Clock, daysOld: int)
    ensures IsSubsequence(SelectOld(s, clock, daysOld), s)
    ensures forall x :: x in SelectOld(s, clock, daysOld) <==> x in s && EligibleAsWritten(x, clock, daysOld)
  {
    if |s| > 0 {
      var s' := s[..|s| - 1];
      var x := s[|s| - 1];
      SelectOldExact(s', clock, daysOld);
      assert s == s' + [x];
      if EligibleAsWritten(x, clock, daysOld) {
        assert SelectOld(s, clock, daysOld) == SelectOld(s', clock, daysOld) + [x];
        SubsequenceKeep(SelectOld(s', clock, daysOld), s', x);
      } else {
        assert SelectOld(s, clock, daysOld) == SelectOld(s', clock, daysOld);
        SubsequenceSkip(SelectOld(s', clock, daysOld), s', x);
      }
    }
  }

  /** get_old_logs over the scanned page of the collection. */
  method GetOldLogs(scanned: seq<Payload>, clock: Clock, daysOld: int) returns (aged: seq<Payload>)
    ensures aged == SelectOld(scanned, clock, daysOld)
    ensures IsSubsequence(aged, scanned)
    ensures forall x :: x in aged <==> x in scanned && EligibleAsWritten(x, clock, daysOld)
  {
    aged := [];
    for i := 0 to |scanned|
      invariant aged == SelectOld(scanned[..i], clock, daysOld)
    {
      var item := scanned[i];
      assert scanned[..i + 1][..i] == scanned[..i];
      if item.timestamp.None? || item.timestamp.value == "" || item.archived {
        continue;
      }
      var ts := clock.parse(item.timestamp.value);
      if ts.None? {
        continue;
      }
      if clock.today - ts.value.ordinal >= daysOld {
        aged := aged + [item];
      }
    }
    assert scanned[..|scanned|] == scanned;
    SelectOldExact(scanned, clock, daysOld);
  }

  /** The selection the lifecycle is meant to make: the selection as written
      without the summary records. */
  function SelectIntended(s: seq<Payload>, clock: Clock, daysOld: int): (r: seq<Payload>)
    ensures |r| <= |s|
    ensures forall i :: 0 <= i < |r| ==> Eligible(r[i], clock, daysOld)
  {
    if |s| == 0 then []
    else
      SelectIntended(s[..|s| - 1], clock, daysOld)
        + (if Eligible(s[|s| - 1], clock, daysOld) then [s[|s| - 1]] else [])
  }

  /** The intended selection is an ordered subsequence of the selection as
      written, and holds exactly its payloads that are not summaries: no
      summary is ever folded into a new one. */
  lemma {:induction false} SelectIntendedExact(s: seq<Payload>, clock: Clock, daysOld: int)
    ensures IsSubsequence(SelectIntended(s, clock, daysOld), SelectOld(s, clock, daysOld))
    ensures forall x ::
              x in SelectIntended(s, clock, daysOld) <==> x in SelectOld(s, clock, daysOld) && !IsSummary(x)
  {
    if |s| > 0 {
      var s' := s[..|s| - 1];
      var x := s[|s| - 1];
      var old', new' := SelectOld(s', clock, daysOld), SelectIntended(s', clock, daysOld);
      SelectIntendedExact(s', clock, daysOld);
      if Eligible(x, clock, daysOld) {
        assert SelectOld(s, clock, daysOld) == old' + [x];
        assert SelectIntended(s, clock, daysOld) == new' + [x];
        SubsequenceKeep(new', old', x);
      } else if EligibleAsWritten(x, clock, daysOld) {
        assert SelectOld(s, clock, daysOld) == old' + [x];
        assert SelectIntended(s, clock, daysOld) == new';
        SubsequenceSkip(new', old', x);
      } else {
        assert SelectOld(s, clock, daysOld) == old';
        assert SelectIntended(s, clock, daysOld) == new';
      }
    }
  }

  /** A summary record carries no `archived` key and a timestamp of its own
      creation: once that timestamp is `DaysOld` days old, the selection as
      written picks it up again, while the intended selection does not. */
  lemma AsWrittenReselectsSummary(text: string, project: string, month: string,
                                  created: Clock, later: Clock)
    requires later.parse(created.nowStamp).Some?
    requires later.today - later.parse(created.nowStamp).value.ordinal >= DaysOld
    requires created.nowStamp != ""
    ensures EligibleAsWritten(SummaryRecord(text, project, month, created), later, DaysOld)
    ensures !Eligible(SummaryRecord(text, project, month, created), later, DaysOld)
  {
  }

  // ---------------------------------------------------------------------------
  // Grouping by project and month (group_logs)
  // ---------------------------------------------------------------------------

  /** f"{ts.year}-{ts.month:02}". */
  function MonthKey(year: nat, month: nat): string {
    Decimal(year) + "-" + Pad2(month)
  }

  /** The project, year and month a log is grouped under. */
  datatype GroupId = GroupId(project: string, year: nat, month: nat)

  /** The group key as group_logs writes it: f"{log['project']}::{ts.year}-{ts.month:02}". */
  function KeyText(g: GroupId): string {
    g.project + "::" + MonthKey(g.year, g.month)
  }

  /** A log group_logs can key: it has a project and a timestamp that parses. */
  predicate Keyed(p: Payload, clock: Clock) {
    p.project.Some? && ParsedDate(p, clock).Some?
  }

  /** The group of a log, or None where group_logs raises: a missing project,
      or a timestamp that is absent or does not parse. */
  function GroupKey(p: Payload, clock: Clock): Option<GroupId> {
    if Keyed(p, clock) then
      var d := ParsedDate(p, clock).value;
      Some(GroupId(p.project.value, d.year, d.month))
    else None
  }

  /** Every log has a group key, so group_logs does not raise. */
  predicate AllKeyed(s: seq<Payload>, clock: Clock) {
    forall i :: 0 <= i < |s| ==> Keyed(s[i], clock)
  }

  lemma NoDash(s: string)
    requires AllDigits(s)
    ensures forall i :: 0 <= i < |s| ==> s[i] != '-'
  {
  }

  lemma MonthKeyInjective(y1: nat, m1: nat, y2: nat, m2: nat)
    requires MonthKey(y1, m1) == MonthKey(y2, m2)
    ensures y1 == y2 && m1 == m2
  {
    DecimalDigits(y1);
    DecimalDigits(y2);
    NoDash(Decimal(y1));
    NoDash(Decimal(y2));
    SplitAtFirst(Decimal(y1), Pad2(m1), Decimal(y2), Pad2(m2), '-');
    DecimalInjective(y1, y2);
    Pad2Injective(m1, m2);
  }

  /** The month key holds no ':'. */
  lemma MonthKeyNoColon(year: nat, month: nat)
    ensures forall i :: 0 <= i < |MonthKey(year, month)| ==> MonthKey(year, month)[i] != ':'
  {
    var d, p := Decimal(year), Pad2(month);
    DecimalDigits(year);
    Pad2Digits(month);
    forall i | 0 <= i < |d + "-" + p| ensures (d + "-" + p)[i] != ':' {
      if i < |d| {
        assert (d + "-" + p)[i] == d[i];
      } else if i > |d| {
        assert (d + "-" + p)[i] == p[i - |d| - 1];
      }
    }
  }

  /** Distinct groups have distinct key texts, so grouping on GroupId is the
      grouping group_logs makes on the key string. */
  lemma KeyTextInjective(g1: GroupId, g2: GroupId)
    requires KeyText(g1) == KeyText(g2)
    ensures g1 == g2
  {
    var p1, p2 := g1.project + ":", g2.project + ":";
    var m1, m2 := MonthKey(g1.year, g1.month), MonthKey(g2.year, g2.month);
    MonthKeyNoColon(g1.year, g1.month);
    MonthKeyNoColon(g2.year, g2.month);
    assert KeyText(g1) == p1 + [':'] + m1 && KeyText(g2) == p2 + [':'] + m2;
    SplitAtLast(p1, m1, p2, m2, ':');
    assert g1.project == p1[..|p1| - 1] == p2[..|p2| - 1] == g2.project;
    MonthKeyInjective(g1.year, g1.month, g2.year, g2.month);
  }

  /** The logs whose key is `k`, in input order. */
  function InGroup(s: seq<Payload>, k: GroupId, clock: Clock): (r: seq<Payload>)
    ensures forall i :: 0 <= i < |r| ==> GroupKey(r[i], clock) == Some(k)
  {
    if |s| == 0 then []
    else
      InGroup(s[..|s| - 1], k, clock)
        + (if GroupKey(s[|s| - 1], clock) == Some(k) then [s[|s| - 1]] else [])
  }

  /** The group keys in first-seen order, which is the order of groups.items(). */
  function FirstSeenKeys(s: seq<Payload>, clock: Clock): (r: seq<GroupId>)
    ensures forall k :: k in r ==> exists i :: 0 <= i < |s| && GroupKey(s[i], clock) == Some(k)
  {
    if |s| == 0 then []
    else
      var keys := FirstSeenKeys(s[..|s| - 1], clock);
      var k := GroupKey(s[|s| - 1], clock);
      if k.Some? && k.value !in keys then keys + [k.value] else keys
  }

  /** The defaultdict group_logs builds. */
  function GroupMap(s: seq<Payload>, clock: Clock): map<GroupId, seq<Payload>> {
    map k | k in FirstSeenKeys(s, clock) :: InGroup(s, k, clock)
  }

  /** The keys are distinct, each key belongs to some log, every keyed log's key
      is among them, and every group holds at least one log. */
  lemma {:induction false} FirstSeenKeysExact(s: seq<Payload>, clock: Clock)
    ensures NoDuplicates(FirstSeenKeys(s, clock))
    ensures forall i :: 0 <= i < |s| && GroupKey(s[i], clock).Some? ==>
              GroupKey(s[i], clock).value in FirstSeenKeys(s, clock)
    ensures forall k :: k in FirstSeenKeys(s, clock) ==> |InGroup(s, k, clock)| > 0
  {
    if |s| > 0 {
      var s' := s[..|s| - 1];
      var x := s[|s| - 1];
      FirstSeenKeysExact(s', clock);
      forall i | 0 <= i < |s| && GroupKey(s[i], clock).Some?
        ensures GroupKey(s[i], clock).value in FirstSeenKeys(s, clock)
      {
        if i < |s'| { assert s[i] == s'[i]; }
      }
    }
  }

  /** group_logs partitions its input: every log lands in the group of its own
      key and in no other, and each group keeps the input order. */
  lemma {:induction false} InGroupPartition(s: seq<Payload>, clock: Clock, k: GroupId)
    ensures IsSubsequence(InGroup(s, k, clock), s)
    ensures forall x :: x in InGroup(s, k, clock) <==> x in s && GroupKey(x, clock) == Some(k)
  {
    if |s| > 0 {
      var s' := s[..|s| - 1];
      var x := s[|s| - 1];
      InGroupPartition(s', clock, k);
      assert s == s' + [x];
      if GroupKey(x, clock) == Some(k) {
        assert InGroup(s, k, clock) == InGroup(s', k, clock) + [x];
        SubsequenceKeep(InGroup(s', k, clock), s', x);
      } else {
        assert InGroup(s, k, clock) == InGroup(s', k, clock);
        SubsequenceSkip(InGroup(s', k, clock), s', x);
      }
    }
  }

  lemma GroupStep(s: seq<Payload>, i: nat, clock: Clock, k: GroupId)
    requires i < |s|
    ensures InGroup(s[..i + 1], k, clock)
              == InGroup(s[..i], k, clock) + (if GroupKey(s[i], clock) == Some(k) then [s[i]] else [])
    ensures var keys := FirstSeenKeys(s[..i], clock);
            var g := GroupKey(s[i], clock);
            FirstSeenKeys(s[..i + 1], clock)
              == if g.Some? && g.value !in keys then keys + [g.value] else keys
  {
    assert s[..i + 1][..i] == s[..i];
  }

  /** A key nobody in `s` carries has an empty group. */
  lemma {:induction false} InGroupUnseen(s: seq<Payload>, k: GroupId, clock: Clock)
    requires k !in FirstSeenKeys(s, clock)
    ensures InGroup(s, k, clock) == []
  {
    FirstSeenKeysExact(s, clock);
    if |s| > 0 {
      InGroupUnseen(s[..|s| - 1], k, clock);
    }
  }

  /** The keys and groups group_logs has built after the logs of `s`. */
  datatype Grouping = Grouping(keys: seq<GroupId>, groups: map<GroupId, seq<Payload>>)

  /** What the loop of group_logs builds, one log at a time (a log without a
      key, where the loop raises, adds nothing). */
  function Collect(s: seq<Payload>, clock: Clock): Grouping {
    if |s| == 0 then Grouping([], map[])
    else
      var g := Collect(s[..|s| - 1], clock);
      var x := s[|s| - 1];
      var k := GroupKey(x, clock);
      if k.None? then g
      else if k.value in g.groups then Grouping(g.keys, g.groups[k.value := g.groups[k.value] + [x]])
      else Grouping(g.keys + [k.value], g.groups[k.value := [x]])
  }

  /** The groups built one log at a time are the first-seen keys, each holding
      the logs with that key in input order. */
  lemma {:induction false} CollectPointwise(s: seq<Payload>, clock: Clock)
    ensures Collect(s, clock).keys == FirstSeenKeys(s, clock)
    ensures forall k :: k in Collect(s, clock).groups <==> k in FirstSeenKeys(s, clock)
    ensures forall k :: k in Collect(s, clock).groups ==> Collect(s, clock).groups[k] == InGroup(s, k, clock)
  {
    if |s| > 0 {
      var s' := s[..|s| - 1];
      var x := s[|s| - 1];
      CollectPointwise(s', clock);
      var k := GroupKey(x, clock);
      if k.Some? && k.value !in Collect(s', clock).groups {
        InGroupUnseen(s', k.value, clock);
      }
    }
  }

  lemma CollectIsGroupMap(s: seq<Payload>, clock: Clock)
    ensures Collect(s, clock) == Grouping(FirstSeenKeys(s, clock), GroupMap(s, clock))
  {
    CollectPointwise(s, clock);
  }

  /** One more keyed log either joins its existing group or opens a new one. */
  lemma CollectStep(s: seq<Payload>, i: nat, clock: Clock, g: Grouping, k: GroupId)
    requires i < |s| && g == Collect(s[..i], clock) && GroupKey(s[i], clock) == Some(k)
    ensures k in g.groups ==> Collect(s[..i + 1], clock) == Grouping(g.keys, g.groups[k := g.groups[k] + [s[i]]])
    ensures k !in g.groups ==> Collect(s[..i + 1], clock) == Grouping(g.keys + [k], g.groups[k := [s[i]]])
  {
    assert s[..i + 1][..i] == s[..i];
  }

  /** group_logs: `ok` is false where the Python raises (a log without a project
      or with a timestamp that does not parse). */
  method GroupLogs(logs: seq<Payload>, clock: Clock)
    returns (ok: bool, keys: seq<GroupId>, groups: map<GroupId, seq<Payload>>)
    ensures ok <==> AllKeyed(logs, clock)
    ensures ok ==> keys == FirstSeenKeys(logs, clock) && groups == GroupMap(logs, clock)
  {
    keys := [];
    groups := map[];
    var i := 0;
    while i < |logs|
      invariant 0 <= i <= |logs|
      invariant forall j :: 0 <= j < i ==> Keyed(logs[j], clock)
      invariant Grouping(keys, groups) == Collect(logs[..i], clock)
    {
      var log := logs[i];
      var key := GroupKey(log, clock);
      if key.None? {
        ok := false;
        return;
      }
      CollectStep(logs, i, clock, Grouping(keys, groups), key.value);
      if key.value in groups {
        groups := groups[key.value := groups[key.value] + [log]];
      } else {
        groups := groups[key.value := [log]];
        keys := keys + [key.value];
      }
      i := i + 1;
    }
    assert logs[..i] == logs;
    CollectIsGroupMap(logs, clock);
    ok := true;
  }

  // ---------------------------------------------------------------------------
  // Summarizing and publishing (summarize_logs, upload_summary_to_qdrant)
  // ---------------------------------------------------------------------------

  /** The "- {content}" lines of summarize_logs, or None where `log['content']`
      raises. */
  function ContentLines(logs: seq<Payload>): (r: Option<seq<string>>)
    ensures r.Some? <==> forall i :: 0 <= i < |logs| ==> logs[i].content.Some?
    ensures r.Some? ==> |r.value| == |logs|
                        && forall i :: 0 <= i < |logs| ==> r.value[i] == "- " + logs[i].content.value
  {
    if forall i :: 0 <= i < |logs| ==> logs[i].content.Some? then
      Some(seq(|logs|, i requires 0 <= i < |logs| => "- " + logs[i].content.value))
    else None
  }

  /** The prompt summarize_logs sends to the language model. */
  function SummaryPrompt(project: string, month: string, text: string): string {
    "Summarize the following logs for project '" + project + "' during " + month
      + " into key decisions, impactful data points, and action items:\n\n" + text
  }

  /** summarize_logs: the model's reply, stripped; None where the Python raises
      (a log without content, or a failed or empty completion). `complete`
      stands for the chat-completion call. */
  function Summarize(logs: seq<Payload>, project: string, month: string,
                     complete: string -> Option<string>): (r: Option<string>)
    ensures r.Some? ==> IsStripped(r.value)
    ensures (exists i :: 0 <= i < |logs| && logs[i].content.None?) ==> r.None?
  {
    match ContentLines(logs)
    case None => None
    case Some(lines) =>
      match complete(SummaryPrompt(project, month, Join(lines, "\n")))
      case None => None
      case Some(reply) => Some(Strip(reply))
  }

  /** f"summary::{project}::{month_key}". */
  function SummaryId(project: string, month: string): (r: string)
    ensures StartsWith(r, "summary::") && EndsWith(r, "::" + month)
  {
    "summary::" + project + "::" + month
  }

  /** The summary record upload_summary_to_qdrant writes. It has no "archived" key. */
  function SummaryRecord(text: string, project: string, month: string, clock: Clock): (r: Payload)
    ensures r.logId == Some(SummaryId(project, month)) && r.content == Some(text)
    ensures r.project == Some(project) && r.timestamp == Some(clock.nowStamp)
    ensures r.user == Some("summarizer") && r.source == Some("summarizer")
    ensures IsSummary(r) && !r.archived
  {
    Payload(Some(SummaryId(project, month)), Some(text), Some(clock.nowStamp), Some(project),
            Some("summarizer"), Some("summary"), Some("summarizer"), false)
  }

  /** The id run_summarizer publishes under as written: it passes the whole
      group key, which already starts with the project, as `month_key`. */
  function SummaryIdAsWritten(g: GroupId, project: string): string {
    SummaryId(project, KeyText(g))
  }

  /** The id as written, spelled out. */
  lemma SummaryIdAsWrittenText(g: GroupId, project: string)
    ensures SummaryIdAsWritten(g, project)
            == "summary::" + project + "::" + g.project + "::" + MonthKey(g.year, g.month)
  {
  }

  /** upload_summary_to_qdrant prefixes its month_key with the project, and
      group_logs' keys already start with the project, so as written the
      project appears twice and the id is not "summary::{project}::{YYYY-MM}". */
  lemma AsWrittenIdDoublesProject(g: GroupId)
    ensures var p := g.project;
            var m := MonthKey(g.year, g.month);
            && SummaryIdAsWritten(g, p) == "summary::" + p + "::" + p + "::" + m
            && SummaryIdAsWritten(g, p) != SummaryId(p, m)
  {
    var p := g.project;
    var m := MonthKey(g.year, g.month);
    assert |SummaryIdAsWritten(g, p)| == |SummaryId(p, m)| + |p| + 2;
  }

  /** Passing the month part instead, the published id is "summary::" followed
      by the group key, and different groups publish under different ids. */
  lemma PublishedIdFormat(g: GroupId, h: GroupId)
    ensures SummaryId(g.project, MonthKey(g.year, g.month)) == "summary::" + KeyText(g)
    ensures (SummaryId(g.project, MonthKey(g.year, g.month))
               == SummaryId(h.project, MonthKey(h.year, h.month))) ==> g == h
  {
    SummaryIdOfGroup(g);
    SummaryIdOfGroup(h);
    if SummaryId(g.project, MonthKey(g.year, g.month)) == SummaryId(h.project, MonthKey(h.year, h.month)) {
      PrefixCancel("summary::", KeyText(g), KeyText(h));
      KeyTextInjective(g, h);
    }
  }

  /** The published id of a group is "summary::" followed by its key text. */
  lemma SummaryIdOfGroup(g: GroupId)
    ensures SummaryId(g.project, MonthKey(g.year, g.month)) == "summary::" + KeyText(g)
  {
  }

  /** qdrant.upsert of one point whose id is the record's log_id. */
  function Upsert(points: map<string, Payload>, rec: Payload): (r: map<string, Payload>)
    requires rec.logId.Some?
    ensures r.Keys == points.Keys + {rec.logId.value}
    ensures r[rec.logId.value] == rec
    ensures forall id :: id in points && id != rec.logId.value ==> r[id] == points[id]
  {
    points[rec.logId.value := rec]
  }

  /** Publishing twice for the same project and month leaves one record under the
      id, holding the later text. */
  lemma PublishTwice(points: map<string, Payload>, first: string, second: string,
                     project: string, month: string, c1: Clock, c2: Clock)
    ensures var again := Upsert(Upsert(points, SummaryRecord(first, project, month, c1)),
                                SummaryRecord(second, project, month, c2));
            && again == Upsert(points, SummaryRecord(second, project, month, c2))
            && again[SummaryId(project, month)].content == Some(second)
  {
  }

  // ---------------------------------------------------------------------------
  // Archiving and reinforcing (archive_logs, reinforce_logs)
  // ---------------------------------------------------------------------------

  /** set_payload can mark `log`: it has a log_id naming a point of the collection. */
  predicate Archivable(points: map<string, Payload>, log: Payload) {
    log.logId.Some? && log.logId.value in points
  }

  /** Index of the first log archive_logs fails on (`log["log_id"]` raises, or no
      point has that id), or |logs| when it fails on none. */
  function ArchiveStop(points: map<string, Payload>, logs: seq<Payload>): (k: nat)
    ensures k <= |logs|
    ensures forall i :: 0 <= i < k ==> Archivable(points, logs[i])
    ensures k < |logs| ==> !Archivable(points, logs[k])
  {
    if |logs| == 0 || !Archivable(points, logs[0]) then 0
    else 1 + ArchiveStop(points, logs[1..])
  }

  /** The collection after `{"archived": True}` is merged into the payload of
      each log's point, in order. */
  function ArchiveAll(points: map<string, Payload>, logs: seq<Payload>): (r: map<string, Payload>)
    ensures r.Keys == points.Keys
  {
    if |logs| == 0 then points
    else
      var q := ArchiveAll(points, logs[..|logs| - 1]);
      var x := logs[|logs| - 1];
      if Archivable(q, x) then q[x.logId.value := q[x.logId.value].(archived := true)] else q
  }

  /** Some log in `logs` carries log_id `id`. */
  predicate Names(logs: seq<Payload>, id: string) {
    exists i :: 0 <= i < |logs| && logs[i].logId == Some(id)
  }

  /** archive_logs sets archived on exactly the named points and changes no other
      field and no other point. */
  lemma {:induction false} ArchiveAllEffect(points: map<string, Payload>, logs: seq<Payload>, id: string)
    requires id in points
    ensures ArchiveAll(points, logs)[id]
              == if Names(logs, id) then points[id].(archived := true) else points[id]
  {
    if |logs| > 0 {
      var logs' := logs[..|logs| - 1];
      var x := logs[|logs| - 1];
      ArchiveAllEffect(points, logs', id);
      assert forall i :: 0 <= i < |logs'| ==> logs'[i] == logs[i];
      assert Names(logs, id) <==> Names(logs', id) || x.logId == Some(id);
    }
  }

  /** The current boost of an id, in 0.05 steps; an absent row is 0. */
  function Lookup(boosts: map<string, nat>, id: string): nat {
    if id in boosts then boosts[id] else 0
  }

  /** Number of logs with a truthy log_id equal to `id`. */
  function Occurrences(logs: seq<Payload>, id: string): nat {
    if |logs| == 0 then 0
    else
      Occurrences(logs[..|logs| - 1], id)
        + (if HasId(logs[|logs| - 1]) && logs[|logs| - 1].logId.value == id then 1 else 0)
  }

  /** The ledger after the insert-or-add of one step for each log with a truthy log_id. */
  function Reinforced(boosts: map<string, nat>, logs: seq<Payload>): map<string, nat> {
    if |logs| == 0 then boosts
    else
      var b := Reinforced(boosts, logs[..|logs| - 1]);
      var x := logs[|logs| - 1];
      if HasId(x) then b[x.logId.value := Lookup(b, x.logId.value) + 1] else b
  }

  /** An id appearing k times gains exactly k steps (a new row starts at one
      step), logs without a log_id change nothing, and rows appear only for
      reinforced ids. */
  lemma {:induction false} ReinforcedCounts(boosts: map<string, nat>, logs: seq<Payload>, id: string)
    ensures Lookup(Reinforced(boosts, logs), id) == Lookup(boosts, id) + Occurrences(logs, id)
    ensures id in Reinforced(boosts, logs) <==> id in boosts || Occurrences(logs, id) > 0
  {
    if |logs| > 0 {
      ReinforcedCounts(boosts, logs[..|logs| - 1], id);
    }
  }

  /** Boosts never decrease. */
  lemma ReinforcedMonotone(boosts: map<string, nat>, logs: seq<Payload>)
    ensures forall id :: Lookup(boosts, id) <= Lookup(Reinforced(boosts, logs), id)
  {
    forall id ensures Lookup(boosts, id) <= Lookup(Reinforced(boosts, logs), id) {
      ReinforcedCounts(boosts, logs, id);
    }
  }

  // ---------------------------------------------------------------------------
  // One lifecycle run (run_summarizer)
  // ---------------------------------------------------------------------------

  /** The two stores the lifecycle writes: the vector collection and the ledger. */
  datatype Stores = Stores(points: map<string, Payload>, boosts: map<string, nat>)

  /** The stores after a run, and whether it ran to the end without raising. */
  datatype Run = Run(stores: Stores, ok: bool)

  /** Publish, archive and reinforce once the summary text exists. */
  function AfterSummary(s: Stores, project: string, month: string, text: string,
                        logs: seq<Payload>, clock: Clock): Run
  {
    var published := Upsert(s.points, SummaryRecord(text, project, month, clock));
    var k := ArchiveStop(published, logs);
    var archived := ArchiveAll(published, logs[..k]);
    if k < |logs| then Run(Stores(archived, s.boosts), false)
    else Run(Stores(archived, Reinforced(s.boosts, logs)), true)
  }

  /** summarize_logs as a run sees it: the summary text for a group, its
      project and its month key, or None where it raises. */
  type SummaryFn = (seq<Payload>, string, string) -> Option<string>

  /** summarize_logs with a given chat-completion call. */
  function SummarizeWith(complete: string -> Option<string>): SummaryFn {
    (logs, project, month) => Summarize(logs, project, month, complete)
  }

  /** One group of run_summarizer: summarize, publish, archive, reinforce. A
      failure leaves the steps already taken in place and stops the run. As
      written, the whole group key is what reaches summarize_logs and the
      summary id as `month_key`. */
  function ProcessGroup(s: Stores, key: GroupId, logs: seq<Payload>, clock: Clock,
                        summarize: SummaryFn): Run
  {
    if |logs| == 0 || logs[0].project.None? then Run(s, false)
    else
      var project := logs[0].project.value;
      var month := KeyText(key);
      var summary := summarize(logs, project, month);
      if summary.None? then Run(s, false)
      else AfterSummary(s, project, month, summary.value, logs, clock)
  }

  /** A group whose summary cannot be produced changes neither store. */
  lemma FailedSummaryChangesNothing(s: Stores, key: GroupId, logs: seq<Payload>, clock: Clock,
                                    summarize: SummaryFn)
    requires |logs| > 0 && logs[0].project.Some?
    requires summarize(logs, logs[0].project.value, KeyText(key)).None?
    ensures ProcessGroup(s, key, logs, clock, summarize) == Run(s, false)
  {
  }

  /** When every log is archivable, archiving marks each of them. */
  lemma AllArchived(points: map<string, Payload>, logs: seq<Payload>)
    requires ArchiveStop(points, logs) == |logs|
    ensures forall i :: 0 <= i < |logs| ==>
              logs[i].logId.Some? && logs[i].logId.value in ArchiveAll(points, logs)
              && ArchiveAll(points, logs)[logs[i].logId.value].archived
  {
    forall i | 0 <= i < |logs|
      ensures logs[i].logId.Some? && logs[i].logId.value in ArchiveAll(points, logs)
              && ArchiveAll(points, logs)[logs[i].logId.value].archived
    {
      assert Archivable(points, logs[i]);
      assert Names(logs, logs[i].logId.value);
      ArchiveAllEffect(points, logs, logs[i].logId.value);
    }
  }

  /** Once the archive goes through, the summary is published, every log of
      the group is archived and each id is reinforced once per occurrence. */
  lemma CompletedSummary(s: Stores, project: string, month: string, text: string,
                         logs: seq<Payload>, clock: Clock)
    requires AfterSummary(s, project, month, text, logs, clock).ok
    ensures var r := AfterSummary(s, project, month, text, logs, clock);
            var id := SummaryId(project, month);
            && id in r.stores.points
            && r.stores.points[id].content == Some(text)
            && (forall i :: 0 <= i < |logs| ==>
                  logs[i].logId.Some? && logs[i].logId.value in r.stores.points
                  && r.stores.points[logs[i].logId.value].archived)
            && (forall id' :: Lookup(r.stores.boosts, id') == Lookup(s.boosts, id') + Occurrences(logs, id'))
  {
    var published := Upsert(s.points, SummaryRecord(text, project, month, clock));
    assert ArchiveStop(published, logs) == |logs|;
    assert logs[..|logs|] == logs;
    var points := ArchiveAll(published, logs);
    assert AfterSummary(s, project, month, text, logs, clock).stores == Stores(points, Reinforced(s.boosts, logs));
    ArchiveAllEffect(published, logs, SummaryId(project, month));
    AllArchived(published, logs);
    forall id' ensures Lookup(Reinforced(s.boosts, logs), id') == Lookup(s.boosts, id') + Occurrences(logs, id') {
      ReinforcedCounts(s.boosts, logs, id');
    }
  }

  /** A group that goes through leaves its summary published under the id as
      written, every one of its logs archived and each id reinforced once per
      occurrence. */
  lemma ProcessedGroup(s: Stores, key: GroupId, logs: seq<Payload>, clock: Clock,
                       summarize: SummaryFn)
    requires ProcessGroup(s, key, logs, clock, summarize).ok
    ensures var r := ProcessGroup(s, key, logs, clock, summarize);
            var project := logs[0].project.value;
            var id := SummaryIdAsWritten(key, project);
            && id == "summary::" + project + "::" + key.project + "::" + MonthKey(key.year, key.month)
            && summarize(logs, project, KeyText(key)).Some?
            && id in r.stores.points
            && r.stores.points[id].content == summarize(logs, project, KeyText(key))
            && (forall i :: 0 <= i < |logs| ==>
                  logs[i].logId.Some? && logs[i].logId.value in r.stores.points
                  && r.stores.points[logs[i].logId.value].archived)
            && (forall id' :: Lookup(r.stores.boosts, id') == Lookup(s.boosts, id') + Occurrences(logs, id'))
  {
    var project := logs[0].project.value;
    var month := KeyText(key);
    var text := summarize(logs, project, month).value;
    SummaryIdAsWrittenText(key, project);
    CompletedSummary(s, project, month, text, logs, clock);
  }

  /** What one group does to the stores in a run. */
  type GroupStepFn = (Stores, GroupId, seq<Payload>) -> Run

  /** The groups, in order, each taking the stores the previous one left, until
      one of them fails. */
  function RunSteps(s: Stores, keys: seq<GroupId>, groups: map<GroupId, seq<Payload>>,
                    step: GroupStepFn): Run
    requires forall k :: k in keys ==> k in groups
    decreases |keys|
  {
    if |keys| == 0 then Run(s, true)
    else
      var r := step(s, keys[0], groups[keys[0]]);
      if !r.ok then r else RunSteps(r.stores, keys[1..], groups, step)
  }

  /** The step of run_summarizer's loop. */
  function SummarizerStep(clock: Clock, summarize: SummaryFn): GroupStepFn {
    (s, key, logs) => ProcessGroup(s, key, logs, clock, summarize)
  }

  /** The loop of run_summarizer over the groups. */
  function RunGroups(s: Stores, keys: seq<GroupId>, groups: map<GroupId, seq<Payload>>, clock: Clock,
                     summarize: SummaryFn): Run
    requires forall k :: k in keys ==> k in groups
  {
    RunSteps(s, keys, groups, SummarizerStep(clock, summarize))
  }

  /** If group `j` fails, the run ends with the groups before it done, the steps
      of group `j` taken up to its failure, and nothing of the later groups. */
  lemma {:induction false} RunStopsAtFailure(s: Stores, keys: seq<GroupId>, groups: map<GroupId, seq<Payload>>,
                                             step: GroupStepFn, j: nat)
    requires forall k :: k in keys ==> k in groups
    requires j < |keys|
    requires RunSteps(s, keys[..j], groups, step).ok
    requires !step(RunSteps(s, keys[..j], groups, step).stores, keys[j], groups[keys[j]]).ok
    ensures RunSteps(s, keys, groups, step)
              == step(RunSteps(s, keys[..j], groups, step).stores, keys[j], groups[keys[j]])
    decreases j
  {
    if j == 0 {
      assert keys[..0] == [];
    } else {
      var r := step(s, keys[0], groups[keys[0]]);
      var pre := keys[..j];
      assert pre[0] == keys[0] && pre[1..] == keys[1..][..j - 1];
      assert keys[1..][j - 1] == keys[j];
      RunStopsAtFailure(r.stores, keys[1..], groups, step, j - 1);
    }
  }

  /** A full run: select, group, then the groups in first-seen order. */
  function Lifecycle(s: Stores, scanned: seq<Payload>, clock: Clock,
                     complete: string -> Option<string>): Run
  {
    var aged := SelectOld(scanned, clock, DaysOld);
    if !AllKeyed(aged, clock) then Run(s, false)
    else RunGroups(s, FirstSeenKeys(aged, clock), GroupMap(aged, clock), clock, SummarizeWith(complete))
  }

  /** Every point is stored under its own log_id, as the ingestion writes it. */
  predicate IdsMatch(points: map<string, Payload>) {
    forall id :: id in points ==> points[id].logId == Some(id)
  }

  /** Logs read back from a collection that keeps every point under its own
      log_id all name a point, even after a summary is published: archive_logs
      goes through for them. */
  lemma StoredLogsArchivable(points: map<string, Payload>, rec: Payload, logs: seq<Payload>)
    requires IdsMatch(points) && rec.logId.Some?
    requires forall i :: 0 <= i < |logs| ==> logs[i] in points.Values
    ensures ArchiveStop(Upsert(points, rec), logs) == |logs|
  {
    var q := Upsert(points, rec);
    forall i | 0 <= i < |logs| ensures Archivable(q, logs[i]) {
      assert logs[i] in points.Values;
      var id :| id in points && points[id] == logs[i];
      assert logs[i].logId == Some(id);
    }
  }

  /** The Qdrant collection and the retention ledger the summarizer writes. */
  class MemoryStore {
    var points: map<string, Payload>
    var boosts: map<string, nat>

    predicate Valid()
      reads this
    {
      IdsMatch(points)
    }

    function Contents(): Stores
      reads this
    {
      Stores(points, boosts)
    }

    constructor (points0: map<string, Payload>, boosts0: map<string, nat>)
      requires IdsMatch(points0)
      ensures Valid() && points == points0 && boosts == boosts0
    {
      points := points0;
      boosts := boosts0;
    }

    /** upload_summary_to_qdrant. */
    method UploadSummary(text: string, project: string, month: string, clock: Clock)
      requires Valid()
      modifies this
      ensures Valid()
      ensures points == Upsert(old(points), SummaryRecord(text, project, month, clock))
      ensures boosts == old(boosts)
    {
      var rec := SummaryRecord(text, project, month, clock);
      points := points[rec.logId.value := rec];
    }

    /** archive_logs; `ok` is false where the Python raises part way. */
    method ArchiveLogs(logs: seq<Payload>) returns (ok: bool)
      requires Valid()
      modifies this
      ensures Valid()
      ensures ok <==> ArchiveStop(old(points), logs) == |logs|
      ensures points == ArchiveAll(old(points), logs[..ArchiveStop(old(points), logs)])
      ensures boosts == old(boosts)
    {
      var i := 0;
      while i < |logs|
        invariant 0 <= i <= ArchiveStop(old(points), logs)
        invariant points == ArchiveAll(old(points), logs[..i])
        invariant boosts == old(boosts)
        invariant Valid()
      {
        var log := logs[i];
        assert logs[..i + 1][..i] == logs[..i];
        if log.logId.None? || log.logId.value !in points {
          return false;
        }
        var id := log.logId.value;
        points := points[id := points[id].(archived := true)];
        i := i + 1;
      }
      return true;
    }

    /** reinforce_logs. */
    method ReinforceLogs(logs: seq<Payload>)
      requires Valid()
      modifies this
      ensures Valid()
      ensures boosts == Reinforced(old(boosts), logs)
      ensures points == old(points)
    {
      for i := 0 to |logs|
        invariant boosts == Reinforced(old(boosts), logs[..i])
        invariant points == old(points)
      {
        var log := logs[i];
        assert logs[..i + 1][..i] == logs[..i];
        if log.logId.None? || log.logId.value == "" {
          continue;
        }
        var id := log.logId.value;
        boosts := boosts[id := Lookup(boosts, id) + 1];
      }
      assert logs[..|logs|] == logs;
    }

    /** The body of run_summarizer's loop for one group. */
    method SummarizeGroup(key: GroupId, logs: seq<Payload>, clock: Clock, complete: string -> Option<string>)
      returns (ok: bool)
      requires Valid()
      modifies this
      ensures Valid()
      ensures Run(Contents(), ok) == ProcessGroup(old(Contents()), key, logs, clock, SummarizeWith(complete))
    {
      if |logs| == 0 || logs[0].project.None? {
        return false;
      }
      var project := logs[0].project.value;
      var month := KeyText(key);
      var text := Summarize(logs, project, month, complete);
      assert SummarizeWith(complete)(logs, project, month) == text;
      if text.None? {
        return false;
      }
      ok := PublishAndArchive(project, month, text.value, logs, clock);
    }

    /** The three store updates of run_summarizer's loop once the summary text
        exists: publish it, archive the group, reinforce the group. */
    method PublishAndArchive(project: string, month: string, text: string, logs: seq<Payload>, clock: Clock)
      returns (ok: bool)
      requires Valid()
      modifies this
      ensures Valid()
      ensures Run(Contents(), ok) == AfterSummary(old(Contents()), project, month, text, logs, clock)
      ensures (forall i :: 0 <= i < |logs| ==> logs[i] in old(points).Values) ==> ok
    {
      if forall i :: 0 <= i < |logs| ==> logs[i] in points.Values {
        StoredLogsArchivable(points, SummaryRecord(text, project, month, clock), logs);
      }
      UploadSummary(text, project, month, clock);
      ok := ArchiveLogs(logs);
      if !ok {
        return;
      }
      assert logs[..|logs|] == logs;
      ReinforceLogs(logs);
    }

    /** The loop of run_summarizer over the groups, in first-seen order. */
    method SummarizeGroups(keys: seq<GroupId>, groups: map<GroupId, seq<Payload>>, clock: Clock,
                           complete: string -> Option<string>) returns (ok: bool)
      requires Valid()
      requires forall k :: k in keys ==> k in groups
      modifies this
      ensures Valid()
      ensures Run(Contents(), ok) == RunGroups(old(Contents()), keys, groups, clock, SummarizeWith(complete))
    {
      assert keys[0..] == keys;
      var i := 0;
      while i < |keys|
        invariant 0 <= i <= |keys|
        invariant Valid()
        invariant RunGroups(Contents(), keys[i..], groups, clock, SummarizeWith(complete))
                  == RunGroups(old(Contents()), keys, groups, clock, SummarizeWith(complete))
      {
        assert keys[i..][0] == keys[i] && keys[i..][1..] == keys[i + 1..];
        ok := SummarizeGroup(keys[i], groups[keys[i]], clock, complete);
        if !ok {
          return;
        }
        i := i + 1;
      }
      return true;
    }

    /** run_summarizer; `ok` is false where the Python raises. */
    method RunSummarizer(scanned: seq<Payload>, clock: Clock, complete: string -> Option<string>)
      returns (ok: bool)
      requires Valid()
      modifies this
      ensures Valid()
      ensures Run(Contents(), ok) == Lifecycle(old(Contents()), scanned, clock, complete)
    {
      var aged := GetOldLogs(scanned, clock, DaysOld);
      var grouped, keys, groups := GroupLogs(aged, clock);
      if !grouped {
        return false;
      }
      ok := SummarizeGroups(keys, groups, clock, complete);
    }
  }
}
