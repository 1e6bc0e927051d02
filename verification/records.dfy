/** The memory record as the stores hand it out: a payload dictionary whose
    keys may be absent, plus the clock and timestamp parser that the ageing
    rules read. */
module Records {

  datatype Option<T> = None | Some(value: T)

  /** A parsed timestamp: a whole-day ordinal (what `(now - ts).days` counts
      against) and the calendar year and month used for grouping. */
  datatype Date = Date(ordinal: int, year: nat, month: nat)

  /** The payload dictionary of a memory log. A field that is absent from the
      dictionary is `None`; `kind` is the payload's "type" key. An absent
      "archived" key reads as false, like Python's falsy `None`. */
  datatype Payload = Payload(
    logId: Option<string>,
    content: Option<string>,
    timestamp: Option<string>,
    project: Option<string>,
    user: Option<string>,
    kind: Option<string>,
    source: Option<string>,
    archived: bool)

  /** datetime.now() and datetime.fromisoformat, which the model does not
      compute: `parse` yields None exactly where fromisoformat raises,
      `today` is the current whole-day ordinal and `nowStamp` the text of
      datetime.now().isoformat(). */
  datatype Clock = Clock(parse: string -> Option<Date>, today: int, nowStamp: string)

  /** dict.get(key, default) on a string field. */
  function Get(field: Option<string>, default: string): string {
    if field.Some? then field.value else default
  }

  /** Python truthiness of `log.get("log_id")`: present and non-empty. */
  predicate HasId(p: Payload) {
    p.logId.Some? && p.logId.value != ""
  }

  predicate IsSummary(p: Payload) {
    p.kind == Some("summary")
  }

  /** The parsed timestamp of a payload, when it has one that parses. */
  function ParsedDate(p: Payload, clock: Clock): Option<Date> {
    if p.timestamp.Some? then clock.parse(p.timestamp.value) else None
  }
}
