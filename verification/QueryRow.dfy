/**
 * The shared `query` row and one ORM session's view of it. A commit writes the changed attributes
 * and expires the rest; an expired attribute is read from the committed row at its next use; a
 * refresh re-reads the row.
 */
module QueryRow {
  import opened Wrappers

  type Key = string

  datatype Status = Pending | Scheduled | Running | Fetching | Stopped | Failed | Success | TimedOut

  datatype LimitingFactor = ByQuery | ByDropdown | ByQueryAndDropdown | NotLimited | Unknown

  /** `ended` says whether `end_time` is set. */
  datatype Row = Row(status: Status, ended: bool, limit: Option<nat>, factor: LimitingFactor, resultsKey: Option<Key>)

  /** Attributes set since the last commit, except those set back to the loaded value. */
  datatype Changes = Changes(status: Option<Status>, ended: Option<bool>, limit: Option<Option<nat>>,
                             factor: Option<LimitingFactor>, resultsKey: Option<Option<Key>>)

  const CLEAN := Changes(None, None, None, None, None)

  function Overlay(row: Row, c: Changes): Row {
    Row(c.status.GetOr(row.status), c.ended.GetOr(row.ended), c.limit.GetOr(row.limit),
        c.factor.GetOr(row.factor), c.resultsKey.GetOr(row.resultsKey))
  }

  /** `row` is what is committed; `loaded` is what the session last read, None when expired. */
  datatype Session = Session(row: Row, loaded: Option<Row>, changes: Changes) {

    function Base(): Row {
      loaded.GetOr(row)
    }

    /** The attribute values the worker reads. */
    function View(): Row {
      Overlay(Base(), changes)
    }

    function Load(): Session {
      this.(loaded := Some(Base()))
    }

    /** Whether a refresh first flushes the pending changes or discards them is the ORM's choice. */
    function Refresh(flushes: bool): Session {
      this.(loaded := Some(row), changes := if flushes then changes else CLEAN)
    }

    function Commit(): Session {
      Session(Overlay(row, changes), None, CLEAN)
    }

    function SetStatus(s: Status): Session {
      this.(changes := changes.(status := if loaded.Some? && loaded.value.status == s then None else Some(s)))
    }

    function SetEnded(): Session {
      this.(changes := changes.(ended := if loaded.Some? && loaded.value.ended then None else Some(true)))
    }

    function SetLimit(l: Option<nat>): Session {
      this.(changes := changes.(limit := if loaded.Some? && loaded.value.limit == l then None else Some(l)))
    }

    function SetNotLimited(): Session {
      var same := loaded.Some? && loaded.value.factor == NotLimited;
      this.(changes := changes.(factor := if same then None else Some(NotLimited)))
    }

    function SetResultsKey(k: Option<Key>): Session {
      this.(changes := changes.(resultsKey := if loaded.Some? && loaded.value.resultsKey == k then None else Some(k)))
    }

    /** Another process commits a stop. */
    function StoppedElsewhere(): Session {
      this.(row := row.(status := Stopped, ended := true))
    }
  }
}
