/**
 An abstract storage session: the rows made durable by commits, the rows
 added since the last commit, and a log of what happened to the session.

 This replaces a relational session. `commitSizes` records, for every
 successful commit in order, how many rows were durable right after it;
 a failed commit changes nothing here (the caller rolls back).
 */
module Store {
  import opened Canonical

  datatype Session = Session(
    durable: seq<Stock>,
    pending: seq<Stock>,
    commitSizes: seq<nat>,
    rollbacks: nat,
    closed: bool)
  {
    /** Number of successful commits. */
    function Commits(): nat { |commitSizes| }
  }

  /** A session as the session factory hands it out. */
  function NewSession(): (s: Session)
    ensures s.durable == [] && s.pending == [] && s.Commits() == 0
    ensures s.rollbacks == 0 && !s.closed
  {
    Session([], [], [], 0, false)
  }

  /** Stage one row in the current transaction. */
  function Add(s: Session, row: Stock): (t: Session)
    ensures t.durable == s.durable && t.pending == s.pending + [row]
    ensures t.commitSizes == s.commitSizes && t.rollbacks == s.rollbacks && t.closed == s.closed
  {
    s.(pending := s.pending + [row])
  }

  /** Make every staged row durable; the log records the new durable size. */
  function Commit(s: Session): (t: Session)
    ensures t.durable + t.pending == s.durable + s.pending && t.pending == []
    ensures t.commitSizes == s.commitSizes + [|s.durable| + |s.pending|]
    ensures t.rollbacks == s.rollbacks && t.closed == s.closed
  {
    var d := s.durable + s.pending;
    s.(durable := d, pending := [], commitSizes := s.commitSizes + [|d|])
  }

  /** Discard every staged row; durable rows are untouched. */
  function Rollback(s: Session): (t: Session)
    ensures t.durable == s.durable && t.pending == []
    ensures t.commitSizes == s.commitSizes && t.rollbacks == s.rollbacks + 1 && t.closed == s.closed
  {
    s.(pending := [], rollbacks := s.rollbacks + 1)
  }

  /** Release the session; anything still staged is lost, nothing durable is. */
  function CloseSession(s: Session): (t: Session)
    ensures t.durable == s.durable && t.pending == [] && t.closed
    ensures t.commitSizes == s.commitSizes && t.rollbacks == s.rollbacks
  {
    s.(pending := [], closed := true)
  }
}
