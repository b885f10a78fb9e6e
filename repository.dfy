/**
 * The finders of the postings store, one module per repository. Each finder
 * takes the table it reads as a sequence of rows and returns what the SQL
 * query returns: `Option` for a `first()` query (no row is `None`), a
 * sequence for a `load()` query.
 */

// -----------------------------------------------------------------------------
// account_stmt
// -----------------------------------------------------------------------------

module AccountStmtRepository {
  import opened Wrappers
  import opened Enums
  import opened Schema
  import opened Query

  /** The sort key `(pst_time, stmt_seq_nbr)` of a statement. */
  function StmtKey(s: AccountStmt): (k: (int, int)) {
    (s.pstTime, s.stmtSeqNbr)
  }

  /** Why the database refuses an insert. */
  datatype DbError = UniqueViolation

  /** The `account_stmt` table, which grows by inserts. */
  class AccountStmtTable {
    var rows: seq<AccountStmt>

    /** The primary key holds: no two rows share an id. */
    ghost predicate Valid()
      reads this
    {
      AccountStmtIdsUnique(rows)
    }

    constructor (initial: seq<AccountStmt>)
      requires AccountStmtIdsUnique(initial)
      ensures Valid() && rows == initial
    {
      rows := initial;
    }

    /**
     * `INSERT ... RETURNING *`: the new row is appended and returned as it was
     * given. A row whose id is already taken is refused by the primary key and
     * the table is left as it was.
     */
    method Save(newStmt: AccountStmt) returns (r: Result<AccountStmt, DbError>)
      requires Valid()
      modifies this
      ensures Valid()
      ensures r.Ok? <==> forall s :: s in old(rows) ==> s.id != newStmt.id
      ensures r.Ok? ==> r.value == newStmt && rows == old(rows) + [newStmt]
      ensures r.Err? ==> r.error == UniqueViolation && rows == old(rows)
      ensures r.Ok? ==> forall i :: 0 <= i < |rows| && rows[i].id == newStmt.id ==> i == |rows| - 1
      ensures r.Err? ==>
        exists i :: 0 <= i < |rows| && rows[i].id == newStmt.id &&
          forall j :: 0 <= j < |rows| && rows[j].id == newStmt.id ==> j == i
    {
      if exists s :: s in rows && s.id == newStmt.id {
        r := Err(UniqueViolation);
      } else {
        rows := rows + [newStmt];
        r := Ok(newStmt);
      }
    }
  }

  /**
   * The latest statement of an account with a given status strictly before
   * `refTime`, latest by `(pst_time, stmt_seq_nbr)`.
   */
  function FindFirstByAccountAndStatusAndPstTimeLessThan(
    table: seq<AccountStmt>, accountId: Id, status: StmtStatus, refTime: Timestamp): (r: Option<AccountStmt>)
    ensures r.Some? ==>
      && r.value in table
      && r.value.accountId == accountId && r.value.stmtStatus == status && r.value.pstTime < refTime
    ensures r.Some? ==>
      forall s :: s in table && s.accountId == accountId && s.stmtStatus == status && s.pstTime < refTime ==>
        s.pstTime < r.value.pstTime || (s.pstTime == r.value.pstTime && s.stmtSeqNbr <= r.value.stmtSeqNbr)
    ensures r.None? <==>
      forall s :: s in table ==> !(s.accountId == accountId && s.stmtStatus == status && s.pstTime < refTime)
  {
    Greatest(Filter(table, (s: AccountStmt) => s.accountId == accountId && s.stmtStatus == status && s.pstTime < refTime), StmtKey)
  }

  /**
   * The earliest statement of an account with a given status at or after
   * `refTime`, earliest by `(pst_time, stmt_seq_nbr)`.
   */
  function FindFirstByAccountAndStatusAndPstTimeGte(
    table: seq<AccountStmt>, accountId: Id, status: StmtStatus, refTime: Timestamp): (r: Option<AccountStmt>)
    ensures r.Some? ==>
      && r.value in table
      && r.value.accountId == accountId && r.value.stmtStatus == status && r.value.pstTime >= refTime
    ensures r.Some? ==>
      forall s :: s in table && s.accountId == accountId && s.stmtStatus == status && s.pstTime >= refTime ==>
        r.value.pstTime < s.pstTime || (r.value.pstTime == s.pstTime && r.value.stmtSeqNbr <= s.stmtSeqNbr)
    ensures r.None? <==>
      forall s :: s in table ==> !(s.accountId == accountId && s.stmtStatus == status && s.pstTime >= refTime)
  {
    Least(Filter(table, (s: AccountStmt) => s.accountId == accountId && s.stmtStatus == status && s.pstTime >= refTime), StmtKey)
  }

  /**
   * The two finders split an account's statements at `refTime`: both find
   * nothing exactly when the account has no statement of that status, and
   * what the first finds lies strictly before what the second finds.
   */
  lemma BeforeAndAtOrAfterSplit(table: seq<AccountStmt>, accountId: Id, status: StmtStatus, refTime: Timestamp)
    ensures
      var before := FindFirstByAccountAndStatusAndPstTimeLessThan(table, accountId, status, refTime);
      var after := FindFirstByAccountAndStatusAndPstTimeGte(table, accountId, status, refTime);
      && (before.None? && after.None? <==> forall s :: s in table ==> !(s.accountId == accountId && s.stmtStatus == status))
      && (before.Some? && after.Some? ==> before.value.pstTime < after.value.pstTime)
  {
  }

  /**
   * After a statement is saved, the latest-before query for any later time
   * finds a statement at least as late as the saved one.
   */
  lemma SavedStatementIsCandidate(rows: seq<AccountStmt>, saved: AccountStmt, refTime: Timestamp)
    requires saved.pstTime < refTime
    ensures
      var r := FindFirstByAccountAndStatusAndPstTimeLessThan(rows + [saved], saved.accountId, saved.stmtStatus, refTime);
      r.Some? && !LexLess(StmtKey(r.value), StmtKey(saved))
  {
    assert saved in rows + [saved];
  }
}

// -----------------------------------------------------------------------------
// ledger_account
// -----------------------------------------------------------------------------

module LedgerAccountRepository {
  import opened Wrappers
  import opened Schema
  import opened Query

  /** Lookup by primary key. */
  function FindById(table: seq<LedgerAccount>, accountId: Id): (r: Option<LedgerAccount>)
    ensures r.Some? ==> r.value in table && r.value.id == accountId
    ensures r.None? <==> forall a :: a in table ==> a.id != accountId
    ensures LedgerAccountIdsUnique(table) ==> forall a :: a in table && a.id == accountId ==> r == Some(a)
  {
    FindFirst(table, (a: LedgerAccount) => a.id == accountId)
  }

  /** The account of a ledger with a given name. */
  function FindOptionalByLedgerAndName(table: seq<LedgerAccount>, ledgerId: Id, name: string): (r: Option<LedgerAccount>)
    ensures r.Some? ==> r.value in table && r.value.ledgerId == ledgerId && r.value.name == name
    ensures r.None? <==> forall a :: a in table ==> !(a.ledgerId == ledgerId && a.name == name)
    ensures LedgerAccountNamesUnique(table) ==>
      forall a :: a in table && a.ledgerId == ledgerId && a.name == name ==> r == Some(a)
  {
    FindFirst(table, (a: LedgerAccount) => a.ledgerId == ledgerId && a.name == name)
  }
}

// -----------------------------------------------------------------------------
// ledger
// -----------------------------------------------------------------------------

module LedgerRepository {
  import opened Wrappers
  import opened Schema
  import opened Query

  /** Lookup by primary key. */
  function FindById(table: seq<Ledger>, ledgerId: Id): (r: Option<Ledger>)
    ensures r.Some? ==> r.value in table && r.value.id == ledgerId
    ensures r.None? <==> forall l :: l in table ==> l.id != ledgerId
    ensures LedgerIdsUnique(table) ==> forall l :: l in table && l.id == ledgerId ==> r == Some(l)
  {
    FindFirst(table, (l: Ledger) => l.id == ledgerId)
  }

  /** The ledger with a given name. */
  function FindOptionalByName(table: seq<Ledger>, name: string): (r: Option<Ledger>)
    ensures r.Some? ==> r.value in table && r.value.name == name
    ensures r.None? <==> forall l :: l in table ==> l.name != name
    ensures LedgerNamesUnique(table) ==> forall l :: l in table && l.name == name ==> r == Some(l)
  {
    FindFirst(table, (l: Ledger) => l.name == name)
  }
}

// -----------------------------------------------------------------------------
// posting
// -----------------------------------------------------------------------------

module PostingRepository {
  import opened Wrappers
  import opened Schema
  import opened Query

  /** Lookup by primary key. */
  function FindById(table: seq<Posting>, postingId: Id): (r: Option<Posting>)
    ensures r.Some? ==> r.value in table && r.value.id == postingId
    ensures r.None? <==> forall p :: p in table ==> p.id != postingId
    ensures PostingIdsUnique(table) ==> forall p :: p in table && p.id == postingId ==> r == Some(p)
  {
    FindFirst(table, (p: Posting) => p.id == postingId)
  }

  /** Every posting of an operation, discarded or not, in no particular order. */
  function FindByOprId(table: seq<Posting>, oprId: Id): (r: seq<Posting>)
    ensures forall p :: multiset(r)[p] == if p.oprId == oprId then multiset(table)[p] else 0
  {
    Filter(table, (p: Posting) => p.oprId == oprId)
  }

  /**
   * As written: some posting of the operation. The name promises a posting
   * that has not been discarded, but no filter on the discard marker is
   * applied, so a discarded posting may be returned.
   */
  function FindByOprIdAndDiscardingIdIsNull(table: seq<Posting>, oprId: Id): (r: Option<Posting>)
    ensures r.Some? ==> r.value in table && r.value.oprId == oprId
    ensures r.None? <==> forall p :: p in table ==> p.oprId != oprId
  {
    FindFirst(table, (p: Posting) => p.oprId == oprId)
  }

  /** A table holding one discarded posting: the finder above returns it. */
  lemma DiscardedPostingReturned(p: Posting)
    requires p.discardedId.Some?
    ensures FindByOprIdAndDiscardingIdIsNull([p], p.oprId) == Some(p)
    ensures FindByOprIdAndDiscardingIdIsNull([p], p.oprId).value.discardedId.Some?
  {
  }

  /** At most one posting per operation has no discard marker. */
  ghost predicate OneActivePerOperation(table: seq<Posting>) {
    forall i, j :: 0 <= i < j < |table| && table[i].oprId == table[j].oprId ==>
      table[i].discardedId.Some? || table[j].discardedId.Some?
  }

  /**
   * As intended: the posting of the operation that has not been discarded,
   * which is the only one when at most one posting per operation is active.
   */
  function FindActiveByOprId(table: seq<Posting>, oprId: Id): (r: Option<Posting>)
    ensures r.Some? ==> r.value in table && r.value.oprId == oprId && r.value.discardedId.None?
    ensures r.None? <==> forall p :: p in table && p.oprId == oprId ==> p.discardedId.Some?
    ensures OneActivePerOperation(table) ==>
      forall p :: p in table && p.oprId == oprId && p.discardedId.None? ==> r == Some(p)
  {
    FindFirst(table, (p: Posting) => p.oprId == oprId && p.discardedId.None?)
  }

  /** The head of a ledger's chain: a posting of the ledger recorded no earlier than any other. */
  function FindFirstByLedgerOrderByRecordTimeDesc(table: seq<Posting>, ledgerId: Id): (r: Option<Posting>)
    ensures r.Some? ==> r.value in table && r.value.ledgerId == ledgerId
    ensures r.Some? ==> forall p :: p in table && p.ledgerId == ledgerId ==> p.recordTime <= r.value.recordTime
    ensures r.None? <==> forall p :: p in table ==> p.ledgerId != ledgerId
  {
    Greatest(Filter(table, (p: Posting) => p.ledgerId == ledgerId), (p: Posting) => (p.recordTime, 0))
  }

  /** A posting recorded after every other posting of its ledger becomes the head. */
  lemma LaterPostingBecomesHead(table: seq<Posting>, p: Posting)
    requires forall q :: q in table && q.ledgerId == p.ledgerId ==> q.recordTime < p.recordTime
    ensures FindFirstByLedgerOrderByRecordTimeDesc(table + [p], p.ledgerId) == Some(p)
  {
    assert p in table + [p];
  }
}

// -----------------------------------------------------------------------------
// posting_line
// -----------------------------------------------------------------------------

module PostingLineRepository {
  import opened Wrappers
  import opened Schema
  import opened Query

  /**
   * The live lines of an account with `from < pst_time <= to`, latest posting
   * time first.
   */
  function FindPostingsByAccountAndDates(table: seq<PostingLine>, accountId: Id, from: Timestamp, to: Timestamp)
    : (r: seq<PostingLine>)
    ensures forall l ::
              multiset(r)[l] == (if l.accountId == accountId && from < l.pstTime <= to && l.discardedTime.None? then multiset(table)[l] else 0)
    ensures forall i, j :: 0 <= i < j < |r| ==> r[i].pstTime >= r[j].pstTime
  {
    SortDesc(Filter(table, (l: PostingLine) => l.accountId == accountId && from < l.pstTime <= to && l.discardedTime.None?),
             (l: PostingLine) => l.pstTime)
  }

  /** The line with a given id, provided it belongs to the given account. */
  function FindFirstByIdAndAccount(table: seq<PostingLine>, lineId: Id, accountId: Id): (r: Option<PostingLine>)
    ensures r.Some? ==> r.value in table && r.value.id == lineId && r.value.accountId == accountId
    ensures r.None? <==> forall l :: l in table ==> !(l.id == lineId && l.accountId == accountId)
    ensures PostingLineIdsUnique(table) ==>
      forall l :: l in table && l.id == lineId && l.accountId == accountId ==> r == Some(l)
  {
    FindFirst(table, (l: PostingLine) => l.id == lineId && l.accountId == accountId)
  }

  /** The live lines of an account posted at or before `refTime`, latest recorded first. */
  function FindByAccountAndPstTimeLteAndDiscardedIsNull(table: seq<PostingLine>, accountId: Id, refTime: Timestamp)
    : (r: seq<PostingLine>)
    ensures forall l ::
              multiset(r)[l] == (if l.accountId == accountId && l.pstTime <= refTime && l.discardedTime.None? then multiset(table)[l] else 0)
    ensures forall i, j :: 0 <= i < j < |r| ==> r[i].recordTime >= r[j].recordTime
  {
    SortDesc(Filter(table, (l: PostingLine) => l.accountId == accountId && l.pstTime <= refTime && l.discardedTime.None?),
             (l: PostingLine) => l.recordTime)
  }

  /** The live lines correcting a base line, posted at or before `refTime`, latest recorded first. */
  function FindByBaseLineAndPstTimeLteAndDiscardedIsNull(table: seq<PostingLine>, baseLine: Id, refTime: Timestamp)
    : (r: seq<PostingLine>)
    ensures forall l ::
              multiset(r)[l] == (if l.baseLine == Some(baseLine) && l.pstTime <= refTime && l.discardedTime.None? then multiset(table)[l] else 0)
    ensures forall i, j :: 0 <= i < j < |r| ==> r[i].recordTime >= r[j].recordTime
  {
    SortDesc(Filter(table, (l: PostingLine) => l.baseLine == Some(baseLine) && l.pstTime <= refTime && l.discardedTime.None?),
             (l: PostingLine) => l.recordTime)
  }

}

// -----------------------------------------------------------------------------
// ledger_stmt
// -----------------------------------------------------------------------------

module LedgerStmtRepository {
  import opened Wrappers
  import opened Enums
  import opened Schema
  import opened Query

  /** The sort key `(pst_time, stmt_seq_nbr)` of a ledger statement. */
  function StmtKey(s: LedgerStmt): (k: (int, int)) {
    (s.pstTime, s.stmtSeqNbr)
  }

  /**
   * The latest statement of a ledger with a given status at or before
   * `refTime`, latest by `(pst_time, stmt_seq_nbr)`.
   */
  function FindFirstByLedgerAndStatusAndPstTimeLte(
    table: seq<LedgerStmt>, ledgerId: Id, status: StmtStatus, refTime: Timestamp): (r: Option<LedgerStmt>)
    ensures r.Some? ==>
      && r.value in table
      && r.value.ledgerId == ledgerId && r.value.stmtStatus == status && r.value.pstTime <= refTime
    ensures r.Some? ==>
      forall s :: s in table && s.ledgerId == ledgerId && s.stmtStatus == status && s.pstTime <= refTime ==>
        s.pstTime < r.value.pstTime || (s.pstTime == r.value.pstTime && s.stmtSeqNbr <= r.value.stmtSeqNbr)
    ensures r.None? <==>
      forall s :: s in table ==> !(s.ledgerId == ledgerId && s.stmtStatus == status && s.pstTime <= refTime)
  {
    Greatest(Filter(table, (s: LedgerStmt) => s.ledgerId == ledgerId && s.stmtStatus == status && s.pstTime <= refTime), StmtKey)
  }

  /** Unlike the account finder, a ledger statement exactly at `refTime` is found. */
  lemma StatementAtRefTimeFound(table: seq<LedgerStmt>, s: LedgerStmt)
    requires s in table
    ensures
      var r := FindFirstByLedgerAndStatusAndPstTimeLte(table, s.ledgerId, s.stmtStatus, s.pstTime);
      r.Some? && r.value.pstTime == s.pstTime && r.value.stmtSeqNbr >= s.stmtSeqNbr
  {
  }
}

// -----------------------------------------------------------------------------
// op_note and posting_trace
// -----------------------------------------------------------------------------

module OpNoteRepository {
  import opened Wrappers
  import opened Schema
  import opened Query

  /** Lookup by primary key. */
  function FindById(table: seq<OpNote>, noteId: Id): (r: Option<OpNote>)
    ensures r.Some? ==> r.value in table && r.value.id == noteId
    ensures r.None? <==> forall n :: n in table ==> n.id != noteId
    ensures OpNoteIdsUnique(table) ==> forall n :: n in table && n.id == noteId ==> r == Some(n)
  {
    FindFirst(table, (n: OpNote) => n.id == noteId)
  }
}

module PostingTraceRepository {
  import opened Wrappers
  import opened Schema
  import opened Query

  /** Lookup by primary key. */
  function FindById(table: seq<PostingTrace>, traceId: Id): (r: Option<PostingTrace>)
    ensures r.Some? ==> r.value in table && r.value.id == traceId
    ensures r.None? <==> forall t :: t in table ==> t.id != traceId
    ensures PostingTraceIdsUnique(table) ==> forall t :: t in table && t.id == traceId ==> r == Some(t)
  {
    FindFirst(table, (t: PostingTrace) => t.id == traceId)
  }
}
