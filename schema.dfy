/**
 * The rows of the postings store's tables. Every `Varchar` column is a string,
 * every `Timestamp` an integer instant and every `Numeric` amount an integer,
 * since no arithmetic is done on them by the queries; a `Nullable` column is
 * an `Option`.
 */
module Schema {
  import opened Wrappers
  import opened Enums

  type Id = string
  type Timestamp = int

  /** A balance snapshot of one ledger account (table `account_stmt`). */
  datatype AccountStmt = AccountStmt(
    id: Id,
    postingId: Option<Id>,
    pstTime: Timestamp,
    stmtStatus: StmtStatus,
    latestPstId: Option<Id>,
    stmtSeqNbr: int,
    created: Option<Timestamp>,
    userDetails: Option<string>,
    shortDesc: Option<string>,
    longDesc: Option<string>,
    accountId: Id,
    youngestPstId: Option<Id>,
    totalDebit: int,
    totalCredit: int)

  /** Table `chart_of_account`, kept as the table's field list; no finder in this model reads it. */
  datatype ChartOfAccount = ChartOfAccount(
    id: Id,
    created: Timestamp,
    userDetails: string,
    shortDesc: Option<string>,
    longDesc: Option<string>,
    name: string)

  /** Table `ledger`. */
  datatype Ledger = Ledger(
    id: Id,
    created: Timestamp,
    userDetails: string,
    shortDesc: Option<string>,
    longDesc: Option<string>,
    name: string,
    coaId: Id)

  /** Table `ledger_account`: a node of a ledger's account tree. */
  datatype LedgerAccount = LedgerAccount(
    id: Id,
    created: Timestamp,
    userDetails: string,
    shortDesc: Option<string>,
    longDesc: Option<string>,
    name: string,
    ledgerId: Id,
    parentId: Option<Id>,
    coaId: Id,
    balanceSide: BalanceSide,
    category: AccountCategory)

  /** A balance snapshot of a whole ledger (table `ledger_stmt`). */
  datatype LedgerStmt = LedgerStmt(
    id: Id,
    postingId: Option<Id>,
    pstTime: Timestamp,
    stmtStatus: StmtStatus,
    latestPstId: Option<Id>,
    stmtSeqNbr: int,
    created: Option<Timestamp>,
    userDetails: Option<string>,
    shortDesc: Option<string>,
    longDesc: Option<string>,
    ledgerId: Id)

  /** Table `op_note`. */
  datatype OpNote = OpNote(
    id: Id,
    recId: Id,
    noteType: Option<string>,
    content: Option<string>,
    recTime: Timestamp,
    execTime: Option<Timestamp>,
    prematureExc: Option<bool>,
    repeatedExec: Option<bool>,
    execStatus: Option<string>)

  /** Table `posting`: one accounting event of a ledger. */
  datatype Posting = Posting(
    id: Id,
    antecedentId: Option<Id>,
    antecedentHash: Option<string>,
    hash: Option<string>,
    hashAlg: Option<string>,
    recordUser: string,
    recordTime: Timestamp,
    oprId: Id,
    oprTime: Option<Timestamp>,
    oprType: Option<string>,
    oprSrc: Option<string>,
    pstTime: Timestamp,
    pstType: PostingType,
    pstStatus: PostingStatus,
    ledgerId: Id,
    valTime: Option<Timestamp>,
    discardedId: Option<Id>,
    discardedTime: Option<Timestamp>,
    oprDetailsId: Option<Id>)

  /** Table `posting_line`: one debit or credit entry against one account. */
  datatype PostingLine = PostingLine(
    id: Id,
    accountId: Id,
    debitAmount: int,
    creditAmount: int,
    detailsId: Option<Id>,
    srcAccount: Option<Id>,
    baseLine: Option<Id>,
    subOprSrcId: Option<Id>,
    recordTime: Timestamp,
    oprId: Id,
    oprSrc: Option<string>,
    pstTime: Timestamp,
    pstType: PostingType,
    pstStatus: PostingStatus,
    hash: string,
    discardedTime: Option<Timestamp>)

  /** Table `posting_trace`: links a target posting to the source posting it came from. */
  datatype PostingTrace = PostingTrace(
    id: Id,
    tgtPstId: Id,
    srcPstId: Id,
    srcPstTime: Option<Timestamp>,
    srcOprId: Id,
    accountId: Id,
    debitAmount: int,
    creditAmount: int,
    srcPstHash: Option<string>)

  // The primary key of each table: no two rows share an id.

  ghost predicate AccountStmtIdsUnique(t: seq<AccountStmt>) {
    forall i, j :: 0 <= i < j < |t| ==> t[i].id != t[j].id
  }

  ghost predicate LedgerAccountIdsUnique(t: seq<LedgerAccount>) {
    forall i, j :: 0 <= i < j < |t| ==> t[i].id != t[j].id
  }

  ghost predicate LedgerIdsUnique(t: seq<Ledger>) {
    forall i, j :: 0 <= i < j < |t| ==> t[i].id != t[j].id
  }

  ghost predicate PostingIdsUnique(t: seq<Posting>) {
    forall i, j :: 0 <= i < j < |t| ==> t[i].id != t[j].id
  }

  ghost predicate PostingLineIdsUnique(t: seq<PostingLine>) {
    forall i, j :: 0 <= i < j < |t| ==> t[i].id != t[j].id
  }

  ghost predicate OpNoteIdsUnique(t: seq<OpNote>) {
    forall i, j :: 0 <= i < j < |t| ==> t[i].id != t[j].id
  }

  ghost predicate PostingTraceIdsUnique(t: seq<PostingTrace>) {
    forall i, j :: 0 <= i < j < |t| ==> t[i].id != t[j].id
  }

  // Uniqueness the store enforces on names.

  /** No two accounts of one ledger share a name. */
  ghost predicate LedgerAccountNamesUnique(t: seq<LedgerAccount>) {
    forall i, j :: 0 <= i < j < |t| ==> t[i].ledgerId != t[j].ledgerId || t[i].name != t[j].name
  }

  /** No two ledgers share a name. */
  ghost predicate LedgerNamesUnique(t: seq<Ledger>) {
    forall i, j :: 0 <= i < j < |t| ==> t[i].name != t[j].name
  }
}
