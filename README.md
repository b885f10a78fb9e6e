# Postings store repositories

A model of the data-access layer of the `postings-repository` crate of
ledgers-postings, a double-entry bookkeeping backend. This layer covers:

- the finder queries its repositories run against PostgreSQL through Diesel;
- the insert of account statements;
- the closed enumerations the tables store (account category, balance side,
  posting status, posting type, statement status) and their database labels.

Each table is a sequence of rows (`Schema`). Each finder is a function from
that sequence to what the SQL query returns. A `first()` query returns an
`Option`; a `load()` query returns a sequence. The finders are built from
four relational building blocks in `Query`:

- `Filter` is SQL `WHERE`;
- `SortDesc` is `ORDER BY ... DESC`;
- `Greatest` and `Least` are `ORDER BY ... LIMIT 1`, descending and ascending;
- `FindFirst` is a bare `LIMIT 1`.

SQL does not fix the order of rows with equal sort keys, and a bare
`LIMIT 1` may return any qualifying row. So each contract promises only what
SQL guarantees:

- a "first" finder returns *some* row with a maximal (or minimal) key;
- a lookup may return any matching row, and it is determined when the
  table's key or unique name constraint holds;
- a `load()` finder holds every qualifying row exactly as often as the table
  does, in key order.

The `account_stmt` table is a class. Its `Save` inserts a row and keeps the
primary key intact.

Modules:

- `Wrappers`: `Option` and `Result`.
- `Enums`: the enums and their label codecs.
- `Schema`: the rows and the key and unique-name predicates.
- `Query`: the building blocks.
- One module per repository of `src/repository/mod.rs`.
- `PostingLineProperties`: properties relating the posting-line scans.

## Model

| member | source | states |
|---|---|---|
| Enums.ParseAccountCategory | postings-repository/src/models/enums.rs:17-39 | a stored string decodes exactly when it is one of the eight `account_category` labels |
| Enums.AccountCategoryLabel | postings-repository/src/models/enums.rs:22-39 | each category is written as its `db_rename` label, and that label decodes back to the category |
| Enums.ParseAccountCategoryInverse | postings-repository/src/models/enums.rs:22-39 | whatever decodes re-encodes to the same string |
| Enums.AccountCategoryLabelInjective | postings-repository/src/models/enums.rs:22-39 | no two categories share a label |
| Enums.DefaultBalanceSide | postings-repository/src/models/enums.rs:24-38 | the documented side of each category: credit exactly for RE, LI, EQ and NORE; debit exactly for EX, AS and NOEX; both exactly for NOOP |
| Enums.DefaultBalanceSideByLabel | postings-repository/src/models/enums.rs:24-38 | by stored label: RE, LI, EQ and NORE default to credit; EX, AS and NOEX to debit; NOOP to both |
| Enums.ParseBalanceSide | postings-repository/src/models/enums.rs:43-54 | a string decodes exactly when it is Dr, Cr or DrCr |
| Enums.BalanceSideLabel | postings-repository/src/models/enums.rs:47-54 | each side is written as its label, which decodes back to it |
| Enums.ParseBalanceSideInverse | postings-repository/src/models/enums.rs:47-54 | whatever decodes re-encodes to the same string |
| Enums.BalanceSideLabelInjective | postings-repository/src/models/enums.rs:47-54 | no two sides share a label |
| Enums.ParsePostingStatus | postings-repository/src/models/enums.rs:56-77 | a string decodes exactly when it is one of the eight `posting_status` labels |
| Enums.PostingStatusLabel | postings-repository/src/models/enums.rs:60-77 | each status is written as its label, which decodes back to it |
| Enums.ParsePostingStatusInverse | postings-repository/src/models/enums.rs:60-77 | whatever decodes re-encodes to the same string |
| Enums.PostingStatusLabelInjective | postings-repository/src/models/enums.rs:60-77 | no two statuses share a label |
| Enums.ParsePostingType | postings-repository/src/models/enums.rs:79-100 | a string decodes exactly when it is one of the six `posting_type` labels |
| Enums.PostingTypeLabel | postings-repository/src/models/enums.rs:83-100 | each type is written as its `db_rename` label, such as "PnL_STMT", which decodes back to it |
| Enums.ParsePostingTypeInverse | postings-repository/src/models/enums.rs:83-100 | whatever decodes re-encodes to the same string |
| Enums.PostingTypeLabelInjective | postings-repository/src/models/enums.rs:83-100 | no two types share a label |
| Enums.PostingTypeVariantNamesAreNotLabels | postings-repository/src/models/enums.rs:85-99 | the Rust variant names (PnLStmt, BusiTx, LdgClsng) are not stored labels and do not decode |
| Enums.ParseStmtStatus | postings-repository/src/models/enums.rs:102-110 | a string decodes exactly when it is SIMULATED or CLOSED |
| Enums.StmtStatusLabel | postings-repository/src/models/enums.rs:105-110 | each statement status is written as its label, which decodes back to it |
| Enums.ParseStmtStatusInverse | postings-repository/src/models/enums.rs:105-110 | whatever decodes re-encodes to the same string |
| Enums.StmtStatusLabelInjective | postings-repository/src/models/enums.rs:105-110 | no two statement statuses share a label |
| Query.Filter | postings-repository/src/repository/mod.rs:147-149 | the result holds each row satisfying the condition as often as the table does, and no other row |
| Query.InsertDesc | postings-repository/src/repository/mod.rs:197 | inserting into a sequence sorted largest key first keeps it sorted and adds exactly the one row |
| Query.SortDesc | postings-repository/src/repository/mod.rs:197-198 | `ORDER BY key DESC`: the result is a permutation of the input, sorted largest key first |
| Query.PrependKeepsOrder | postings-repository/src/repository/mod.rs:197 | a row whose key is at least the head's may be put in front of a sorted sequence |
| Query.Greatest | postings-repository/src/repository/mod.rs:45-47 | `ORDER BY ... DESC LIMIT 1`: nothing exactly for no rows, otherwise a row that no other row exceeds lexicographically |
| Query.Least | postings-repository/src/repository/mod.rs:62-64 | `ORDER BY ... ASC LIMIT 1`: nothing exactly for no rows, otherwise a row that exceeds no other row lexicographically |
| Query.FindFirst | postings-repository/src/repository/mod.rs:93-97 | `LIMIT 1`: a qualifying row of the table, and nothing exactly when no row qualifies |
| AccountStmtRepository.AccountStmtTable.constructor | postings-repository/src/schema.rs:25-45 | a table starts from rows whose ids are distinct |
| AccountStmtRepository.AccountStmtTable.Save | postings-repository/src/repository/mod.rs:27-31 | the insert succeeds exactly when the id is new. On success the row is appended and returned unchanged; on a duplicate id a unique violation is returned and the table is unchanged. The primary key holds afterwards. After a successful insert the new row is the only one with its id; after a refused insert exactly one existing row has that id, which holds because the primary key held before |
| AccountStmtRepository.FindFirstByAccountAndStatusAndPstTimeLessThan | postings-repository/src/repository/mod.rs:34-48 | a statement of the account with that status and `pst_time < refTime`, no other such statement being later by `(pst_time, stmt_seq_nbr)`; nothing exactly when there is none |
| AccountStmtRepository.FindFirstByAccountAndStatusAndPstTimeGte | postings-repository/src/repository/mod.rs:51-65 | a statement of the account with that status and `pst_time >= refTime`, no other such statement being earlier by `(pst_time, stmt_seq_nbr)`; nothing exactly when there is none |
| AccountStmtRepository.BeforeAndAtOrAfterSplit | postings-repository/src/repository/mod.rs:34-65 | both finders return nothing exactly when the account has no statement of that status; when both return one, the first lies strictly before the second |
| AccountStmtRepository.SavedStatementIsCandidate | postings-repository/src/repository/mod.rs:27-48 | once a statement is saved, the latest-before query at a later time returns a statement no earlier than it |
| LedgerAccountRepository.FindById | postings-repository/src/repository/mod.rs:75-84 | an account with the id, nothing exactly when there is none, and the one account when ids are unique |
| LedgerAccountRepository.FindOptionalByLedgerAndName | postings-repository/src/repository/mod.rs:87-98 | an account of the ledger with the name, nothing exactly when there is none, and the one account when names are unique per ledger |
| LedgerRepository.FindById | postings-repository/src/repository/mod.rs:108-114 | a ledger with the id, nothing exactly when there is none, and the one ledger when ids are unique |
| LedgerRepository.FindOptionalByName | postings-repository/src/repository/mod.rs:117-126 | a ledger with the name, nothing exactly when there is none, and the one ledger when names are unique |
| PostingRepository.FindById | postings-repository/src/repository/mod.rs:136-142 | a posting with the id, nothing exactly when there is none, and the one posting when ids are unique |
| PostingRepository.FindByOprId | postings-repository/src/repository/mod.rs:145-150 | every posting of the operation, discarded or not, each as often as the table holds it |
| PostingRepository.FindByOprIdAndDiscardingIdIsNull | postings-repository/src/repository/mod.rs:153-164 | as written: some posting of the operation, discarded or not; nothing exactly when the operation has no posting |
| PostingRepository.DiscardedPostingReturned | postings-repository/src/repository/mod.rs:158-163 | on a table holding one discarded posting, the finder above returns that discarded posting |
| PostingRepository.FindActiveByOprId | postings-repository/src/repository/mod.rs:152-164 | as the name intends: a posting of the operation with no discard marker; nothing exactly when every posting of the operation is discarded; the one active posting when there is at most one per operation |
| PostingRepository.FindFirstByLedgerOrderByRecordTimeDesc | postings-repository/src/repository/mod.rs:167-177 | a posting of the ledger recorded no earlier than any other posting of the ledger; nothing exactly when the ledger has no posting |
| PostingRepository.LaterPostingBecomesHead | postings-repository/src/repository/mod.rs:172-176 | a posting recorded after every other posting of its ledger is the one returned once it is added |
| PostingLineRepository.FindPostingsByAccountAndDates | postings-repository/src/repository/mod.rs:186-199 | exactly the live lines of the account with `from < pst_time <= to`, each as often as the table holds it, latest posting time first |
| PostingLineRepository.FindFirstByIdAndAccount | postings-repository/src/repository/mod.rs:202-212 | a line with the id that belongs to the account, nothing exactly when there is none, and the one line when ids are unique |
| PostingLineRepository.FindByAccountAndPstTimeLteAndDiscardedIsNull | postings-repository/src/repository/mod.rs:218-229 | exactly the live lines of the account posted at or before `refTime`, each as often as the table holds it, latest recorded first |
| PostingLineRepository.FindByBaseLineAndPstTimeLteAndDiscardedIsNull | postings-repository/src/repository/mod.rs:235-246 | exactly the live lines with that base line posted at or before `refTime`, each as often as the table holds it, latest recorded first |
| PostingLineProperties.DiscardedLineInvisible | postings-repository/tests/posting_line_repository_test.rs:171-183 | adding a discarded line to the table changes the result of none of the three scans |
| PostingLineProperties.DiscardedLineInvisibleInDates | postings-repository/src/repository/mod.rs:196 | adding a discarded line leaves the date-range scan's rows unchanged |
| PostingLineProperties.DiscardedLineInvisibleByAccount | postings-repository/src/repository/mod.rs:226 | adding a discarded line leaves the account scan's rows unchanged |
| PostingLineProperties.DiscardedLineInvisibleByBaseLine | postings-repository/src/repository/mod.rs:243 | adding a discarded line leaves the base-line scan's rows unchanged |
| PostingLineProperties.DatesScanSplit | postings-repository/src/repository/mod.rs:194-195 | the ranges `(t0, t1]` and `(t1, t2]` together return exactly the rows of `(t0, t2]` |
| PostingLineProperties.DatesScanWithinRefTimeScan | postings-repository/src/repository/mod.rs:192-228 | every row of a date-range scan is also returned, at least as often, by the account scan up to the range's end |
| PostingLineProperties.DatesScanOrdersTwoLines | postings-repository/tests/posting_line_repository_test.rs:68-76 | two live lines in the range come back latest posting time first, and a discarded line in the range is left out |
| PostingLineProperties.ScanOfThreeHoldsTwo | postings-repository/tests/posting_line_repository_test.rs:68 | the scan of those three lines holds exactly the two live ones |
| PostingLineProperties.TwoRowsByPstTime | postings-repository/src/repository/mod.rs:197 | a sequence sorted by posting time that holds two lines with different times is the later one followed by the earlier one |
| LedgerStmtRepository.FindFirstByLedgerAndStatusAndPstTimeLte | postings-repository/src/repository/mod.rs:256-270 | a statement of the ledger with that status and `pst_time <= refTime`, no other such statement being later by `(pst_time, stmt_seq_nbr)`; nothing exactly when there is none |
| LedgerStmtRepository.StatementAtRefTimeFound | postings-repository/src/repository/mod.rs:263-269 | queried at a statement's own posting time, the `<=` bound finds a statement with that same posting time and a sequence number no smaller |
| OpNoteRepository.FindById | postings-repository/src/repository/mod.rs:280-286 | a note with the id, nothing exactly when there is none, and the one note when ids are unique |
| PostingTraceRepository.FindById | postings-repository/src/repository/mod.rs:296-302 | a trace with the id, nothing exactly when there is none, and the one trace when ids are unique |

## Left out

- The PostgreSQL connection, Diesel's query building and driver errors.
  - A query is a function of the table.
  - A failed connection is not modelled.
  - `Save` reports only the primary-key violation.
- AccountStmtRepository.AccountStmtTable.Save: the row returned is the row given, with its instants already at microsecond precision. A chrono `NaiveDateTime` with nanoseconds (such as `Utc::now().naive_utc()`) is truncated to microseconds when written, so the program returns a row that differs from its input in those digits; that truncation is not modelled.
- Foreign-key, check and unique-name rejections of an insert are not modelled.
  - Name uniqueness enters only as a hypothesis of the lookup contracts.
- AccountStmtRepository.AccountStmtTable.Save: the insert takes a `NewAccountStmt` in the source. It is modelled as a full `AccountStmt` row whose id the caller chooses. Database-side defaults are not modelled.
- Column types are simplified:
  - a `Timestamp` column is an integer instant, counted in the microseconds PostgreSQL stores;
  - a `Numeric` amount is an integer;
  - `Int4` is an unbounded integer.
  - No query does arithmetic on these, so only their order and equality matter.
- The exact order among rows with equal sort keys is not modelled, nor which row a bare `LIMIT 1` picks, since the database leaves both unspecified.
  - That is why the `load()` finders' lemmas state equality of row multisets rather than of sequences.
  - In the same way, `DatesScanOrdersTwoLines` fixes the order only for lines with different posting times.
- `Enums.DefaultBalanceSide` models the balance side documented next to each category. The code does not enforce that side: a ledger account's `balance_side` column is stored independently of its `category`.
- JSON serialisation of the enums (serde derives) is not modelled. Only the database labels are.
- Hash chaining, balance computation, checkpoint creation and discard-and-replace appear nowhere in the modelled code. Only the columns they would use are present (`hash`, `antecedent_hash`, `discarded_id`, the statement tables), so they are not modelled.
- The chart-of-account repository and the ledger-account insert exercised by the tests are not part of this model, because they are not in `src/repository/mod.rs`.

## Findings

| source | as written | input that shows it | evidently intended | confidence | as-written member | corrected member |
|---|---|---|---|---|---|---|
| postings-repository/src/repository/mod.rs:153-164 | the `discarding_id IS NULL` filter is commented out, so the query returns any posting of the operation | a table holding one posting of the operation whose `discarded_id` is set: that discarded posting is returned | return only a posting of the operation whose `discarded_id` is null (the column read as the one the filter meant, see below) | medium, not executed | PostingRepository.DiscardedPostingReturned | PostingRepository.FindActiveByOprId |

The commented-out filter names a column `discarding_id`, which the
`posting` table (postings-repository/src/schema.rs:131-157) does not have.
This model reads the marker that filter meant as `discarded_id`
(postings-repository/src/schema.rs:153), the only discard id on `posting`,
and the corrected finder filters on it. The comment beside the filter
(postings-repository/src/repository/mod.rs:160) asks for another way to
select the last record, which supports reading the filter's purpose as
picking the operation's current posting.
