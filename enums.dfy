/**
 * The closed enumerations of the postings store and their database labels.
 * Each enum is stored in PostgreSQL as a value of a `CREATE TYPE ... AS ENUM`
 * type; the label of a variant is its `db_rename` string, which is not always
 * the variant's own name (`PnLStmt` is stored as "PnL_STMT").
 */
module Enums {
  import opened Wrappers

  // ---------------------------------------------------------------------------
  // AccountCategory
  // ---------------------------------------------------------------------------

  /** Revenue, expense, asset, liability, equity and the three non-operating kinds. */
  datatype AccountCategory = RE | EX | AS | LI | EQ | NOOP | NORE | NOEX

  /** The labels of the SQL type `account_category`, in declaration order. */
  const AccountCategoryLabels: seq<string> := ["RE", "EX", "AS", "LI", "EQ", "NOOP", "NORE", "NOEX"]

  /** Decoding a label read from the database; any other string is rejected. */
  function ParseAccountCategory(s: string): (r: Option<AccountCategory>)
    ensures r.Some? <==> s in AccountCategoryLabels
  {
    match s
    case "RE" => Some(RE)
    case "EX" => Some(EX)
    case "AS" => Some(AS)
    case "LI" => Some(LI)
    case "EQ" => Some(EQ)
    case "NOOP" => Some(NOOP)
    case "NORE" => Some(NORE)
    case "NOEX" => Some(NOEX)
    case _ => None
  }

  /** The `db_rename` label a category is written with. */
  function AccountCategoryLabel(c: AccountCategory): (s: string)
    ensures s in AccountCategoryLabels
    ensures ParseAccountCategory(s) == Some(c)
  {
    match c
    case RE => "RE"
    case EX => "EX"
    case AS => "AS"
    case LI => "LI"
    case EQ => "EQ"
    case NOOP => "NOOP"
    case NORE => "NORE"
    case NOEX => "NOEX"
  }

  /** Whatever decodes re-encodes to the same label. */
  lemma ParseAccountCategoryInverse(s: string)
    ensures ParseAccountCategory(s).Some? ==> AccountCategoryLabel(ParseAccountCategory(s).value) == s
  {
  }

  /** Two categories never share a label. */
  lemma AccountCategoryLabelInjective(a: AccountCategory, b: AccountCategory)
    ensures AccountCategoryLabel(a) == AccountCategoryLabel(b) ==> a == b
  {
    assert ParseAccountCategory(AccountCategoryLabel(a)) == Some(a);
  }

  // ---------------------------------------------------------------------------
  // BalanceSide
  // ---------------------------------------------------------------------------

  /** The side on which an account's balance increases: debit, credit, or both. */
  datatype BalanceSide = Dr | Cr | DrCr

  /** The labels of the SQL type `balance_side`. */
  const BalanceSideLabels: seq<string> := ["Dr", "Cr", "DrCr"]

  function ParseBalanceSide(s: string): (r: Option<BalanceSide>)
    ensures r.Some? <==> s in BalanceSideLabels
  {
    match s
    case "Dr" => Some(Dr)
    case "Cr" => Some(Cr)
    case "DrCr" => Some(DrCr)
    case _ => None
  }

  function BalanceSideLabel(b: BalanceSide): (s: string)
    ensures s in BalanceSideLabels
    ensures ParseBalanceSide(s) == Some(b)
  {
    match b
    case Dr => "Dr"
    case Cr => "Cr"
    case DrCr => "DrCr"
  }

  lemma ParseBalanceSideInverse(s: string)
    ensures ParseBalanceSide(s).Some? ==> BalanceSideLabel(ParseBalanceSide(s).value) == s
  {
  }

  lemma BalanceSideLabelInjective(a: BalanceSide, b: BalanceSide)
    ensures BalanceSideLabel(a) == BalanceSideLabel(b) ==> a == b
  {
    assert ParseBalanceSide(BalanceSideLabel(a)) == Some(a);
  }

  /**
   * The balance side an account of a category normally has, as documented on
   * the category's variants: revenue, liability, equity and non-operating
   * revenue increase on the credit side; expense, asset and non-operating
   * expense on the debit side; non-operating income or expense on both.
   */
  function DefaultBalanceSide(c: AccountCategory): (b: BalanceSide)
    ensures b == Cr <==> c == RE || c == LI || c == EQ || c == NORE
    ensures b == Dr <==> c == EX || c == AS || c == NOEX
    ensures b == DrCr <==> c == NOOP
  {
    match c
    case RE => Cr
    case EX => Dr
    case AS => Dr
    case LI => Cr
    case EQ => Cr
    case NOOP => DrCr
    case NORE => Cr
    case NOEX => Dr
  }

  /** The documented table, read by stored label: which labels default to which side. */
  lemma DefaultBalanceSideByLabel(s: string)
    requires s in AccountCategoryLabels
    ensures DefaultBalanceSide(ParseAccountCategory(s).value) == Cr <==> s in ["RE", "LI", "EQ", "NORE"]
    ensures DefaultBalanceSide(ParseAccountCategory(s).value) == Dr <==> s in ["EX", "AS", "NOEX"]
    ensures DefaultBalanceSide(ParseAccountCategory(s).value) == DrCr <==> s == "NOOP"
  {
  }

  // ---------------------------------------------------------------------------
  // PostingStatus
  // ---------------------------------------------------------------------------

  datatype PostingStatus = DEFERRED | POSTED | PROPOSED | SIMULATED | TAX | UNPOSTED | CANCELLED | OTHER

  /** The labels of the SQL type `posting_status`. */
  const PostingStatusLabels: seq<string> :=
    ["DEFERRED", "POSTED", "PROPOSED", "SIMULATED", "TAX", "UNPOSTED", "CANCELLED", "OTHER"]

  function ParsePostingStatus(s: string): (r: Option<PostingStatus>)
    ensures r.Some? <==> s in PostingStatusLabels
  {
    match s
    case "DEFERRED" => Some(DEFERRED)
    case "POSTED" => Some(POSTED)
    case "PROPOSED" => Some(PROPOSED)
    case "SIMULATED" => Some(PostingStatus.SIMULATED)
    case "TAX" => Some(TAX)
    case "UNPOSTED" => Some(UNPOSTED)
    case "CANCELLED" => Some(CANCELLED)
    case "OTHER" => Some(OTHER)
    case _ => None
  }

  function PostingStatusLabel(p: PostingStatus): (s: string)
    ensures s in PostingStatusLabels
    ensures ParsePostingStatus(s) == Some(p)
  {
    match p
    case DEFERRED => "DEFERRED"
    case POSTED => "POSTED"
    case PROPOSED => "PROPOSED"
    case SIMULATED => "SIMULATED"
    case TAX => "TAX"
    case UNPOSTED => "UNPOSTED"
    case CANCELLED => "CANCELLED"
    case OTHER => "OTHER"
  }

  lemma ParsePostingStatusInverse(s: string)
    ensures ParsePostingStatus(s).Some? ==> PostingStatusLabel(ParsePostingStatus(s).value) == s
  {
  }

  lemma PostingStatusLabelInjective(a: PostingStatus, b: PostingStatus)
    ensures PostingStatusLabel(a) == PostingStatusLabel(b) ==> a == b
  {
    assert ParsePostingStatus(PostingStatusLabel(a)) == Some(a);
  }

  // ---------------------------------------------------------------------------
  // PostingType
  // ---------------------------------------------------------------------------

  /**
   * Business transaction, adjustment transaction, balance statement, profit and
   * loss statement, balance-sheet statement and ledger closing.
   */
  datatype PostingType = BusiTx | AdjTx | BalStmt | PnLStmt | BsStmt | LdgClsng

  /** The labels of the SQL type `posting_type`. */
  const PostingTypeLabels: seq<string> := ["BUSI_TX", "ADJ_TX", "BAL_STMT", "PnL_STMT", "BS_STMT", "LDG_CLSNG"]

  function ParsePostingType(s: string): (r: Option<PostingType>)
    ensures r.Some? <==> s in PostingTypeLabels
  {
    match s
    case "BUSI_TX" => Some(BusiTx)
    case "ADJ_TX" => Some(AdjTx)
    case "BAL_STMT" => Some(BalStmt)
    case "PnL_STMT" => Some(PnLStmt)
    case "BS_STMT" => Some(BsStmt)
    case "LDG_CLSNG" => Some(LdgClsng)
    case _ => None
  }

  function PostingTypeLabel(t: PostingType): (s: string)
    ensures s in PostingTypeLabels
    ensures ParsePostingType(s) == Some(t)
  {
    match t
    case BusiTx => "BUSI_TX"
    case AdjTx => "ADJ_TX"
    case BalStmt => "BAL_STMT"
    case PnLStmt => "PnL_STMT"
    case BsStmt => "BS_STMT"
    case LdgClsng => "LDG_CLSNG"
  }

  lemma ParsePostingTypeInverse(s: string)
    ensures ParsePostingType(s).Some? ==> PostingTypeLabel(ParsePostingType(s).value) == s
  {
  }

  lemma PostingTypeLabelInjective(a: PostingType, b: PostingType)
    ensures PostingTypeLabel(a) == PostingTypeLabel(b) ==> a == b
  {
    assert ParsePostingType(PostingTypeLabel(a)) == Some(a);
  }

  /** The stored labels are the `db_rename` strings, not the variant names. */
  lemma PostingTypeVariantNamesAreNotLabels()
    ensures ParsePostingType("PnLStmt") == None
    ensures ParsePostingType("BusiTx") == None
    ensures ParsePostingType("LdgClsng") == None
  {
  }

  // ---------------------------------------------------------------------------
  // StmtStatus
  // ---------------------------------------------------------------------------

  /** A statement is either still simulated or closed. */
  datatype StmtStatus = SIMULATED | CLOSED

  /** The labels of the SQL type `stmt_status`. */
  const StmtStatusLabels: seq<string> := ["SIMULATED", "CLOSED"]

  function ParseStmtStatus(s: string): (r: Option<StmtStatus>)
    ensures r.Some? <==> s in StmtStatusLabels
  {
    match s
    case "SIMULATED" => Some(StmtStatus.SIMULATED)
    case "CLOSED" => Some(CLOSED)
    case _ => None
  }

  function StmtStatusLabel(t: StmtStatus): (s: string)
    ensures s in StmtStatusLabels
    ensures ParseStmtStatus(s) == Some(t)
  {
    match t
    case SIMULATED => "SIMULATED"
    case CLOSED => "CLOSED"
  }

  lemma ParseStmtStatusInverse(s: string)
    ensures ParseStmtStatus(s).Some? ==> StmtStatusLabel(ParseStmtStatus(s).value) == s
  {
  }

  lemma StmtStatusLabelInjective(a: StmtStatus, b: StmtStatus)
    ensures StmtStatusLabel(a) == StmtStatusLabel(b) ==> a == b
  {
    assert ParseStmtStatus(StmtStatusLabel(a)) == Some(a);
  }
}
