/**
 * Properties relating the posting-line scans to each other and to changes of
 * the table, stated over the scans' results.
 */
module PostingLineProperties {
  import opened Schema
  import opened Query
  import opened PostingLineRepository

  /** Adding a discarded line changes none of the three scans. */
  lemma DiscardedLineInvisible(table: seq<PostingLine>, d: PostingLine, key: Id, from: Timestamp, to: Timestamp)
    requires d.discardedTime.Some?
    ensures multiset(FindPostingsByAccountAndDates(table + [d], key, from, to))
         == multiset(FindPostingsByAccountAndDates(table, key, from, to))
    ensures multiset(FindByAccountAndPstTimeLteAndDiscardedIsNull(table + [d], key, to))
         == multiset(FindByAccountAndPstTimeLteAndDiscardedIsNull(table, key, to))
    ensures multiset(FindByBaseLineAndPstTimeLteAndDiscardedIsNull(table + [d], key, to))
         == multiset(FindByBaseLineAndPstTimeLteAndDiscardedIsNull(table, key, to))
  {
    DiscardedLineInvisibleInDates(table, d, key, from, to);
    DiscardedLineInvisibleByAccount(table, d, key, to);
    DiscardedLineInvisibleByBaseLine(table, d, key, to);
  }

  lemma DiscardedLineInvisibleInDates(table: seq<PostingLine>, d: PostingLine, accountId: Id, from: Timestamp, to: Timestamp)
    requires d.discardedTime.Some?
    ensures multiset(FindPostingsByAccountAndDates(table + [d], accountId, from, to))
         == multiset(FindPostingsByAccountAndDates(table, accountId, from, to))
  {
    var a := multiset(FindPostingsByAccountAndDates(table + [d], accountId, from, to));
    var b := multiset(FindPostingsByAccountAndDates(table, accountId, from, to));
    forall l ensures a[l] == b[l] {
      assert multiset(table + [d]) == multiset(table) + multiset{d};
    }
    MultisetExt(a, b);
  }

  lemma DiscardedLineInvisibleByAccount(table: seq<PostingLine>, d: PostingLine, accountId: Id, refTime: Timestamp)
    requires d.discardedTime.Some?
    ensures multiset(FindByAccountAndPstTimeLteAndDiscardedIsNull(table + [d], accountId, refTime))
         == multiset(FindByAccountAndPstTimeLteAndDiscardedIsNull(table, accountId, refTime))
  {
    var a := multiset(FindByAccountAndPstTimeLteAndDiscardedIsNull(table + [d], accountId, refTime));
    var b := multiset(FindByAccountAndPstTimeLteAndDiscardedIsNull(table, accountId, refTime));
    forall l ensures a[l] == b[l] {
      assert multiset(table + [d]) == multiset(table) + multiset{d};
    }
    MultisetExt(a, b);
  }

  lemma DiscardedLineInvisibleByBaseLine(table: seq<PostingLine>, d: PostingLine, baseLine: Id, refTime: Timestamp)
    requires d.discardedTime.Some?
    ensures multiset(FindByBaseLineAndPstTimeLteAndDiscardedIsNull(table + [d], baseLine, refTime))
         == multiset(FindByBaseLineAndPstTimeLteAndDiscardedIsNull(table, baseLine, refTime))
  {
    var a := multiset(FindByBaseLineAndPstTimeLteAndDiscardedIsNull(table + [d], baseLine, refTime));
    var b := multiset(FindByBaseLineAndPstTimeLteAndDiscardedIsNull(table, baseLine, refTime));
    forall l ensures a[l] == b[l] {
      assert multiset(table + [d]) == multiset(table) + multiset{d};
    }
    MultisetExt(a, b);
  }

  /** Adjacent date ranges split the scan of their union. */
  lemma DatesScanSplit(table: seq<PostingLine>, accountId: Id, t0: Timestamp, t1: Timestamp, t2: Timestamp)
    requires t0 <= t1 <= t2
    ensures multiset(FindPostingsByAccountAndDates(table, accountId, t0, t2))
         == multiset(FindPostingsByAccountAndDates(table, accountId, t0, t1))
          + multiset(FindPostingsByAccountAndDates(table, accountId, t1, t2))
  {
    var whole := multiset(FindPostingsByAccountAndDates(table, accountId, t0, t2));
    var early := multiset(FindPostingsByAccountAndDates(table, accountId, t0, t1));
    var late := multiset(FindPostingsByAccountAndDates(table, accountId, t1, t2));
    forall l ensures whole[l] == (early + late)[l] {
    }
    MultisetExt(whole, early + late);
  }

  /** A date-range scan returns a part of the scan of everything posted up to its end. */
  lemma DatesScanWithinRefTimeScan(table: seq<PostingLine>, accountId: Id, from: Timestamp, to: Timestamp)
    ensures multiset(FindPostingsByAccountAndDates(table, accountId, from, to))
         <= multiset(FindByAccountAndPstTimeLteAndDiscardedIsNull(table, accountId, to))
  {
    var scan := FindPostingsByAccountAndDates(table, accountId, from, to);
    var upTo := FindByAccountAndPstTimeLteAndDiscardedIsNull(table, accountId, to);
    forall l ensures multiset(scan)[l] <= multiset(upTo)[l] {
    }
  }

  /**
   * Two live lines of an account in the range come back latest posting time
   * first, and a discarded line in the same range is left out.
   */
  lemma DatesScanOrdersTwoLines(l1: PostingLine, l2: PostingLine, l5: PostingLine, accountId: Id, from: Timestamp, to: Timestamp)
    requires l1.accountId == accountId && l2.accountId == accountId && l5.accountId == accountId
    requires from < l1.pstTime < l2.pstTime <= to && from < l5.pstTime <= to
    requires l1.discardedTime.None? && l2.discardedTime.None? && l5.discardedTime.Some?
    ensures FindPostingsByAccountAndDates([l1, l2, l5], accountId, from, to) == [l2, l1]
  {
    var r := FindPostingsByAccountAndDates([l1, l2, l5], accountId, from, to);
    ScanOfThreeHoldsTwo(l1, l2, l5, accountId, from, to);
    TwoRowsByPstTime(r, l1, l2);
  }

  /** The scan of the three-line table holds exactly the two live lines. */
  lemma ScanOfThreeHoldsTwo(l1: PostingLine, l2: PostingLine, l5: PostingLine, accountId: Id, from: Timestamp, to: Timestamp)
    requires l1.accountId == accountId && l2.accountId == accountId
    requires from < l1.pstTime <= to && from < l2.pstTime <= to
    requires l1.discardedTime.None? && l2.discardedTime.None? && l5.discardedTime.Some?
    ensures multiset(FindPostingsByAccountAndDates([l1, l2, l5], accountId, from, to)) == multiset{l1, l2}
  {
    var r := FindPostingsByAccountAndDates([l1, l2, l5], accountId, from, to);
    forall l ensures multiset(r)[l] == multiset{l1, l2}[l] {
      assert multiset([l1, l2, l5]) == multiset{l1, l2, l5};
    }
    MultisetExt(multiset(r), multiset{l1, l2});
  }

  /** A sequence holding two lines once each, later posting time first, is that pair in order. */
  lemma TwoRowsByPstTime(r: seq<PostingLine>, l1: PostingLine, l2: PostingLine)
    requires multiset(r) == multiset{l1, l2}
    requires l1.pstTime < l2.pstTime
    requires forall i, j :: 0 <= i < j < |r| ==> r[i].pstTime >= r[j].pstTime
    ensures r == [l2, l1]
  {
    assert |r| == |multiset(r)| == 2;
    assert r == [r[0]] + [r[1]];
    assert multiset(r) == multiset{r[0], r[1]};
    assert r[0].pstTime >= r[1].pstTime;
  }
}
