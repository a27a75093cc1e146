/**
 * The day-by-day paginator of the report stream. Dates are day ordinals (see Calendar);
 * the clock's current UTC date is passed in as `today` wherever it is read.
 */
module Pagination {
  import opened Calendar

  function Min(a: int, b: int): int { if a <= b then a else b }

  /**
   * The tokens of the first `n` pages of a paginator that starts at `start`, one per count
   * value 0, 1, ..., n - 1: the reference sequence `get_next` walks along.
   */
  function PageTokens(start: int, n: nat): (r: seq<int>)
    ensures |r| == n
  {
    if n == 0 then [] else PageTokens(start, n - 1) + [start + (n - 1)]
  }

  /** The tokens are consecutive days: no gap and no repeat. */
  lemma {:induction false} PageTokensConsecutive(start: int, n: nat)
    ensures forall i :: 0 <= i < n ==> PageTokens(start, n)[i] == start + i
  {
    if n > 0 {
      PageTokensConsecutive(start, n - 1);
    }
  }

  /** Consequently the tokens strictly increase, and no two pages share a token. */
  lemma PageTokensStrictlyIncrease(start: int, n: nat, i: int, j: int)
    requires 0 <= i < j < n
    ensures PageTokens(start, n)[i] < PageTokens(start, n)[j]
  {
    PageTokensConsecutive(start, n);
  }

  /** Same, for the rendered date texts of pages inside Python's date range. */
  lemma PageTextsDistinct(start: int, n: nat, i: int, j: int)
    requires 0 <= i < j < n && 1 <= start && start + n - 1 <= MaxOrdinal
    ensures 1 <= PageTokens(start, n)[i] <= MaxOrdinal && 1 <= PageTokens(start, n)[j] <= MaxOrdinal
    ensures DateText(PageTokens(start, n)[i]) != DateText(PageTokens(start, n)[j])
  {
    PageTokensConsecutive(start, n);
    var a: DateOrdinal, b: DateOrdinal := start + i, start + j;
    assert PageTokens(start, n)[i] == a && PageTokens(start, n)[j] == b;
    DateTextDistinct(a, b);
  }

  /**
   * `DatePaginator` (a `BaseAPIPaginator` of dates). `currentValue` and `count` are the
   * base class's `current_value` and page counter.
   */
  class DatePaginator {
    const start: DateOrdinal
    const end: DateOrdinal
    var currentValue: int
    var count: nat

    /** The cursor sits `count` days after the start: what the `Advance` protocol keeps. */
    ghost predicate Valid()
      reads this
    {
      currentValue == start + count
    }

    constructor (startValue: DateOrdinal, endValue: DateOrdinal)
      ensures start == startValue && end == endValue
      ensures currentValue == startValue && count == 0
      ensures Valid()
    {
      start := startValue;
      end := endValue;
      currentValue := startValue;
      count := 0;
    }

    /** `has_more`: the bound is the earlier of the end date and the current UTC date. */
    function HasMore(today: int): (r: bool)
      reads this
      ensures r <==> currentValue < end && currentValue < today
      ensures currentValue >= end ==> !r
      ensures currentValue >= today ==> !r
    {
      currentValue < Min(end, today)
    }

    /** `get_next`: the start date moved forward by `count` days. */
    function GetNext(): (r: int)
      reads this
      ensures r == PageTokens(start, count + 1)[count]
      ensures count > 0 ==> r > start
    {
      PageTokensConsecutive(start, count + 1);
      start + count
    }

    /**
     * One step of the base class's `advance` as this model assumes it: the page counter goes
     * up by one and the cursor becomes `get_next()`. `today` is the date `has_more` was checked
     * against before the step; when it held, the new cursor is still at most min(end, today),
     * so the pages never run past the bound.
     */
    method Advance(ghost today: int)
      requires Valid()
      modifies this
      ensures Valid()
      ensures old(HasMore(today)) ==> currentValue <= Min(end, today)
      ensures count == old(count) + 1
      ensures currentValue == old(currentValue) + 1
      ensures currentValue == PageTokens(start, count + 1)[count]
    {
      count := count + 1;
      currentValue := GetNext();
    }
  }

  /** `get_next` depends on the start and the counter only, not on the cursor. */
  lemma GetNextIgnoresCursor(p: DatePaginator, q: DatePaginator)
    requires p.start == q.start && p.count == q.count
    ensures p.GetNext() == q.GetNext()
  {
  }

  /** A range that is empty at the outset (start not before min(end, today)) has no more pages. */
  lemma NoPagesPastBound(p: DatePaginator, today: int)
    requires p.Valid() && p.count == 0 && p.start >= Min(p.end, today)
    ensures !p.HasMore(today)
  {
  }
}
