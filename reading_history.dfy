/** The reading history: the most recently opened surahs, newest first, one
    entry per surah, at most MAX_HISTORY_ITEMS entries. */
module ReadingHistory {
  import opened Collections

  const MAX_HISTORY_ITEMS: nat := 10

  datatype HistoryItem = HistoryItem(
    surahNumber: int,
    surahName: string,
    surahNameArabic: string,
    ayatNumber: Option<int>,
    timestamp: int)

  /** What a caller hands in: a visit without its timestamp. */
  datatype Visit = Visit(
    surahNumber: int,
    surahName: string,
    surahNameArabic: string,
    ayatNumber: Option<int>)

  function Stamp(v: Visit, now: int): (h: HistoryItem)
    ensures h.surahNumber == v.surahNumber && h.surahName == v.surahName
    ensures h.surahNameArabic == v.surahNameArabic && h.ayatNumber == v.ayatNumber
    ensures h.timestamp == now
  {
    HistoryItem(v.surahNumber, v.surahName, v.surahNameArabic, v.ayatNumber, now)
  }

  function SurahOf(h: HistoryItem): int
  {
    h.surahNumber
  }

  /** The filter predicate of addToHistory. */
  function OtherSurah(surahNumber: int): HistoryItem -> bool
  {
    (h: HistoryItem) => h.surahNumber != surahNumber
  }

  /** The history invariant: bounded and one entry per surah. */
  predicate WellFormed(hs: seq<HistoryItem>)
  {
    |hs| <= MAX_HISTORY_ITEMS && DistinctBy(hs, SurahOf)
  }

  /** Newest first: timestamps never increase along the list. */
  predicate NewestFirst(hs: seq<HistoryItem>)
  {
    forall i, j :: 0 <= i < j < |hs| ==> hs[j].timestamp <= hs[i].timestamp
  }

  /** addToHistory's updater: drop the surah's old entry, put a fresh one in
      front, keep the first MAX_HISTORY_ITEMS. */
  function WithVisit(prev: seq<HistoryItem>, v: Visit, now: int): (r: seq<HistoryItem>)
    ensures 1 <= |r| <= MAX_HISTORY_ITEMS
    ensures r[0] == Stamp(v, now)
    ensures forall i :: 1 <= i < |r| ==> r[i].surahNumber != v.surahNumber
    ensures r[1..] == Prefix(Filter(prev, OtherSurah(v.surahNumber)), MAX_HISTORY_ITEMS - 1)
  {
    var filtered := Filter(prev, OtherSurah(v.surahNumber));
    var r := Prefix([Stamp(v, now)] + filtered, MAX_HISTORY_ITEMS);
    assert r[1..] == Prefix(filtered, MAX_HISTORY_ITEMS - 1);
    r
  }

  /** A visit keeps the history well formed. */
  lemma VisitPreservesWellFormed(prev: seq<HistoryItem>, v: Visit, now: int)
    requires DistinctBy(prev, SurahOf)
    ensures WellFormed(WithVisit(prev, v, now))
  {
    var filtered := Filter(prev, OtherSurah(v.surahNumber));
    FilterDistinct(prev, OtherSurah(v.surahNumber), SurahOf);
    var r := WithVisit(prev, v, now);
    var tail := Prefix(filtered, MAX_HISTORY_ITEMS - 1);
    assert r[1..] == tail;
    forall i, j | 0 <= i < j < |r| ensures SurahOf(r[i]) != SurahOf(r[j]) {
      if i > 0 {
        assert r[i] == filtered[i - 1] && r[j] == filtered[j - 1];
      }
    }
  }

  /** With a clock that does not run backwards, a visit keeps the list newest first. */
  lemma VisitPreservesNewestFirst(prev: seq<HistoryItem>, v: Visit, now: int)
    requires NewestFirst(prev)
    requires forall i :: 0 <= i < |prev| ==> prev[i].timestamp <= now
    ensures NewestFirst(WithVisit(prev, v, now))
  {
    var keep := OtherSurah(v.surahNumber);
    var filtered := Filter(prev, keep);
    FilterIsSubsequence(prev, keep);
    SubsequenceOrdered(filtered, prev);
    var r := WithVisit(prev, v, now);
    forall i, j | 0 <= i < j < |r| ensures r[j].timestamp <= r[i].timestamp {
      assert r[j] == filtered[j - 1];
      if i > 0 {
        assert r[i] == filtered[i - 1];
      }
    }
  }

  /** A subsequence of a newest-first list is newest first and keeps its bounds. */
  lemma {:induction false} SubsequenceOrdered(r: seq<HistoryItem>, s: seq<HistoryItem>)
    requires IsSubsequence(r, s)
    requires NewestFirst(s)
    ensures NewestFirst(r)
    ensures forall i :: 0 <= i < |r| ==> exists k :: 0 <= k < |s| && s[k] == r[i]
    decreases |s|
  {
    SubsequenceElements(r, s);
    if r != [] {
      if r[0] == s[0] && IsSubsequence(r[1..], s[1..]) {
        SubsequenceOrdered(r[1..], s[1..]);
        forall j | 1 <= j < |r| ensures r[j].timestamp <= r[0].timestamp {
          assert r[j] == r[1..][j - 1];
          var k :| 0 <= k < |s[1..]| && s[1..][k] == r[j];
          assert s[k + 1] == r[j];
        }
        forall i, j | 0 <= i < j < |r| ensures r[j].timestamp <= r[i].timestamp {
          if i > 0 {
            assert r[i] == r[1..][i - 1] && r[j] == r[1..][j - 1];
          }
        }
      } else {
        SubsequenceOrdered(r, s[1..]);
      }
    }
  }

  function Surahs(hs: seq<HistoryItem>): seq<int>
  {
    seq(|hs|, i requires 0 <= i < |hs| => hs[i].surahNumber)
  }

  /** Opening surah 2, then 5, then 2 again leaves [2, 5], with surah 2 carrying
      the latest time. */
  lemma RevisitExample(name2: string, arabic2: string, name5: string, arabic5: string, t1: int, t2: int, t3: int)
    ensures var v2 := Visit(2, name2, arabic2, None);
            var v5 := Visit(5, name5, arabic5, None);
            var h := WithVisit(WithVisit(WithVisit([], v2, t1), v5, t2), v2, t3);
            Surahs(h) == [2, 5] && h[0].timestamp == t3 && h[1].timestamp == t2
  {
    var v2 := Visit(2, name2, arabic2, None);
    var v5 := Visit(5, name5, arabic5, None);
    var h1 := WithVisit([], v2, t1);
    assert h1 == [Stamp(v2, t1)];
    var h2 := WithVisit(h1, v5, t2);
    assert Filter(h1, OtherSurah(5)) == h1;
    assert h2 == [Stamp(v5, t2), Stamp(v2, t1)];
    assert Filter(h2, OtherSurah(2)) == [Stamp(v5, t2)] by {
      assert h2[1..] == [Stamp(v2, t1)];
      assert Filter(h2[1..], OtherSurah(2)) == [];
    }
    var h3 := WithVisit(h2, v2, t3);
    assert h3 == [Stamp(v2, t3), Stamp(v5, t2)];
  }

  /** The history as the hook holds it. */
  class ReadingLog {
    var history: seq<HistoryItem>

    ghost predicate Valid()
      reads this
    {
      WellFormed(history)
    }

    /** Starts from the stored history (the empty list when nothing is stored). */
    constructor (stored: seq<HistoryItem>)
      requires WellFormed(stored)
      ensures Valid() && history == stored
    {
      history := stored;
    }

    method AddToHistory(v: Visit, now: int)
      requires Valid()
      modifies this
      ensures Valid()
      ensures history == WithVisit(old(history), v, now)
    {
      VisitPreservesWellFormed(history, v, now);
      history := WithVisit(history, v, now);
    }

    method ClearHistory()
      modifies this
      ensures Valid()
      ensures history == []
    {
      history := [];
    }
  }
}
