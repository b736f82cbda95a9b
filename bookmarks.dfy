/** The bookmark registry: a newest-first list of bookmarked verses, at most
    one per (surah number, ayat number) pair. */
module Bookmarks {
  import opened Collections

  datatype Bookmark = Bookmark(
    surahNumber: int,
    surahName: string,
    surahNameArabic: string,
    ayatNumber: int,
    ayatText: Option<string>,
    timestamp: int)

  /** What a caller hands in: a bookmark without its timestamp. */
  datatype BookmarkDraft = BookmarkDraft(
    surahNumber: int,
    surahName: string,
    surahNameArabic: string,
    ayatNumber: int,
    ayatText: Option<string>)

  /** The identity of a bookmark. */
  function Key(b: Bookmark): (int, int)
  {
    (b.surahNumber, b.ayatNumber)
  }

  function DraftKey(d: BookmarkDraft): (int, int)
  {
    (d.surahNumber, d.ayatNumber)
  }

  /** The draft completed with the creation time. */
  function Stamp(d: BookmarkDraft, now: int): (b: Bookmark)
    ensures Key(b) == DraftKey(d) && b.timestamp == now
    ensures b.surahName == d.surahName && b.surahNameArabic == d.surahNameArabic
    ensures b.ayatText == d.ayatText
  {
    Bookmark(d.surahNumber, d.surahName, d.surahNameArabic, d.ayatNumber, d.ayatText, now)
  }

  /** The registry invariant: no pair is bookmarked twice. */
  predicate UniquePairs(bs: seq<Bookmark>)
  {
    DistinctBy(bs, Key)
  }

  /** The set of bookmarked pairs. */
  function Pairs(bs: seq<Bookmark>): set<(int, int)>
  {
    set b | b in bs :: Key(b)
  }

  /** isBookmarked: some entry carries the pair. */
  function HasPair(bs: seq<Bookmark>, surahNumber: int, ayatNumber: int): (r: bool)
    ensures r <==> exists i :: 0 <= i < |bs| && Key(bs[i]) == (surahNumber, ayatNumber)
    ensures r <==> (surahNumber, ayatNumber) in Pairs(bs)
  {
    Any(bs, b => Key(b) == (surahNumber, ayatNumber))
  }

  /** addBookmark's updater: no change when the pair is present, otherwise the
      stamped draft goes in front of the unchanged list. */
  function WithBookmark(bs: seq<Bookmark>, d: BookmarkDraft, now: int): (r: seq<Bookmark>)
    ensures HasPair(bs, d.surahNumber, d.ayatNumber) ==> r == bs
    ensures !HasPair(bs, d.surahNumber, d.ayatNumber) ==>
              |r| == |bs| + 1 && r[0] == Stamp(d, now) && r[1..] == bs
    ensures Pairs(r) == Pairs(bs) + {DraftKey(d)}
  {
    if HasPair(bs, d.surahNumber, d.ayatNumber) then bs
    else
      var r := [Stamp(d, now)] + bs;
      assert forall b :: b in r <==> b == Stamp(d, now) || b in bs;
      r
  }

  /** The filter predicate of removeBookmark. */
  function KeepOthers(surahNumber: int, ayatNumber: int): Bookmark -> bool
  {
    (b: Bookmark) => !(b.surahNumber == surahNumber && b.ayatNumber == ayatNumber)
  }

  /** removeBookmark's updater: drops the pair, keeps every other entry in order. */
  function WithoutBookmark(bs: seq<Bookmark>, surahNumber: int, ayatNumber: int): (r: seq<Bookmark>)
    ensures !HasPair(r, surahNumber, ayatNumber)
    ensures IsSubsequence(r, bs)
    ensures forall b :: b in bs && Key(b) != (surahNumber, ayatNumber) ==> b in r
    ensures forall b :: Key(b) != (surahNumber, ayatNumber) ==> multiset(r)[b] == multiset(bs)[b]
    ensures Pairs(r) == Pairs(bs) - {(surahNumber, ayatNumber)}
  {
    var keep := KeepOthers(surahNumber, ayatNumber);
    FilterIsSubsequence(bs, keep);
    forall b | Key(b) != (surahNumber, ayatNumber)
      ensures multiset(Filter(bs, keep))[b] == multiset(bs)[b]
    {
      FilterCount(bs, keep, b);
    }
    Filter(bs, keep)
  }

  /** toggleBookmark: remove when present, add otherwise. */
  function Toggled(bs: seq<Bookmark>, d: BookmarkDraft, now: int): (r: seq<Bookmark>)
    ensures HasPair(r, d.surahNumber, d.ayatNumber) <==> !HasPair(bs, d.surahNumber, d.ayatNumber)
    ensures forall s, a :: (s, a) != DraftKey(d) ==> (HasPair(r, s, a) <==> HasPair(bs, s, a))
  {
    if HasPair(bs, d.surahNumber, d.ayatNumber) then WithoutBookmark(bs, d.surahNumber, d.ayatNumber)
    else WithBookmark(bs, d, now)
  }

  /** Adding keeps pairs unique. */
  lemma AddPreservesUnique(bs: seq<Bookmark>, d: BookmarkDraft, now: int)
    requires UniquePairs(bs)
    ensures UniquePairs(WithBookmark(bs, d, now))
  {
    var r := WithBookmark(bs, d, now);
    if !HasPair(bs, d.surahNumber, d.ayatNumber) {
      forall i, j | 0 <= i < j < |r| ensures Key(r[i]) != Key(r[j]) {
        if i == 0 {
          assert r[j] == bs[j - 1];
        } else {
          assert r[i] == bs[i - 1] && r[j] == bs[j - 1];
        }
      }
    }
  }

  /** Removing keeps pairs unique. */
  lemma RemovePreservesUnique(bs: seq<Bookmark>, surahNumber: int, ayatNumber: int)
    requires UniquePairs(bs)
    ensures UniquePairs(WithoutBookmark(bs, surahNumber, ayatNumber))
  {
    SubsequenceDistinct(WithoutBookmark(bs, surahNumber, ayatNumber), bs, Key);
  }

  /** Toggling keeps pairs unique. */
  lemma TogglePreservesUnique(bs: seq<Bookmark>, d: BookmarkDraft, now: int)
    requires UniquePairs(bs)
    ensures UniquePairs(Toggled(bs, d, now))
  {
    if HasPair(bs, d.surahNumber, d.ayatNumber) {
      RemovePreservesUnique(bs, d.surahNumber, d.ayatNumber);
    } else {
      AddPreservesUnique(bs, d, now);
    }
  }

  /** Toggling the same pair twice restores its bookmarked status, and when the
      pair was absent it restores the whole list. */
  lemma ToggleTwice(bs: seq<Bookmark>, d: BookmarkDraft, now1: int, now2: int)
    ensures var r := Toggled(Toggled(bs, d, now1), d, now2);
            HasPair(r, d.surahNumber, d.ayatNumber) == HasPair(bs, d.surahNumber, d.ayatNumber)
    ensures !HasPair(bs, d.surahNumber, d.ayatNumber) ==> Toggled(Toggled(bs, d, now1), d, now2) == bs
  {
    if !HasPair(bs, d.surahNumber, d.ayatNumber) {
      var once := Toggled(bs, d, now1);
      assert once == [Stamp(d, now1)] + bs;
      var keep := KeepOthers(d.surahNumber, d.ayatNumber);
      assert !keep(once[0]);
      FilterKeepsAll(bs, keep);
      assert Filter(once, keep) == Filter(once[1..], keep);
      assert once[1..] == bs;
    }
  }

  /** The registry as the hook holds it: one list, replaced by each update. */
  class BookmarkRegistry {
    var bookmarks: seq<Bookmark>

    ghost predicate Valid()
      reads this
    {
      UniquePairs(bookmarks)
    }

    /** Starts from the stored list (the empty list when nothing is stored). */
    constructor (stored: seq<Bookmark>)
      requires UniquePairs(stored)
      ensures Valid() && bookmarks == stored
    {
      bookmarks := stored;
    }

    method AddBookmark(d: BookmarkDraft, now: int)
      requires Valid()
      modifies this
      ensures Valid()
      ensures bookmarks == WithBookmark(old(bookmarks), d, now)
    {
      AddPreservesUnique(bookmarks, d, now);
      bookmarks := WithBookmark(bookmarks, d, now);
    }

    method RemoveBookmark(surahNumber: int, ayatNumber: int)
      requires Valid()
      modifies this
      ensures Valid()
      ensures bookmarks == WithoutBookmark(old(bookmarks), surahNumber, ayatNumber)
    {
      RemovePreservesUnique(bookmarks, surahNumber, ayatNumber);
      bookmarks := WithoutBookmark(bookmarks, surahNumber, ayatNumber);
    }

    method IsBookmarked(surahNumber: int, ayatNumber: int) returns (r: bool)
      ensures r <==> exists i :: 0 <= i < |bookmarks| && bookmarks[i].surahNumber == surahNumber &&
                                                       bookmarks[i].ayatNumber == ayatNumber
    {
      r := HasPair(bookmarks, surahNumber, ayatNumber);
    }

    method ToggleBookmark(d: BookmarkDraft, now: int)
      requires Valid()
      modifies this
      ensures Valid()
      ensures bookmarks == Toggled(old(bookmarks), d, now)
      ensures HasPair(bookmarks, d.surahNumber, d.ayatNumber) <==> !HasPair(old(bookmarks), d.surahNumber, d.ayatNumber)
    {
      var present := IsBookmarked(d.surahNumber, d.ayatNumber);
      if present {
        RemoveBookmark(d.surahNumber, d.ayatNumber);
      } else {
        AddBookmark(d, now);
      }
    }
  }
}
