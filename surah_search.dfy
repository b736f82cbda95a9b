/** The surah list's search box: a case-insensitive substring match on the
    Latin name, the meaning, or the surah number. */
module SurahSearch {
  import opened Collections
  import opened JsText
  import opened QuranTypes

  /** The match condition, for a query that has already been lower-cased: the
      query occurs somewhere in the lower-cased Latin name, the lower-cased
      meaning, or the decimal surah number. */
  predicate MatchesLowered(s: Surah, query: string): (r: bool)
    ensures r <==> (exists i :: OccursAt(Lower(s.namaLatin), query, i)) ||
                   (exists i :: OccursAt(Lower(s.arti), query, i)) ||
                   (exists i :: OccursAt(IntToString(s.nomor), query, i))
  {
    IncludesLowered(s.namaLatin, query);
    IncludesLowered(s.arti, query);
    Includes(Lower(s.namaLatin), query) ||
    Includes(Lower(s.arti), query) ||
    Includes(IntToString(s.nomor), query)
  }

  function MatchesQuery(query: string): Surah -> bool
  {
    (s: Surah) => MatchesLowered(s, query)
  }

  /** filteredSurahs: nothing before the list has loaded; the whole list for a
      blank query; otherwise, in list order and with their multiplicity, the
      surahs whose lower-cased Latin name, lower-cased meaning or number
      contains the lower-cased query. The query itself is not trimmed before
      matching. */
  function FilteredSurahs(surahs: Option<seq<Surah>>, searchQuery: string): (r: seq<Surah>)
    ensures surahs.None? ==> r == []
    ensures surahs.Some? && IsBlank(searchQuery) ==> r == surahs.value
    ensures surahs.Some? && !IsBlank(searchQuery) ==>
              (forall i :: 0 <= i < |r| ==> MatchesLowered(r[i], Lower(searchQuery))) &&
              (forall s :: MatchesLowered(s, Lower(searchQuery)) ==> multiset(r)[s] == multiset(surahs.value)[s]) &&
              (forall s :: !MatchesLowered(s, Lower(searchQuery)) ==> multiset(r)[s] == 0) &&
              IsSubsequence(r, surahs.value)
  {
    if surahs.None? then []
    else if Trim(searchQuery) == [] then surahs.value
    else
      var query := Lower(searchQuery);
      var keep := MatchesQuery(query);
      FilterIsSubsequence(surahs.value, keep);
      forall s ensures multiset(Filter(surahs.value, keep))[s] == if MatchesLowered(s, query) then multiset(surahs.value)[s] else 0 {
        FilterCount(surahs.value, keep, s);
      }
      Filter(surahs.value, keep)
  }

  /** Typing a surah's number finds that surah. */
  lemma SearchByNumberFinds(surahs: seq<Surah>, s: Surah)
    requires s in surahs
    ensures s in FilteredSurahs(Some(surahs), IntToString(s.nomor))
  {
    var q := IntToString(s.nomor);
    IntToStringPlain(s.nomor);
    LowerFixesNonUpper(q);
    IncludesSelf(q);
    assert MatchesLowered(s, Lower(q));
  }

  /** Typing a surah's Latin name, in any ASCII letter case, finds that surah,
      unless the name is blank. */
  lemma SearchByNameFinds(surahs: seq<Surah>, s: Surah, typed: string)
    requires s in surahs
    requires Lower(typed) == Lower(s.namaLatin)
    requires !IsBlank(typed)
    ensures s in FilteredSurahs(Some(surahs), typed)
  {
    IncludesSelf(Lower(s.namaLatin));
    assert MatchesLowered(s, Lower(typed));
  }

  /** Because the query is not trimmed, a stray space in it (say "fatihah "
      typed for Al-Fatihah) hides every surah whose Latin name and meaning
      contain no space. */
  lemma SpaceInQueryHides(surahs: seq<Surah>, typed: string, s: Surah)
    requires ' ' in typed && !IsBlank(typed)
    requires ' ' !in s.namaLatin && ' ' !in s.arti
    ensures s !in FilteredSurahs(Some(surahs), typed)
  {
    var q := Lower(typed);
    assert ' ' in q by {
      var k :| 0 <= k < |typed| && typed[k] == ' ';
      assert q[k] == AsciiLower(typed[k]);
    }
    NoSpaceNoMatch(s.namaLatin, q);
    NoSpaceNoMatch(s.arti, q);
    IntToStringPlain(s.nomor);
    LowerFixesNonUpper(IntToString(s.nomor));
    NoSpaceNoMatch(IntToString(s.nomor), q);
  }

  /** A query with a space matches no lower-cased field without one. */
  lemma NoSpaceNoMatch(s: string, q: string)
    requires ' ' in q
    requires ' ' !in s
    ensures !Includes(Lower(s), q)
  {
    if Includes(Lower(s), q) {
      IncludesChars(Lower(s), q, ' ');
    }
  }
}
