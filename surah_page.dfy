/** The verse-playback and tafsir state of the surah page: which ayat is
    playing, how "next" and "previous" move through the surah's ayat list, and
    which tafsir text is shown. */
module SurahPage {
  import opened Collections
  import opened QuranTypes

  function HasNumber(nomor: int): Ayat -> bool
  {
    (a: Ayat) => a.nomorAyat == nomor
  }

  /** `ayat.findIndex(a => a.nomorAyat === nomor)`: the first position carrying
      the number, or -1 when none does. */
  function IndexOfAyat(ayat: seq<Ayat>, nomor: int): (r: int)
    ensures -1 <= r < |ayat|
    ensures r == -1 <==> forall i :: 0 <= i < |ayat| ==> ayat[i].nomorAyat != nomor
    ensures 0 <= r ==> ayat[r].nomorAyat == nomor &&
                       forall j :: 0 <= j < r ==> ayat[j].nomorAyat != nomor
  {
    FindIndex(ayat, HasNumber(nomor))
  }

  /** No two ayat of the list share a number. */
  predicate DistinctNumbers(ayat: seq<Ayat>)
  {
    forall i, j :: 0 <= i < j < |ayat| ==> ayat[i].nomorAyat != ayat[j].nomorAyat
  }

  /** handlePlayAudio: pressing play on the playing ayat stops playback,
      pressing it on any other ayat plays that one. */
  function AfterPlay(current: Option<Ayat>, ayat: Ayat): (r: Option<Ayat>)
    ensures current.Some? && current.value.nomorAyat == ayat.nomorAyat ==> r.None?
    ensures !(current.Some? && current.value.nomorAyat == ayat.nomorAyat) ==> r == Some(ayat)
  {
    if current.Some? && current.value.nomorAyat == ayat.nomorAyat then None else Some(ayat)
  }

  /** currentAyatIndex: the playing ayat's position, -1 when nothing plays or
      when the playing ayat is not in the list. */
  function CurrentAyatIndex(ayat: seq<Ayat>, current: Option<Ayat>): (r: int)
    ensures -1 <= r < |ayat|
    ensures current.None? ==> r == -1
    ensures current.Some? ==>
              (r == -1 <==> forall i :: 0 <= i < |ayat| ==> ayat[i].nomorAyat != current.value.nomorAyat)
    ensures current.Some? && 0 <= r ==>
              ayat[r].nomorAyat == current.value.nomorAyat &&
              forall j :: 0 <= j < r ==> ayat[j].nomorAyat != current.value.nomorAyat
  {
    if current.Some? then IndexOfAyat(ayat, current.value.nomorAyat) else -1
  }

  /** The player's "next" button is enabled: the list is not empty, and the
      playing number is either missing from it or found before the last
      position. */
  function HasNext(ayat: seq<Ayat>, current: Option<Ayat>): (r: bool)
    ensures current.None? ==> (r <==> |ayat| > 0)
    ensures current.Some? ==> (r <==> IndexOfAyat(ayat, current.value.nomorAyat) + 1 < |ayat|)
    ensures current.Some? ==>
              (r <==> |ayat| > 0 &&
                      (ayat[|ayat| - 1].nomorAyat != current.value.nomorAyat ||
                       exists k :: 0 <= k < |ayat| - 1 && ayat[k].nomorAyat == current.value.nomorAyat))
  {
    CurrentAyatIndex(ayat, current) < |ayat| - 1
  }

  /** The player's "previous" button is enabled: the playing number is in the
      list, and not first at position 0. */
  function HasPrevious(ayat: seq<Ayat>, current: Option<Ayat>): (r: bool)
    ensures current.None? ==> !r
    ensures current.Some? ==> (r <==> IndexOfAyat(ayat, current.value.nomorAyat) > 0)
    ensures current.Some? ==>
              (r <==> |ayat| > 0 && ayat[0].nomorAyat != current.value.nomorAyat &&
                      exists k :: 0 < k < |ayat| && ayat[k].nomorAyat == current.value.nomorAyat)
  {
    CurrentAyatIndex(ayat, current) > 0
  }

  /** handleNextAyat: nothing without a surah or a playing ayat; otherwise the
      ayat after the playing one's position, when there is one. */
  function AfterNext(surah: Option<SurahDetail>, current: Option<Ayat>): (r: Option<Ayat>)
    ensures surah.None? || current.None? ==> r == current
    ensures surah.Some? && current.Some? ==>
              var i := IndexOfAyat(surah.value.ayat, current.value.nomorAyat);
              if i + 1 < |surah.value.ayat| then r == Some(surah.value.ayat[i + 1]) else r == current
  {
    if surah.None? || current.None? then current
    else
      var nextIndex := IndexOfAyat(surah.value.ayat, current.value.nomorAyat) + 1;
      if nextIndex < |surah.value.ayat| then Some(surah.value.ayat[nextIndex]) else current
  }

  /** handlePreviousAyat: nothing without a surah or a playing ayat; otherwise
      the ayat before the playing one's position, when there is one. */
  function AfterPrevious(surah: Option<SurahDetail>, current: Option<Ayat>): (r: Option<Ayat>)
    ensures surah.None? || current.None? ==> r == current
    ensures surah.Some? && current.Some? ==>
              var i := IndexOfAyat(surah.value.ayat, current.value.nomorAyat);
              if i - 1 >= 0 then r == Some(surah.value.ayat[i - 1]) else r == current
  {
    if surah.None? || current.None? then current
    else
      var prevIndex := IndexOfAyat(surah.value.ayat, current.value.nomorAyat) - 1;
      if prevIndex >= 0 then Some(surah.value.ayat[prevIndex]) else current
  }

  /** The "next" button is enabled exactly when pressing it selects the ayat at
      the following position; otherwise pressing it changes nothing. */
  lemma HasNextAgreesWithNext(surah: SurahDetail, c: Ayat)
    ensures var i := CurrentAyatIndex(surah.ayat, Some(c));
            HasNext(surah.ayat, Some(c)) <==>
              (0 <= i + 1 < |surah.ayat| && AfterNext(Some(surah), Some(c)) == Some(surah.ayat[i + 1]))
    ensures !HasNext(surah.ayat, Some(c)) ==> AfterNext(Some(surah), Some(c)) == Some(c)
  {
  }

  /** The "previous" button is enabled exactly when pressing it selects the
      ayat at the preceding position; otherwise pressing it changes nothing. */
  lemma HasPreviousAgreesWithPrevious(surah: SurahDetail, c: Ayat)
    ensures var i := CurrentAyatIndex(surah.ayat, Some(c));
            HasPrevious(surah.ayat, Some(c)) <==>
              (0 <= i - 1 < |surah.ayat| && AfterPrevious(Some(surah), Some(c)) == Some(surah.ayat[i - 1]))
    ensures !HasPrevious(surah.ayat, Some(c)) ==> AfterPrevious(Some(surah), Some(c)) == Some(c)
  {
  }

  /** When the playing ayat's number is not in the list, "next" jumps to the
      first ayat and "previous" does nothing. */
  lemma UnlistedAyatQuirk(surah: SurahDetail, c: Ayat)
    requires forall i :: 0 <= i < |surah.ayat| ==> surah.ayat[i].nomorAyat != c.nomorAyat
    requires surah.ayat != []
    ensures AfterNext(Some(surah), Some(c)) == Some(surah.ayat[0])
    ensures AfterPrevious(Some(surah), Some(c)) == Some(c)
    ensures HasNext(surah.ayat, Some(c)) && !HasPrevious(surah.ayat, Some(c))
  {
  }

  /** In a list with distinct numbers, the ayat at position k is found at k. */
  lemma IndexOfListed(ayat: seq<Ayat>, k: int)
    requires DistinctNumbers(ayat)
    requires 0 <= k < |ayat|
    ensures IndexOfAyat(ayat, ayat[k].nomorAyat) == k
  {
  }

  /** In a list with distinct numbers, "next" from position k goes to k + 1,
      and "previous" from there comes back to k. */
  lemma NextThenPrevious(surah: SurahDetail, k: int)
    requires DistinctNumbers(surah.ayat)
    requires 0 <= k && k + 1 < |surah.ayat|
    ensures AfterNext(Some(surah), Some(surah.ayat[k])) == Some(surah.ayat[k + 1])
    ensures AfterPrevious(Some(surah), Some(surah.ayat[k + 1])) == Some(surah.ayat[k])
    ensures HasNext(surah.ayat, Some(surah.ayat[k])) && HasPrevious(surah.ayat, Some(surah.ayat[k + 1]))
  {
    IndexOfListed(surah.ayat, k);
    IndexOfListed(surah.ayat, k + 1);
  }

  /** currentTafsirText: the text of the first tafsir entry for the selected
      ayat; nothing while the tafsir is not loaded or no ayat is selected. */
  function TafsirText(tafsir: Option<seq<TafsirAyat>>, selected: Option<int>): (r: Option<string>)
    ensures tafsir.None? || selected.None? ==> r.None?
    ensures tafsir.Some? && selected.Some? ==>
              (r.None? <==> forall i :: 0 <= i < |tafsir.value| ==> tafsir.value[i].ayat != selected.value)
    ensures r.Some? ==>
              (tafsir.Some? && selected.Some? &&
               exists k :: 0 <= k < |tafsir.value| && tafsir.value[k].ayat == selected.value &&
                           tafsir.value[k].teks == r.value &&
                           forall j :: 0 <= j < k ==> tafsir.value[j].ayat != selected.value)
  {
    if tafsir.None? || selected.None? then None
    else
      match Find(tafsir.value, (t: TafsirAyat) => t.ayat == selected.value)
      case None => None
      case Some(t) => Some(t.teks)
  }

  /** The Bismillah banner is hidden exactly for Al-Fatihah (1) and At-Taubah (9). */
  function ShowsBismillah(surahNumber: int): (r: bool)
    ensures !r <==> surahNumber in {1, 9}
  {
    surahNumber != 1 && surahNumber != 9
  }

  /** The page's state slots for playback and tafsir, with the loaded surah and
      tafsir data they are read against. */
  class SurahPageState {
    const surah: Option<SurahDetail>
    const tafsir: Option<seq<TafsirAyat>>
    var currentAyat: Option<Ayat>
    var tafsirAyat: Option<int>

    constructor (surah: Option<SurahDetail>, tafsir: Option<seq<TafsirAyat>>)
      ensures this.surah == surah && this.tafsir == tafsir
      ensures currentAyat.None? && tafsirAyat.None?
    {
      this.surah := surah;
      this.tafsir := tafsir;
      currentAyat := None;
      tafsirAyat := None;
    }

    method HandlePlayAudio(ayat: Ayat)
      modifies this`currentAyat
      ensures currentAyat == AfterPlay(old(currentAyat), ayat)
    {
      if currentAyat.Some? && currentAyat.value.nomorAyat == ayat.nomorAyat {
        currentAyat := None;
      } else {
        currentAyat := Some(ayat);
      }
    }

    method HandleNextAyat()
      modifies this`currentAyat
      ensures currentAyat == AfterNext(surah, old(currentAyat))
    {
      if surah.None? || currentAyat.None? {
        return;
      }
      var nextIndex := IndexOfAyat(surah.value.ayat, currentAyat.value.nomorAyat) + 1;
      if nextIndex < |surah.value.ayat| {
        currentAyat := Some(surah.value.ayat[nextIndex]);
      }
    }

    method HandlePreviousAyat()
      modifies this`currentAyat
      ensures currentAyat == AfterPrevious(surah, old(currentAyat))
    {
      if surah.None? || currentAyat.None? {
        return;
      }
      var prevIndex := IndexOfAyat(surah.value.ayat, currentAyat.value.nomorAyat) - 1;
      if prevIndex >= 0 {
        currentAyat := Some(surah.value.ayat[prevIndex]);
      }
    }

    /** The player's close button. */
    method ClosePlayer()
      modifies this`currentAyat
      ensures currentAyat.None?
    {
      currentAyat := None;
    }

    /** An ayat card's tafsir button. */
    method ShowTafsir(nomorAyat: int)
      modifies this`tafsirAyat
      ensures tafsirAyat == Some(nomorAyat)
    {
      tafsirAyat := Some(nomorAyat);
    }

    /** Closing the tafsir dialog. */
    method CloseTafsir()
      modifies this`tafsirAyat
      ensures tafsirAyat.None?
    {
      tafsirAyat := None;
    }

    method CurrentTafsirText() returns (r: Option<string>)
      ensures r == TafsirText(tafsir, tafsirAyat)
    {
      r := TafsirText(tafsir, tafsirAyat);
    }
  }
}
