/** The content shapes the Quran API returns: surahs, ayat and tafsir. */
module QuranTypes {

  /** Audio URLs of one recitation, one per reciter ("01" to "05"). */
  datatype AudioQari = AudioQari(q01: string, q02: string, q03: string, q04: string, q05: string)

  datatype RevelationPlace = Mekah | Madinah

  datatype Surah = Surah(
    nomor: int,
    nama: string,
    namaLatin: string,
    jumlahAyat: int,
    tempatTurun: RevelationPlace,
    arti: string,
    deskripsi: string,
    audioFull: AudioQari)

  datatype Ayat = Ayat(
    nomorAyat: int,
    teksArab: string,
    teksLatin: string,
    teksIndonesia: string,
    audio: AudioQari)

  /** Link to the previous or next surah. */
  datatype SurahNav = SurahNav(nomor: int, nama: string, namaLatin: string, jumlahAyat: int)

  /** A surah together with its verses and its neighbours. */
  datatype SurahDetail = SurahDetail(
    info: Surah,
    ayat: seq<Ayat>,
    suratSelanjutnya: Nav,
    suratSebelumnya: Nav)

  datatype Nav = NoNav | HasNav(nav: SurahNav)

  datatype TafsirAyat = TafsirAyat(ayat: int, teks: string)
}
