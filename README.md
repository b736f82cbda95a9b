# quranverse-explorer: state and list logic, modelled in Dafny

quranverse-explorer is a Quran reader web app. It lists the 114 surahs with a
search box, shows a surah's ayat with per-verse audio playback and tafsir,
keeps bookmarks, a reading history and display settings in the browser's
local storage, and shows daily prayer times (shalat) for a chosen or detected
city. This project models the logic of that app that decides what its state
becomes and which list it shows:

- `bookmarks.dfy` (`Bookmarks`): the bookmark list of `useBookmarks`. Add,
  remove, toggle and look up a bookmark, keyed by (surah number, ayat
  number). The class `BookmarkRegistry` holds the list and keeps the pairs
  unique.
- `reading_history.dfy` (`ReadingHistory`): the reading history of
  `useReadingHistory`. A surah goes to the front, its older entry is dropped,
  and the list is cut to `MAX_HISTORY_ITEMS` (10). The class `ReadingLog`
  holds the history.
- `settings.dfy` (`Settings`): the settings record of `useSettings`.
  `updateSetting` changes one field, `resetSettings` restores the defaults,
  and the theme effect puts exactly one of `light`/`dark` on the document
  root (`DocumentRoot`, `SettingsStore`).
- `surah_page.dfy` (`SurahPage`): the playback and tafsir state of the surah
  page. It covers play/stop, next/previous ayat by position in the list, the
  enabled state of the player's buttons, the tafsir text shown for a
  selected ayat, and when the Bismillah banner is shown.
- `surah_search.dfy` (`SurahSearch`): the surah list's search filter.
- `shalat.dfy` (`Shalat`): the prayer-times page's city handling. It covers
  the saved-city fallback, the save effect, the nearest-city scan loop
  (a method with a loop, proved against the function `Scan`), the city
  search list, and choosing a city by hand.
- `collections.dfy` (`Collections`) and `jstext.dfy` (`JsText`): the
  JavaScript built-ins the code relies on, as specified functions:
  - `Array.prototype.filter`, `some`, `findIndex`, `find` and `slice(0, n)`
  - `String.prototype.trim`, `toLowerCase` and `includes`
  - `Number.prototype.toString`
- `quran_types.dfy` (`QuranTypes`): the API records (surah, ayat, tafsir).

React state is modelled as class fields. A functional updater
(`setX(prev => …)`) is a pure function of the previous value. The class
method assigns that function's result and states the invariant it keeps.
`Date.now()`, the geolocation position, the colour-scheme media query,
`JSON.parse`/`JSON.stringify` and the distance formula are parameters.

## Model

| member | source | states |
|---|---|---|
| Collections.Filter | src/hooks/useBookmarks.ts:29-31 | the result is no longer than the input; every kept element passes the predicate and comes from the input; every input element that passes is kept |
| Collections.FilterCount | src/hooks/useReadingHistory.ts:20 | filtering keeps every passing element with its full multiplicity and drops every failing one |
| Collections.FilterIsSubsequence | src/pages/Index.tsx:24-29 | the filtered list is the input with elements deleted, order preserved |
| Collections.FilterKeepsAll | src/hooks/useBookmarks.ts:29-31 | when every element passes, filtering returns the list unchanged |
| Collections.SubsequenceDistinct | src/hooks/useBookmarks.ts:29-31 | deleting elements cannot create a duplicate key |
| Collections.FilterDistinct | src/hooks/useReadingHistory.ts:20 | a filtered list of distinct keys has distinct keys |
| Collections.PrefixOfSubsequence | src/pages/ShalatPage.tsx:141-143 | cutting a subsequence to its first n elements leaves a subsequence |
| Collections.Any | src/hooks/useBookmarks.ts:35-37 | `some` is true exactly when some element satisfies the predicate |
| Collections.FindIndex | src/pages/SurahPage.tsx:50 | `findIndex` is -1 exactly when nothing matches; otherwise it is the first matching position |
| Collections.Find | src/pages/SurahPage.tsx:64 | `find` is empty exactly when nothing matches; otherwise it is the first matching element |
| Collections.Prefix | src/hooks/useReadingHistory.ts:26 | `slice(0, n)` has length min(length, n) and is a prefix of the input |
| JsText.Trim | src/pages/Index.tsx:21 | the trimmed string is the slice of the input between a blank prefix and a blank suffix (JavaScript white space and line terminators); it is empty exactly when the input is all blank, and otherwise starts and ends with a non-blank character |
| JsText.Lower | src/pages/Index.tsx:23 | lower-casing keeps the length, maps each character independently and leaves no upper-case letter |
| JsText.Includes | src/pages/Index.tsx:26-28 | `includes` is true exactly when the query occurs at some position of the string |
| JsText.IncludesSelf | src/pages/Index.tsx:26-28 | every string includes itself |
| JsText.IncludesChars | src/pages/Index.tsx:26-28 | every character of an included query occurs in the string |
| JsText.NatDigits | src/pages/Index.tsx:28 | a natural number prints as a non-empty digit string with no leading zero; 0 prints as exactly "0" |
| JsText.DecimalRoundTrip | src/pages/Index.tsx:28 | reading back the printed digits gives the number |
| JsText.IntToString | src/pages/Index.tsx:28 | `nomor.toString()` is a digit string that reads back as the number, with a minus sign for negatives and no leading zero; 0 prints as exactly "0" and no other number starts with '0' |
| JsText.IntToStringPlain | src/pages/Index.tsx:28 | a printed number is not blank and has no upper-case letter |
| Bookmarks.Stamp | src/hooks/useBookmarks.ts:24 | the stored bookmark is the draft with the given creation time |
| Bookmarks.HasPair | src/hooks/useBookmarks.ts:34-38 | isBookmarked is true exactly when some entry carries the (surah, ayat) pair |
| Bookmarks.WithBookmark | src/hooks/useBookmarks.ts:16-26 | a present pair leaves the list as it is; otherwise the stamped bookmark goes in front of the unchanged list; either way the pair set gains the draft's pair |
| Bookmarks.WithoutBookmark | src/hooks/useBookmarks.ts:28-32 | after removal the pair is absent; every other entry stays, in order and with its multiplicity; the pair set loses exactly that pair |
| Bookmarks.Toggled | src/hooks/useBookmarks.ts:40-46 | toggling flips the pair's bookmarked status and no other pair's |
| Bookmarks.AddPreservesUnique | src/hooks/useBookmarks.ts:19-24 | adding keeps every pair bookmarked at most once |
| Bookmarks.RemovePreservesUnique | src/hooks/useBookmarks.ts:29-31 | removing keeps every pair bookmarked at most once |
| Bookmarks.TogglePreservesUnique | src/hooks/useBookmarks.ts:40-46 | toggling keeps every pair bookmarked at most once |
| Bookmarks.ToggleTwice | src/hooks/useBookmarks.ts:40-46 | toggling twice restores the pair's status; when the pair was absent, it restores the whole list |
| Bookmarks.BookmarkRegistry.constructor | src/hooks/useBookmarks.ts:14 | the registry starts from the stored list (empty when nothing is stored) and is valid |
| Bookmarks.BookmarkRegistry.AddBookmark | src/hooks/useBookmarks.ts:16-26 | the list becomes the add updater's result, and pairs stay unique |
| Bookmarks.BookmarkRegistry.RemoveBookmark | src/hooks/useBookmarks.ts:28-32 | the list becomes the remove updater's result, and pairs stay unique |
| Bookmarks.BookmarkRegistry.IsBookmarked | src/hooks/useBookmarks.ts:34-38 | true exactly when some stored bookmark has that surah and ayat number |
| Bookmarks.BookmarkRegistry.ToggleBookmark | src/hooks/useBookmarks.ts:40-46 | removes when bookmarked, adds otherwise; the pair's status flips and pairs stay unique |
| ReadingHistory.Stamp | src/hooks/useReadingHistory.ts:23 | the stored entry is the visit with the given time |
| ReadingHistory.WithVisit | src/hooks/useReadingHistory.ts:17-28 | the new history has 1 to 10 entries; the visit, stamped now, is first; no later entry has its surah; the rest is the old history without that surah, cut to 9 |
| ReadingHistory.VisitPreservesWellFormed | src/hooks/useReadingHistory.ts:20-26 | after a visit, the history has at most 10 entries and at most one per surah |
| ReadingHistory.VisitPreservesNewestFirst | src/hooks/useReadingHistory.ts:20-26 | with a clock that does not go back, a visit keeps timestamps non-increasing along the list |
| ReadingHistory.SubsequenceOrdered | src/hooks/useReadingHistory.ts:20 | dropping entries from a newest-first list leaves it newest first |
| ReadingHistory.RevisitExample | src/hooks/useReadingHistory.ts:17-28 | opening surah 2, then 5, then 2 gives surahs [2, 5], with surah 2 carrying the latest time |
| ReadingHistory.ReadingLog.constructor | src/hooks/useReadingHistory.ts:15 | the history starts from the stored list (empty when nothing is stored) and is well formed |
| ReadingHistory.ReadingLog.AddToHistory | src/hooks/useReadingHistory.ts:17-28 | the history becomes the visit updater's result and stays well formed |
| ReadingHistory.ReadingLog.ClearHistory | src/hooks/useReadingHistory.ts:30-32 | the history becomes empty, which is well formed |
| Settings.Merged | src/hooks/useSettings.ts:23-25 | the updated key holds the new value, and every other field keeps its value |
| Settings.Extensionality | src/hooks/useSettings.ts:4-10 | two settings records that agree on every key are equal |
| Settings.MergeIdempotent | src/hooks/useSettings.ts:24 | repeating the same updateSetting call changes nothing more |
| Settings.MergeCommutes | src/hooks/useSettings.ts:24 | updates of different keys can be applied in either order |
| Settings.LastWriteWins | src/hooks/useSettings.ts:24 | after a series of updates, each field holds the last value written to it, or its old value if none was written |
| Settings.ResolvedMode | src/hooks/useSettings.ts:36-41 | the mode is "light" or "dark"; it is "dark" exactly for the dark theme, or for the system theme when dark is preferred |
| Settings.ThemeApplied | src/hooks/useSettings.ts:34-41 | after the theme effect, exactly one mode class is present, and it is the resolved mode; every other class is untouched |
| Settings.DocumentRoot.Remove | src/hooks/useSettings.ts:34 | removes the named classes |
| Settings.DocumentRoot.Add | src/hooks/useSettings.ts:36-41 | adds the class |
| Settings.DocumentRoot.ApplyTheme | src/hooks/useSettings.ts:32-42 | the class list becomes the theme-applied list |
| Settings.SettingsStore.constructor | src/hooks/useSettings.ts:21 | starts from the stored record, or the defaults when there is none, and runs the theme effect once |
| Settings.SettingsStore.ThemeChanged | src/hooks/useSettings.ts:42 | the effect runs only when the theme value changed; the root keeps one mode class |
| Settings.SettingsStore.UpdateSetting | src/hooks/useSettings.ts:23-25 | the record becomes the merged record; the root is re-themed exactly when the theme changed |
| Settings.SettingsStore.ResetSettings | src/hooks/useSettings.ts:27-29 | the record becomes the defaults; the root is re-themed exactly when the old theme was not "system" |
| SurahPage.IndexOfAyat | src/pages/SurahPage.tsx:50 | the first position with the ayat number, or -1 exactly when no ayat has it |
| SurahPage.AfterPlay | src/pages/SurahPage.tsx:40-46 | pressing play on the playing ayat's number stops playback; any other ayat starts playing |
| SurahPage.CurrentAyatIndex | src/pages/SurahPage.tsx:105-107 | -1 with nothing playing; otherwise the first position carrying the playing number, and -1 exactly when no ayat carries it |
| SurahPage.HasNext | src/pages/SurahPage.tsx:215 | "next" is enabled exactly when the found position plus one is inside the list: the list is non-empty and the playing number is missing from it or occurs before the last position |
| SurahPage.HasPrevious | src/pages/SurahPage.tsx:216 | "previous" is never enabled with nothing playing; otherwise exactly when the found position is above 0: the number is in the list but not at position 0 |
| SurahPage.AfterNext | src/pages/SurahPage.tsx:48-54 | without a surah or a playing ayat nothing changes; otherwise the ayat after the found position plays, if there is one |
| SurahPage.AfterPrevious | src/pages/SurahPage.tsx:56-62 | without a surah or a playing ayat nothing changes; otherwise the ayat before the found position plays, if there is one |
| SurahPage.HasNextAgreesWithNext | src/pages/SurahPage.tsx:215 | "next" is enabled exactly when pressing it moves to the following position; otherwise pressing it changes nothing |
| SurahPage.HasPreviousAgreesWithPrevious | src/pages/SurahPage.tsx:216 | "previous" is enabled exactly when pressing it moves to the preceding position; otherwise pressing it changes nothing |
| SurahPage.UnlistedAyatQuirk | src/pages/SurahPage.tsx:50-60 | when the playing number is not in the list, "next" jumps to the first ayat and "previous" does nothing |
| SurahPage.IndexOfListed | src/pages/SurahPage.tsx:50 | with distinct numbers, the ayat at position k is found at k |
| SurahPage.NextThenPrevious | src/pages/SurahPage.tsx:48-62 | with distinct numbers, "next" then "previous" returns to the same ayat, and both buttons are enabled on the way |
| SurahPage.TafsirText | src/pages/SurahPage.tsx:64 | no text while the tafsir is unloaded or nothing is selected; otherwise the text of the first entry for the selected ayat, none exactly when no entry has it |
| SurahPage.ShowsBismillah | src/pages/SurahPage.tsx:181 | the banner is hidden exactly for surahs 1 and 9 |
| SurahPage.SurahPageState.constructor | src/pages/SurahPage.tsx:26-27 | nothing plays and no tafsir is open |
| SurahPage.SurahPageState.HandlePlayAudio | src/pages/SurahPage.tsx:40-46 | the playing ayat becomes the play updater's result |
| SurahPage.SurahPageState.HandleNextAyat | src/pages/SurahPage.tsx:48-54 | the playing ayat becomes the "next" result |
| SurahPage.SurahPageState.HandlePreviousAyat | src/pages/SurahPage.tsx:56-62 | the playing ayat becomes the "previous" result |
| SurahPage.SurahPageState.ClosePlayer | src/pages/SurahPage.tsx:217 | closing the player stops playback |
| SurahPage.SurahPageState.ShowTafsir | src/pages/SurahPage.tsx:200 | the tafsir dialog opens on that ayat number |
| SurahPage.SurahPageState.CloseTafsir | src/pages/SurahPage.tsx:224 | the tafsir dialog closes |
| SurahPage.SurahPageState.CurrentTafsirText | src/pages/SurahPage.tsx:64 | the text shown is the tafsir text for the selected ayat |
| SurahSearch.FilteredSurahs | src/pages/Index.tsx:19-30 | nothing before the list loads; the whole list for a blank query; otherwise an order-preserving subsequence holding every matching surah with its full multiplicity and no other |
| SurahSearch.SearchByNumberFinds | src/pages/Index.tsx:28 | typing a surah's number finds it |
| SurahSearch.MatchesLowered | src/pages/Index.tsx:26-28 | a surah matches exactly when the query occurs at some position of its lower-cased Latin name, its lower-cased meaning or its decimal number |
| SurahSearch.SearchByNameFinds | src/pages/Index.tsx:21-26 | typing a surah's Latin name in any ASCII letter case finds it, unless the name is blank |
| SurahSearch.SpaceInQueryHides | src/pages/Index.tsx:21-28 | the untrimmed query with a space hides every surah whose Latin name and meaning have no space |
| SurahSearch.NoSpaceNoMatch | src/pages/Index.tsx:26-28 | a query containing a space matches no field without one |
| Shalat.FindCity | src/pages/ShalatPage.tsx:97 | no city exactly when no listed city has the id; otherwise the first listed city with that id |
| Shalat.ScanStep | src/pages/ShalatPage.tsx:94-101 | one loop iteration: an entry not strictly nearer than `minDistance` leaves both locals unchanged (a tie does not replace); a strictly nearer one sets `minDistance` to its distance and, exactly when its id is among the cities, selects that city; an unlisted id never changes the selection |
| Shalat.Scan | src/pages/ShalatPage.tsx:89-102 | after the whole table: the distance is Infinity exactly for an empty table; a selected city is listed, has a finite distance and has its id in the table |
| Shalat.ScanMinimum | src/pages/ShalatPage.tsx:90-102 | the final `minDistance` is the least distance over the whole coordinate table, including unlisted ids; it is Infinity exactly for an empty table |
| Shalat.ScanSelectsFirstNearest | src/pages/ShalatPage.tsx:93-102 | when every table id is a listed city, the scan selects the city of the first entry at the least distance and reports that entry's distance |
| Shalat.NearerListedCityChosen | src/pages/ShalatPage.tsx:93-102 | of two listed cities at different distances, the nearer is selected, in either table order |
| Shalat.ScanNoneListed | src/pages/ShalatPage.tsx:97-100 | when no table id is listed, no city is selected |
| Shalat.ReportedDistanceOfSkippedEntry | src/pages/ShalatPage.tsx:95-108 | a nearer unlisted entry keeps the farther listed city selected, yet its distance is the one reported |
| Shalat.NearerListedCityPassedOver | src/pages/ShalatPage.tsx:95-100 | after an unlisted entry B nearer than the selected city A, a listed city C with dist(B) <= dist(C) < dist(A) is not taken: C is nearer than A but not nearer than B |
| Shalat.NearestCity | src/pages/ShalatPage.tsx:89-102 | the loop ends in the scan function's state; any selection is a listed city; the distance is the table minimum, Infinity only for an empty table; when every id is listed, the selection is the first entry at that minimum |
| Shalat.FilteredCities | src/pages/ShalatPage.tsx:136-144 | the popular cities before the list loads; the first 50 for a blank query; otherwise the first min(30, number of matches) matching cities, in list order, each one matching |
| Shalat.CityMatchesQuery | src/pages/ShalatPage.tsx:142 | a city matches exactly when the query occurs at some position of its lower-cased name |
| Shalat.LoadedCity | src/pages/ShalatPage.tsx:57-68 | no saved value, an empty one, or one that fails to parse gives Jakarta; otherwise the parsed city |
| Shalat.SavedCityReloads | src/pages/ShalatPage.tsx:57-75 | a city saved as a non-empty string that parses back to it is the city loaded next time |
| Shalat.ShalatPageState.constructor | src/pages/ShalatPage.tsx:42-46 | no city, selector closed, empty query, no detection |
| Shalat.ShalatPageState.SaveSelectedCity | src/pages/ShalatPage.tsx:71-75 | a selected city is stored serialised; with no selection the store is unchanged |
| Shalat.ShalatPageState.LoadStoredCity | src/pages/ShalatPage.tsx:57-68 | the selected city becomes the city loaded from the stored value: Jakarta when it is missing, empty or unparsable |
| Shalat.ShalatPageState.DetectNearestCity | src/pages/ShalatPage.tsx:84-112 | with a position and the city list, the scan's city, if any, is selected and marked detected, and is reported with the scan's distance; otherwise nothing changes |
| Shalat.ShalatPageState.HandleSelectCity | src/pages/ShalatPage.tsx:146-151 | the city is selected, the selector closes, the query clears, and the detected mark is cleared |

## Left out

- Network access (the surah, tafsir, city and schedule queries and their loading and error states): fetched data is an `Option` parameter, None while not loaded.
- Local-storage persistence in `useLocalStorage`: its file is not part of this model. The stored bookmark list, history and settings record are constructor parameters.
- Bookmarks.BookmarkRegistry.constructor: requires the stored list to have unique pairs, which the hook's own updates keep; a stored list edited outside the app, with duplicates, is not modelled.
- ReadingHistory.ReadingLog.constructor: requires the stored history to be well formed (at most 10 entries, one per surah), which the hook's own updates keep; a stored history edited outside the app is not modelled.
- `JSON.parse` and `JSON.stringify`: they are parameters. A saved value that parses to something other than a city object, such as `null`, is not modelled.
- The haversine distance, the geolocation request and the coordinate table `CITY_COORDINATES`: they are parameters. The table is the sequence of its `Object.entries`, in iteration order.
- Timers, the clock (`Date.now`, the one-second ticker), toasts, date formatting, `Math.round` of the reported distance, and the prayer-schedule query.
- The `prefers-color-scheme` media query: it is a boolean parameter. The theme effect runs only on a theme change, as its dependency list says; a later change of the system preference is not tracked.
- The audio element and auto-play (`AudioPlayer`), and the presentational pages and components.
- React's batching and scheduling of state updates: each handler applies its updater to the current state at once.
- `parseInt` of the route id on the surah page: the surah number is an integer parameter.
- Lower: models ASCII `toLowerCase` only; letters outside A-Z are left unchanged, while JavaScript also lower-cases other Unicode letters.
- JavaScript numbers are mathematical integers (surah and ayat numbers, timestamps) or reals (coordinates, distances). Floating-point rounding and NaN are not modelled.
- IntToString: covers integer values only; fractional or exponent-form numbers are not modelled.
