# tesla-tv front end, modelled in Dafny

A model of the logic of the tesla-tv IPTV front end, a browser application in front of an
XtreamCodes/XuiOne panel. At its centre is the electronic programme guide (EPG) service of
`src/services/epg.js`. It keeps a registry of XMLTV sources and downloads and decompresses each
source. It parses the XMLTV document into channels and programmes, stores the result per source,
and answers "what is on channel X now and next" by matching names loosely. Around that service
sit the smaller pieces of logic of the pages:

- the programme progress bar and the upcoming list (`ChannelEpg.jsx`);
- the like, dislike and watchlist toggles (`UserPreferencesContext.jsx`) and the profile panel's
  watchlist (`Profile.jsx`);
- the two M3U playlist parsers, the type filters and the URL rewriting for the reverse proxy
  (`PlaylistContext.jsx`, `LiveTV.jsx`, `urlRewriter.js`);
- TMDB title parsing and best-match scoring (`tmdb.js`);
- the merging of film and series lists by name (`Movies.jsx`, `Home.jsx`);
- the admin credential checks (`AdminArea.jsx`);
- the tab state of the shell (`App.jsx`) and the header's megamenu (`Header.jsx`).

Each source file is one module:

| file | module |
|---|---|
| `src/services/epg.js` | `EpgModel` (the registry, settings and store as values), `EpgParse`, `EpgQuery`, `EpgDownload`, and `Epg` (class `EpgService`, the service with its stored state) |
| `src/components/ChannelEpg.jsx` | `ChannelEpg` |
| `src/contexts/UserPreferencesContext.jsx` | `UserPrefs` (class `PreferencesProvider`) |
| `src/components/Profile.jsx` | `Profile` |
| `src/contexts/PlaylistContext.jsx` | `M3u` (the line scan shared by both parsers), `Playlist` (class `PlaylistProvider`) |
| `src/LiveTV.jsx` | `LiveTv` (class `LiveTvPage`) |
| `src/utils/urlRewriter.js` | `Web` (server settings and URL parts), `UrlRewriter` |
| `src/services/tmdb.js` | `Tmdb` |
| `src/Movies.jsx` | `Merge` (the name-keyed `Map` fold shared with the home page), `Movies` (class `MoviesPage`) |
| `src/Home.jsx` | `Home` (class `HomePage`) |
| `src/AdminArea.jsx` | `AdminArea` (class `AdminAreaState`) |
| `src/App.jsx` | `App` (class `AppState`) |
| `src/Header.jsx` | `Header` |

`Wrappers` (Option and Result), `JsString` (JavaScript string operations), `Seqs` (filter,
de-duplication, counting) and `Sorting` (the stable sort of `Array.prototype.sort`) are helpers.

Where the source changes state step by step, the model does too. The registry, the store and
the settings of the EPG service are fields of a class, and its methods are specified by functions
on the old state. The download loop, the parse loop, the query loop and the `forEach` merges are
`while` loops, each proved against a function. The toggles, the playlist cache, the page loads
and the tab handlers are methods of classes. Pure branching (the URL rewriters, the filters and
the scores) is written as functions.

Environment values are parameters: the clock reading, the page origin and the server settings,
the result of each network request, the gzip decompressor, the XML parser's output, the SHA-256
hash and the locale formatting.

## Model

| member | source | states |
|---|---|---|
| EpgModel.NewSource | src/services/epg.js:43-53 | the new record gets the clock reading in decimal as its id, the given name and url, is enabled, has no fetch, success or error yet, zero counts and the creation time |
| EpgModel.FindIndex | src/services/epg.js:64 | the index of the first record with the id, and -1 exactly when no record has it |
| EpgModel.UpdatedSpec | src/services/epg.js:62-71 | an update keeps the length; an unknown id leaves the list unchanged; every record but the first one with the id is untouched; that record becomes the spread of the update over it |
| EpgModel.Updated | src/services/epg.js:62-71 | the registry after `updateEpgSource`, no contract of its own; specified by `EpgModel.UpdatedSpec` |
| EpgModel.MergeEmpty | src/services/epg.js:66 | spreading an update that has no fields leaves the record as it was |
| EpgModel.MergeFields | src/services/epg.js:66 | the spread keeps the id and creation time, and each field is the update's when the update has it, else the record's |
| EpgModel.Merge | src/services/epg.js:66 | the spread `{ ...source, ...updates }`, no contract of its own; specified by `EpgModel.MergeFields` and `EpgModel.MergeEmpty` |
| EpgModel.DeletedSpec | src/services/epg.js:76-81 | after a delete the list holds exactly the records with other ids, and never more records than before |
| EpgModel.DeletedIdempotent | src/services/epg.js:76-81 | deleting the same id twice is the same as deleting it once |
| EpgModel.DeletedAbsent | src/services/epg.js:76-81 | deleting an id no record has leaves the list unchanged |
| EpgModel.Deleted | src/services/epg.js:76-81 | the registry after `deleteEpgSource`, no contract of its own; specified by `EpgModel.DeletedSpec`, `EpgModel.DeletedIdempotent` and `EpgModel.DeletedAbsent` |
| EpgModel.FetchUpdates | src/services/epg.js:404-420 | a successful fetch sets last fetch, last success and both counts and keeps the last error; a failed one sets last fetch and last error only |
| EpgModel.RequestUrlSpec | src/services/epg.js:131-136 | with the proxy switched on and a non-empty template, the first `{URL}` in it is replaced by the percent-encoded target, and a template without `{URL}` is used as is; otherwise the target is unchanged |
| EpgModel.RequestUrl | src/services/epg.js:131-136 | the request URL of a download, no contract of its own; specified by `EpgModel.RequestUrlSpec` |
| EpgModel.DefaultRequestUrl | src/services/epg.js:89-95 | with the default settings the request goes to the public proxy with the percent-encoded target appended |
| EpgModel.Lookup | src/services/epg.js:317-320 | stored data is found exactly when some entry has that source id |
| EpgModel.Saved | src/services/epg.js:286-293 | saving keeps every existing key in place and appends one entry, the new one, exactly when the id was not stored yet |
| EpgModel.SavedLookup | src/services/epg.js:286-320 | after a save, that id reads back as the saved data and every other id reads as before |
| EpgModel.SavedTwice | src/services/epg.js:286-293 | saving twice under one id is the same as saving the second data once |
| EpgModel.SavedUnique | src/services/epg.js:286-293 | saving keeps the keys distinct and grows the store by one exactly for a new id |
| Epg.EpgService.constructor | src/services/epg.js:15-23 | with nothing stored the registry, the guide data and the settings are empty |
| Epg.EpgService.SaveEpgSettings | src/services/epg.js:111-119 | reports whether the write fits; if it does, the stored settings become the given ones and are what later reads see, otherwise they stay as they were; sources and guide data are untouched |
| Epg.EpgService.SaveEpgSources | src/services/epg.js:28-36 | reports whether the write fits; the registry becomes the given list if it does and stays as it was otherwise |
| Epg.EpgService.AddEpgSource | src/services/epg.js:41-57 | the new record is returned; when the write fits exactly that record is appended, the earlier ones unchanged, and otherwise the registry stays as it was |
| Epg.EpgService.UpdateEpgSource | src/services/epg.js:62-71 | an unknown id returns nothing and changes nothing; otherwise the merged record is returned, and the list becomes the updated list when the write fits and stays as it was when it does not |
| Epg.EpgService.DeleteEpgSource | src/services/epg.js:76-81 | the call reports success in every case; the records with that id are removed when the write fits, and the stored guide data is untouched |
| Epg.EpgService.SaveEpgData | src/services/epg.js:286-299 | reports whether the write fits; if it does, the guide data of the source is stored with the time of the save, otherwise the store stays as it was; keys stay distinct, the registry is untouched |
| Epg.EpgService.GetChannelPrograms | src/services/epg.js:325-373 | returns the programmes of the matching channels in the window, sorted by start |
| Epg.EpgService.FetchEpgSource | src/services/epg.js:392-424 | download then parse; the outcome is the guide outcome whether or not the writes fit; on success the data is saved if its write fits and the record gets the success update if the registry write fits, with progress events for saving and completion; on failure nothing is saved and the record gets the error if the registry write fits |
| Epg.CheckedOutcome | src/services/epg.js:401-413 | the corrected report: success exactly when the guide outcome is a success and its save fits, then the same data; a failed save gives the save error, and a download or parse error is passed on |
| Epg.UnsavedSuccess | src/services/epg.js:401-413 | a success the fetch reports as written leaves a source with no earlier data reading as null when the write does not fit, and reading its data when it does |
| Epg.CheckedSuccessStored | src/services/epg.js:286-299 | under the corrected report, a success always has its data stored under the source's id, and every other id reads as before |
| Epg.EpgService.FetchEpgSourceChecked | src/services/epg.js:392-424 | the corrected fetch: the checked outcome, the same store and registry rules, and after a reported success the source's data reads back |
| Epg.EpgService.TestEpgSource | src/services/epg.js:429-446 | download and parse without saving: the counts and the success message, or the error message |
| EpgParse.ParseXmltvTimeSpec | src/services/epg.js:269-281 | no time exactly for a missing or empty string; otherwise the local ISO string is built from the characters [0,4), [4,6), [6,8), [8,10), [10,12) and [12,14) |
| EpgParse.ParseXmltvTime | src/services/epg.js:269-281 | `parseXmltvTime`, no contract of its own; specified by `EpgParse.ParseXmltvTimeSpec` and `EpgParse.ParseXmltvTimeIgnoresOffset` |
| EpgParse.ParseXmltvTimeIgnoresOffset | src/services/epg.js:269-281 | two stamps that agree on their first 14 characters give the same time, whatever timezone offset follows |
| EpgParse.ParseXmltvTimeExample | src/services/epg.js:272-280 | `20231201120000 +0100` reads as `2023-12-01T12:00:00` |
| EpgParse.ChannelOf | src/services/epg.js:213-222 | a channel keeps its id verbatim; a missing display name or icon becomes the empty string |
| EpgParse.ProgrammeOfFields | src/services/epg.js:232-249 | a programme keeps its channel id verbatim, parses start and stop, and a missing title, description, category or icon becomes the empty string |
| EpgParse.Extracted | src/services/epg.js:208-259 | one channel per channel element and one programme per programme element, in document order |
| EpgParse.ChannelEventsBound | src/services/epg.js:224-227 | one progress event per ten channels, each of the parsing stage and between 0 and 50 |
| EpgParse.ProgrammeEventsBound | src/services/epg.js:251-254 | one progress event per hundred programmes, each of the parsing stage and between 50 and 100 |
| EpgParse.ParseEventsSpec | src/services/epg.js:197-257 | the events open with 0 and close with 100; the channel phase stays at or below 50 and the programme phase at or above 50 |
| EpgParse.ParseEpgXml | src/services/epg.js:195-264 | a document with a parser error fails with `XML parsing error` after the opening event; otherwise the extracted records and the phase events |
| EpgParse.ExtractChannels | src/services/epg.js:212-228 | the loop over the channel elements yields one channel per element, in order, and the channel-phase events |
| EpgParse.ExtractProgrammes | src/services/epg.js:231-255 | the loop over the programme elements yields one programme per element, in order, and the programme-phase events |
| EpgParse.RoundDivSpec | src/services/epg.js:225 | `Math.round(a / b)` for non-negative `a` and positive `b` is the integer within half of `b` of `a`, rounding halves up |
| EpgParse.PhaseBounds | src/services/epg.js:197-257 | the opening event, the channel events of at most 50, the programme events between 50 and 100 and the closing event, laid end to end |
| EpgQuery.FindChannel | src/services/epg.js:342 | the first channel with the programme's channel id, or none exactly when no channel has it |
| EpgQuery.SourcePrograms | src/services/epg.js:340-362 | the loop over one source's programmes collects exactly the matches of the specification |
| EpgQuery.MatchOfSpec | src/services/epg.js:342-360 | a programme is listed, with its channel's display name, exactly when its channel exists, the names match either way after lowering and trimming, and it ends after now and starts before the window's end |
| EpgQuery.SourceMatchesMembers | src/services/epg.js:340-362 | a listing comes from a source exactly when one of its programmes qualifies |
| EpgQuery.AllMatchesMembers | src/services/epg.js:334-363 | a listing is collected exactly when some programme of some source qualifies |
| EpgQuery.ChannelProgramsMembers | src/services/epg.js:325-368 | the result holds exactly the qualifying programmes of all the sources |
| EpgQuery.ChannelPrograms | src/services/epg.js:325-368 | `getChannelPrograms` on the stored data, no contract of its own; specified by `EpgQuery.ChannelProgramsMembers` and `EpgQuery.ChannelProgramsSorted` |
| EpgQuery.ChannelProgramsSorted | src/services/epg.js:366 | the result is sorted by start, and programmes with equal starts keep their collection order |
| EpgQuery.NullTimestamps | src/services/epg.js:351-355 | a listed programme always has a stop time; one without a start (read as the epoch) is listed only when the window ends after the epoch |
| EpgQuery.EmptyNameMatches | src/services/epg.js:348-349 | a query or display name that is empty after trimming matches every channel |
| EpgQuery.NamesMatchProperties | src/services/epg.js:338-349 | the name match is symmetric and insensitive to lowering either side first |
| EpgQuery.NamesMatchExample | src/services/epg.js:338-349 | `ZDF HD` and `zdf` match each other |
| EpgQuery.FirstAiring | src/services/epg.js:382-386 | the first listing airing now, or none exactly when none airs now |
| EpgQuery.FirstAiringEarliest | src/services/epg.js:382-386 | on a list sorted by start, the first airing listing starts no later than any other airing one |
| EpgQuery.ListedSound | src/services/epg.js:348-360 | every listed programme matches the channel name and lies in the window |
| EpgQuery.CurrentProgramSpec | src/services/epg.js:378-387 | the current programme is a listing of the next hour that airs now, matches the name and starts earliest among those airing; there is none exactly when nothing airs now |
| EpgQuery.CurrentProgram | src/services/epg.js:378-387 | `getCurrentProgram`, no contract of its own; specified by `EpgQuery.CurrentProgramSpec` |
| EpgDownload.ReadEventsBound | src/services/epg.js:157-168 | with a declared length the reader reports one event per chunk, each between 0 and 100 when the length covers the body; without a length it reports none |
| EpgDownload.DownloadEventsSpec | src/services/epg.js:124-185 | the download opens with a 0 event and a success closes with the two decompression events; percentages stay within 0 and 100 when the declared length covers the body |
| EpgDownload.ReceivedEventsSpec | src/services/epg.js:145-185 | a response that is ok reports 0, its chunk percentages, then decompression at 0 and, on success, 100; with an honest length every percentage lies within 0..100, without a length there are none |
| EpgDownload.ReadBody | src/services/epg.js:152-168 | the read loop keeps every chunk in order, counts the bytes and reports the progress the specification gives |
| EpgDownload.CopyChunks | src/services/epg.js:171-176 | the combined buffer holds the chunks laid end to end |
| EpgDownload.DownloadEpgFile | src/services/epg.js:124-190 | the download yields the decompressed text, or the network error, the `HTTP status: text` error of a failed response, or the decompression error |
| ChannelEpg.GetProgressSpec | src/components/ChannelEpg.jsx:37-48 | zero outside the programme; within a programme of positive length a rounded percentage between 0 and 100, 0 at the start and 100 at the end; not a number for a programme of zero length at its instant |
| ChannelEpg.GetProgress | src/components/ChannelEpg.jsx:37-48 | `getProgress`, no contract of its own; specified by `ChannelEpg.GetProgressSpec` |
| ChannelEpg.StartingLater | src/components/ChannelEpg.jsx:19 | keeps exactly the listings starting after now |
| ChannelEpg.StartingLaterSorted | src/components/ChannelEpg.jsx:19 | filtering a list sorted by start keeps it sorted |
| ChannelEpg.UpcomingSpec | src/components/ChannelEpg.jsx:16-20 | at most three upcoming listings, all from the next six hours and starting after now, sorted by start; they are the earliest such listings, since none left out starts before a chosen one; fewer than three only when no other listing starts later |
| ChannelEpg.Upcoming | src/components/ChannelEpg.jsx:16-20 | the upcoming list, no contract of its own; specified by `ChannelEpg.UpcomingSpec` |
| ChannelEpg.FormatTime | src/components/ChannelEpg.jsx:31-35 | the two cases of `formatTime`, an empty string for a missing time, otherwise the clock rendering of it; the rendering itself is an abstract parameter |
| ChannelEpg.ViewHidden | src/components/ChannelEpg.jsx:50-52 | the panel is hidden exactly when nothing airs now and nothing starts later in the next six hours |
| UserPrefs.ItemKey | src/contexts/UserPreferencesContext.jsx:48 | the key is the item type, an underscore and the item id, so type and id can be read back from it |
| UserPrefs.Without | src/contexts/UserPreferencesContext.jsx:52 | removing a key keeps exactly the other entries and keeps them distinct |
| UserPrefs.ToggleLikeSpec | src/contexts/UserPreferencesContext.jsx:47-59 | the key's like flips; a new like removes the key from the dislikes; removing a like leaves the dislikes alone; other keys and the watchlist are untouched |
| UserPrefs.ToggleLike | src/contexts/UserPreferencesContext.jsx:47-59 | `toggleLike` on the lists, no contract of its own; specified by `UserPrefs.ToggleLikeSpec` and `UserPrefs.ToggleLikeConsistent` |
| UserPrefs.ToggleLikeConsistent | src/contexts/UserPreferencesContext.jsx:47-59 | a like toggle keeps both lists free of repeats and no key both liked and disliked |
| UserPrefs.ToggleDislikeSpec | src/contexts/UserPreferencesContext.jsx:62-74 | the key's dislike flips; a new dislike removes the key from the likes; other keys and the watchlist are untouched |
| UserPrefs.ToggleDislike | src/contexts/UserPreferencesContext.jsx:62-74 | `toggleDislike` on the lists, no contract of its own; specified by `UserPrefs.ToggleDislikeSpec` and `UserPrefs.ToggleDislikeConsistent` |
| UserPrefs.ToggleDislikeConsistent | src/contexts/UserPreferencesContext.jsx:62-74 | a dislike toggle keeps both lists free of repeats and no key both liked and disliked |
| UserPrefs.ToggleWatchlistSpec | src/contexts/UserPreferencesContext.jsx:77-87 | the key's watchlist membership flips, other keys and the like lists are untouched, and toggling a new key twice restores the watchlist |
| UserPrefs.ToggleWatchlist | src/contexts/UserPreferencesContext.jsx:77-87 | `toggleWatchlist` on the lists, no contract of its own; specified by `UserPrefs.ToggleWatchlistSpec` |
| UserPrefs.RunConsistent | src/contexts/UserPreferencesContext.jsx:47-87 | any sequence of toggles keeps likes and dislikes disjoint and free of repeats |
| UserPrefs.LikeTwice | src/contexts/UserPreferencesContext.jsx:47-59 | liking a new item marks it liked and not disliked, and liking it again leaves it neither |
| UserPrefs.PreferencesProvider.constructor | src/contexts/UserPreferencesContext.jsx:19-31 | the provider starts from the saved lists |
| UserPrefs.PreferencesProvider.ToggleLikeOf | src/contexts/UserPreferencesContext.jsx:47-59 | the lists become the like toggle of the item's key |
| UserPrefs.PreferencesProvider.ToggleDislikeOf | src/contexts/UserPreferencesContext.jsx:62-74 | the lists become the dislike toggle of the item's key |
| UserPrefs.PreferencesProvider.ToggleWatchlistOf | src/contexts/UserPreferencesContext.jsx:77-87 | the lists become the watchlist toggle of the item's key |
| Profile.IdsWithPrefix | src/components/Profile.jsx:26-32 | the ids read from the watchlist are exactly those whose prefixed key is in it |
| Profile.IdsWithPrefixConcat | src/components/Profile.jsx:26-32 | reading ids from two joined watchlists gives the ids of the first followed by those of the second |
| Profile.IdsWithPrefixSingle | src/components/Profile.jsx:26-32 | a key with the prefix gives its remainder, any other key nothing |
| Profile.MovieKeyRoundTrip | src/components/Profile.jsx:26-28 | the watchlist key of a film gives back exactly its id as a film and nothing as a series |
| Profile.SeriesKeyRoundTrip | src/components/Profile.jsx:30-32 | the watchlist key of a series gives back exactly its id as a series and nothing as a film |
| Profile.FindMovie | src/components/Profile.jsx:40 | the first film whose stream id equals the id, or none exactly when no film has it |
| Profile.FindSeries | src/components/Profile.jsx:67 | the first series whose numeric id equals the parsed id, as `find` returns it, or none exactly when there is no such series |
| Profile.MovieItemsSpec | src/components/Profile.jsx:39-50 | every resolved film item is of kind film, for a watchlisted id with a matching film, and every such id is resolved |
| Profile.SeriesItemsSpec | src/components/Profile.jsx:66-77 | every resolved series item is of kind series, for a watchlisted id with a matching series, and every such id is resolved |
| Profile.ResolveMovies | src/components/Profile.jsx:39-50 | the film loop pushes exactly the items of the specification |
| Profile.ResolveSeries | src/components/Profile.jsx:66-77 | the series loop pushes exactly the items of the specification |
| Profile.LoadWatchlistItems | src/components/Profile.jsx:16-86 | the loaded items follow the specification, including the empty list for no watchlist or user and for a failed series request |
| Profile.WatchlistOutcomeSpec | src/components/Profile.jsx:16-86 | nothing is shown without a user; whether or not playlist data is present, every shown item is a watchlisted film found in the playlist's films (only when there is playlist data) or a watchlisted series found in the series answer |
| Profile.ItemClick | src/components/Profile.jsx:105-114 | a click always closes the dialog first; it navigates only when a handler is given and the item is a film or a series, to the film page exactly for a film, with the item's id |
| Profile.FormatExpiryDate | src/components/Profile.jsx:92-102 | a missing, empty or `'0'` date gives the unlimited label; any other date is rendered from its parsed seconds times 1000 |
| Web.TrimSlash | src/utils/urlRewriter.js:14 | one trailing slash is dropped, and a value without one is kept |
| Web.ServerAddress | src/utils/urlRewriter.js:27 | the text given to `new URL`, the base and `:port` when there is a port; no contract of its own, used by `Web.ContextProxy`, `UrlRewriter.NeedsProxy` and `UrlRewriter.IptvServerHost` |
| Web.WithScheme | src/utils/urlRewriter.js:19-21 | a base with a scheme is kept, any other gets `http://` in front, so the result always has one and ends with the base |
| Web.ContextProxy | src/contexts/PlaylistContext.jsx:66-90 | no proxy without server settings or for a relative server address; otherwise the server address with its scheme and port is parsed: an unparsable one throws, a parsed one asks for the proxy exactly for an HTTPS page and an HTTP server or another origin |
| UrlRewriter.NeedsProxy | src/utils/urlRewriter.js:9-34 | no proxy without server settings or for a relative server address; otherwise mixed content or another origin than the parsed server address asks for one, and an unparsable address falls back to the mixed-content test |
| UrlRewriter.IptvServerHost | src/utils/urlRewriter.js:39-59 | no host without settings or for an empty or relative server address; otherwise a host exactly when the address with its scheme and port parses, and then the parsed host |
| UrlRewriter.RewriteImageUrlKeeps | src/utils/urlRewriter.js:66-99 | empty, relative, `data:` and placeholder URLs, URLs when no proxy is needed, and unparsable or foreign URLs stay as they are |
| UrlRewriter.RewriteImageUrlServer | src/utils/urlRewriter.js:78-90 | an image path of the IPTV server becomes its path and query, any other of its paths goes under `/api`; the fragment is dropped |
| UrlRewriter.RewriteImageUrl | src/utils/urlRewriter.js:66-99 | `rewriteImageUrl`, no contract of its own; specified by `UrlRewriter.RewriteImageUrlKeeps` and `UrlRewriter.RewriteImageUrlServer` |
| UrlRewriter.RewriteStreamUrlKeeps | src/utils/urlRewriter.js:106-137 | empty and relative URLs, URLs when no proxy is needed, and unparsable or foreign URLs stay as they are |
| UrlRewriter.RewriteStreamUrlServer | src/utils/urlRewriter.js:115-130 | a stream path of the IPTV server becomes its path and query, any other of its paths goes under `/api` |
| UrlRewriter.RewriteStreamUrl | src/utils/urlRewriter.js:106-137 | `rewriteStreamUrl`, no contract of its own; specified by `UrlRewriter.RewriteStreamUrlKeeps` and `UrlRewriter.RewriteStreamUrlServer` |
| UrlRewriter.RewrittenIsRelative | src/utils/urlRewriter.js:66-137 | a rewritten image or stream URL is either the original or a relative path |
| UrlRewriter.RewriteUrlSpec | src/utils/urlRewriter.js:144-154 | a URL containing `/images/` or ending in an image extension (before a query or the end) is rewritten as an image, any other as a stream, and rewriting twice is rewriting once |
| UrlRewriter.RewriteUrl | src/utils/urlRewriter.js:144-154 | `rewriteUrl`, no contract of its own; specified by `UrlRewriter.RewriteUrlSpec` |
| UrlRewriter.RelativeFixed | src/utils/urlRewriter.js:144-154 | a relative URL is never rewritten |
| UrlRewriter.PngIsImage | src/utils/urlRewriter.js:148 | a supporting example of the image test: a URL ending in `.png` counts as an image |
| M3u.Classify | src/contexts/PlaylistContext.jsx:131-158 | a line is a header exactly when it starts with `#EXTINF:`, and a URL line exactly when it is not empty and does not start with `#` |
| M3u.Lines | src/contexts/PlaylistContext.jsx:124-129 | the lines are the newline-separated pieces of the text, each trimmed |
| M3u.ScanPending | src/contexts/PlaylistContext.jsx:128-164 | when no step throws, after any prefix of the lines an item is pending exactly when a header is still open, and it is that header's item |
| M3u.ScanItems | src/contexts/PlaylistContext.jsx:128-164 | when no step throws, the items after any prefix of the lines are exactly the entries of the header and URL pairs in it |
| M3u.EntriesSpec | src/contexts/PlaylistContext.jsx:123-167 | the parsed items are exactly the entries of the header lines followed, after lines of neither kind, by a URL line |
| M3u.HeaderFailureFails | src/contexts/PlaylistContext.jsx:131-152 | a header whose processing throws makes the whole parse throw |
| M3u.PairedFailureFails | src/contexts/PlaylistContext.jsx:158-164 | a URL line that completes an entry, where attaching the URL throws whatever the entry, makes the whole parse throw |
| M3u.PendingWhileOpen | src/contexts/PlaylistContext.jsx:131-164 | while a header line is open and nothing has thrown, an entry waits for its URL |
| M3u.ErrSticks | src/contexts/PlaylistContext.jsx:128-164 | once a step has thrown, later lines do not change the outcome |
| M3u.ScanLines | src/contexts/PlaylistContext.jsx:123-167 | the `for` loop over the lines computes the parse of the specification |
| M3u.ValueAtSpec | src/contexts/PlaylistContext.jsx:136 | a value read at a position follows the key there, contains no quote and is closed by a quote |
| M3u.AttrFrom | src/contexts/PlaylistContext.jsx:136-156 | the attribute match is the first position at which the pattern matches, and there is none exactly when it matches nowhere |
| M3u.AttrLeading | src/contexts/PlaylistContext.jsx:136-156 | an attribute written at the start of a line is read back as its value |
| M3u.AfterComma | src/LiveTV.jsx:150-151 | the channel name is everything after the first comma that has a non-empty rest, and there is none when no comma qualifies |
| M3u.AfterCommaFirst | src/LiveTV.jsx:150-151 | the match starts at the first comma, so a name with a second comma keeps it |
| Playlist.RewriteUrlForProxy | src/contexts/PlaylistContext.jsx:63-120 | empty URLs and URLs when no proxy is needed stay; with a proxy, the five IPTV paths get `/api` in front of path, query and fragment and everything else stays; an unparsable server address throws |
| Playlist.RewriteUrlForProxyIdempotent | src/contexts/PlaylistContext.jsx:63-120 | when relative URLs do not parse, rewriting a rewritten URL changes nothing more |
| Playlist.RewrittenRelative | src/contexts/PlaylistContext.jsx:89-119 | a URL the rewriter changes becomes a non-empty path starting with `/` under `/api`, and only when proxying is on |
| Playlist.UnparsedKept | src/contexts/PlaylistContext.jsx:91-119 | a URL that does not parse is returned as it is |
| Playlist.HeaderOf | src/contexts/PlaylistContext.jsx:131-157 | reading a header never fails when the proxy test succeeds, and fails for a non-empty logo when it throws |
| Playlist.WithUrl | src/contexts/PlaylistContext.jsx:158-162 | attaching the URL line never fails when the proxy test succeeds |
| Playlist.TotalSteps | src/contexts/PlaylistContext.jsx:131-162 | when the proxy test succeeds no header or URL step can throw |
| Playlist.ParseM3U | src/contexts/PlaylistContext.jsx:123-167 | the parse is the line scan with this file's header and URL steps |
| Playlist.ParseM3USpec | src/contexts/PlaylistContext.jsx:123-167 | when the proxy test succeeds the parse succeeds with exactly the entries of the paired header and URL lines |
| Playlist.EntryOfPair | src/contexts/PlaylistContext.jsx:131-162 | an entry is its header's record with the rewritten URL line as its URL |
| Playlist.ParseM3UThrows | src/contexts/PlaylistContext.jsx:147-152 | a header with a non-empty logo makes the parse throw when the proxy test throws |
| Playlist.AttrAbsent | src/contexts/PlaylistContext.jsx:136-156 | an attribute whose key is not in the line is not read |
| Playlist.HeaderOfSpec | src/contexts/PlaylistContext.jsx:131-157 | the stream id, tvg id, name and category are the attribute values (id, name and category only when non-empty); the icon is the rewritten logo, absent without a logo |
| Playlist.FilterByTypeSpec | src/contexts/PlaylistContext.jsx:220-271 | no data gives no items; `live` keeps exactly the `/m3u8` URLs without a video mark, `movies` those with `#.mp4`, `series` those with `#.mkv`, and any other type keeps everything |
| Playlist.FilterByType | src/contexts/PlaylistContext.jsx:220-271 | `filterByType`, no contract of its own; specified by `Playlist.FilterByTypeSpec` and `Playlist.LiveDisjoint` |
| Playlist.PlaylistProvider.FilterByTypeOf | src/contexts/PlaylistContext.jsx:220-271 | `filterByType` with the provider's playlist as the default data, no contract of its own; it is `Playlist.FilterByType` of the passed data or else of the stored playlist |
| Playlist.LiveDisjoint | src/contexts/PlaylistContext.jsx:232-264 | a live item is neither a film nor a series |
| Playlist.ErrorText | src/contexts/PlaylistContext.jsx:212 | the error shown is never empty: the message, or `Failed to load playlist` for an empty one |
| Playlist.Load | src/contexts/PlaylistContext.jsx:187-209 | a missing URL fails with `Server nicht konfiguriert`; otherwise the fetched text parsed, or the fetch error |
| Playlist.PlaylistProvider.constructor | src/contexts/PlaylistContext.jsx:15-17 | no playlist, not loading, no error |
| Playlist.PlaylistProvider.LoadPlaylist | src/contexts/PlaylistContext.jsx:170-216 | a cached playlist is returned unchanged; while a load runs nothing is returned; otherwise the parsed items are cached and returned, or the error is recorded and nothing returned, and loading ends |
| LiveTv.RewriteUrlForProxy | src/LiveTV.jsx:61-111 | this page's variant: with a proxy only `/play/` and `/images/` paths are shortened to path, query and fragment, without `/api`; everything else as in the playlist context |
| LiveTv.RewriteUrlForProxyIdempotent | src/LiveTV.jsx:61-111 | when relative URLs do not parse, rewriting a rewritten URL changes nothing more |
| LiveTv.ShortenedIsPath | src/LiveTV.jsx:93-104 | a shortened URL is a relative path |
| LiveTv.HeaderOf | src/LiveTV.jsx:122-151 | reading a header never fails when the proxy test succeeds, and fails for a non-empty logo when it throws |
| LiveTv.WithUrl | src/LiveTV.jsx:153-157 | attaching the URL line never fails when the proxy test succeeds |
| LiveTv.TotalSteps | src/LiveTV.jsx:122-157 | when the proxy test succeeds no header or URL step can throw |
| LiveTv.ParseM3U | src/LiveTV.jsx:114-162 | the parse is the line scan with this page's header and URL steps |
| LiveTv.ParseM3USpec | src/LiveTV.jsx:114-162 | when the proxy test succeeds the parse succeeds with exactly the entries of the paired header and URL lines |
| LiveTv.EntryOfPair | src/LiveTV.jsx:122-157 | a channel is its header's record with the rewritten URL line as its URL |
| LiveTv.ParseM3UThrows | src/LiveTV.jsx:153-157 | a paired URL line makes the parse throw when the proxy test throws |
| LiveTv.PairedThrows | src/LiveTV.jsx:114-162 | when the proxy test throws, a URL line that completes a channel makes the whole parse throw |
| LiveTv.HeaderOfSpec | src/LiveTV.jsx:122-151 | the ids, tvg name and group are the attribute values; the logo is rewritten; the name is the trimmed text after the first qualifying comma |
| LiveTv.LiveChannels | src/LiveTV.jsx:194-199 | keeps exactly the channels whose lowered URL has none of the six video extensions |
| LiveTv.IsLiveChannel | src/LiveTV.jsx:194-199 | the test that none of the six video extensions is in the lowered URL, no contract of its own; used by `LiveTv.LiveChannels` |
| LiveTv.LiveChannelNotVod | src/LiveTV.jsx:194-199 | a channel kept here is neither a film nor a series of the playlist context |
| LiveTv.GroupTitlesMembers | src/LiveTV.jsx:203-210 | the group titles collected are exactly the non-empty titles some channel carries |
| LiveTv.Categories | src/LiveTV.jsx:215-218 | the all entry with no id, then one entry per group with the group as id and name |
| LiveTv.ExtractGroups | src/LiveTV.jsx:202-212 | the map loop keeps each non-empty group once, in order of first appearance |
| LiveTv.KeysUpToDedup | src/LiveTV.jsx:203-210 | the map's keys after each step of the loop are the distinct non-empty group titles seen so far, in order of first appearance |
| LiveTv.CategoriesDistinct | src/LiveTV.jsx:212-218 | distinct groups give a category list without repeats |
| LiveTv.CategoriesSpec | src/LiveTV.jsx:202-218 | the category list starts with the all entry, has no repeats, and has an entry for exactly the groups some channel has |
| LiveTv.CategoriesOrder | src/LiveTV.jsx:202-218 | the categories after the all entry come in the order their group titles first appear among the channels |
| LiveTv.FilteredStreams | src/LiveTV.jsx:234-239 | keeps exactly the streams whose name or tvg name contains the lowered query and whose group is the selected one, when one is selected |
| LiveTv.CategoryCount | src/LiveTV.jsx:242-245 | the all entry counts every stream; a category counts the streams of that group, zero exactly when none has it |
| LiveTv.ListedCategoriesNonEmpty | src/LiveTV.jsx:202-245 | every listed category counts at least one stream, unless there are none at all |
| LiveTv.EverythingShown | src/LiveTV.jsx:234-239 | with no query and no category every named stream is shown, in order |
| LiveTv.LiveTvPage.constructor | src/LiveTV.jsx:8-13 | no categories, no streams, loading, no error, no category and an empty query |
| LiveTv.LiveTvPage.LoadPlaylist | src/LiveTV.jsx:165-231 | without a user the `No user data available` error; otherwise the live channels and their categories, or the error text, and loading ends in every case |
| LiveTv.Load | src/LiveTV.jsx:176-199 | the fetch-and-parse part of the load: a missing URL, a network failure or a throwing parse end in that error, otherwise the live channels of the parse |
| LiveTv.LiveTvPage.SetSelectedCategory | src/LiveTV.jsx:8 | only the selected category changes |
| LiveTv.LiveTvPage.SetSearchQuery | src/LiveTV.jsx:9 | only the query changes |
| Tmdb.ImageUrl | src/services/tmdb.js:151-154 | no URL exactly for a missing or empty path; otherwise the image base, a slash and the size, followed directly by the path |
| Tmdb.PosterUrl | src/services/tmdb.js:159-161 | the image URL at the given size, `w500` by default |
| Tmdb.BackdropUrl | src/services/tmdb.js:166-168 | the image URL at the given size, `w1280` by default |
| Tmdb.ProfileUrl | src/services/tmdb.js:173-175 | the image URL at the given size, `w185` by default |
| Tmdb.ExtractYear | src/services/tmdb.js:180-184 | no year exactly for a missing or empty date or one starting with `-`; otherwise the leading part of the date up to its first `-` |
| Tmdb.FindMatch | src/services/tmdb.js:194 | a match found is a split of the title into a lazy title group, spaces, a four-digit year in brackets and trailing spaces |
| Tmdb.ParseTitle | src/services/tmdb.js:190-207 | an empty title gives an empty title and no year; a year is only ever the bracketed digits of a match of the title pattern |
| Tmdb.ShortestGroup | src/services/tmdb.js:194 | the computed title group is no longer than that of any match, and is itself a match |
| Tmdb.ParseTitleMatch | src/services/tmdb.js:194-201 | with the lazy match the title is the trimmed group and the year the four digits in brackets |
| Tmdb.LazyGroup | src/services/tmdb.js:194 | the computed group end is the lazy quantifier's, the shortest group that matches |
| Tmdb.ParseTitleNoMatch | src/services/tmdb.js:203-206 | without a match the title is the trimmed input and there is no year |
| Tmdb.ParseTitleYear | src/services/tmdb.js:190-207 | a year extracted from a title is always four ASCII digits |
| Tmdb.YearDigits | src/services/tmdb.js:194 | the year group of a match is four ASCII digits |
| Tmdb.JoinFirst | src/services/tmdb.js:182 | a supporting fact for `Tmdb.ParseTitle`: the first piece of a join is a prefix of it, followed by the end or by the separator |
| Tmdb.Normalize | src/services/tmdb.js:216-219 | a normalised name holds only word characters and spaces and has no space at either end; blanks are collapsed before other characters are dropped, so `a - b` keeps two spaces |
| Tmdb.NormalizeWords | src/services/tmdb.js:216-219 | leaving out the spaces, a normalised name is exactly the word characters of the lower-cased name, in their order |
| Tmdb.CommonWords | src/services/tmdb.js:234-236 | at most as many target words match as the target has, and none exactly when no target word is a word of the name |
| Tmdb.WordShare | src/services/tmdb.js:237 | the word score lies between 0 and 60 and is 0 exactly when no word matches |
| Tmdb.NormalizedScore | src/services/tmdb.js:224-239 | between 0 and 100; 0 for an empty name; 100 exactly for equal names; 80 when one contains the other; otherwise 60 times the share of the target's words found among the name's words, at most 60 and 0 exactly when no word is shared |
| Tmdb.PopularityBonus | src/services/tmdb.js:263-265 | no bonus without a (non-zero) popularity; a hundredth of the popularity up to 1000, and 10 from there on |
| Tmdb.ResultScore | src/services/tmdb.js:246-265 | the score of one result, no contract of its own; its parts are specified by `Tmdb.NormalizedScore` and `Tmdb.PopularityBonus`, and its use by `Tmdb.BestOfSpec` |
| Tmdb.BestOfSpec | src/services/tmdb.js:241-271 | the best score is at least 0 and at least every result's score; with no hit it is 0; a hit is the first result to reach it, with a score above 0 |
| Tmdb.ChooseSpec | src/services/tmdb.js:267-274 | a result is returned exactly when some score exceeds 50, and it is the first with the highest score |
| Tmdb.BestMatch | src/services/tmdb.js:241-274 | `findBestMatch`'s choice, no contract of its own; specified by `Tmdb.BestOfSpec` and `Tmdb.ChooseSpec` |
| Tmdb.ScanResults | src/services/tmdb.js:241-271 | the `for` loop ends with the best result and best score of the specification |
| Tmdb.FindBestMatch | src/services/tmdb.js:212-275 | the best match is the first result with the highest score, kept only above 50; an empty list has none |
| Tmdb.UnrelatedScore | src/services/tmdb.js:224-265 | a result whose names share no word with the target scores at most 30 |
| Tmdb.UnrelatedNeverChosen | src/services/tmdb.js:224-274 | such a result is never picked as the best match |
| Merge.AddAbsent | src/Movies.jsx:145-150 | a truthy value not yet listed is added, and nothing else; a list free of duplicates stays free of them |
| Merge.Values | src/Movies.jsx:162 | one entry per key of the map, in the keys' insertion order |
| Merge.Keys | src/Movies.jsx:103-105 | exactly the non-empty normalised names that occur among the records |
| Merge.MergeAllKeys | src/Movies.jsx:102-162 | the map's keys are the distinct non-empty names in order of first appearance, each with an entry |
| Merge.MergeAllEntry | src/Movies.jsx:102-160 | a name has an entry exactly when some record has that name, and the entry is the first such record folded with each later one in turn |
| Merge.MergeUpToAll | src/Movies.jsx:103-160 | the map after the loop's first steps is the fold of those records |
| Merge.MergeUpToComplete | src/Movies.jsx:102-160 | the loop over every record ends with the map of the whole `forEach`, one entry per distinct name in first-seen order |
| Merge.InsertEntry | src/Movies.jsx:107-159 | one step keeps each name's entry the fold of that name's records seen so far |
| Merge.AddAbsentDedup | src/Movies.jsx:145-150 | adding a value when absent to the distinct values so far gives the distinct values of the extended list |
| Movies.RecordAllKeys | src/Movies.jsx:92-99 | the category map holds exactly the normalised names of categories with a truthy name and id, each mapped to a non-empty id |
| Movies.RecordAllLastWins | src/Movies.jsx:94-97 | a name maps to the id of the last category registering it |
| Movies.NameToIdSpec | src/Movies.jsx:92-99 | the name-to-id map: its keys, their non-empty ids, and the last registration winning |
| Movies.Capitalize | src/Movies.jsx:121 | the first character is upper-cased and the rest kept, so the length is kept |
| Movies.Genres | src/Movies.jsx:114 | one trimmed genre per comma-separated piece, in order |
| Movies.GenreFoldSpec | src/Movies.jsx:115-124 | the ids collected are the distinct matched ids in order, with one name per id |
| Movies.GenreCategories | src/Movies.jsx:109-125 | the genre ids are distinct, one name each, and are exactly the ids a truthy genre field's genres map to |
| Movies.ParseGenres | src/Movies.jsx:109-125 | the method computes the genre categories of the specification |
| Movies.FoldGenres | src/Movies.jsx:115-124 | the `forEach` over the genres computes the genre fold of the specification |
| Movies.CapitalizeLower | src/Movies.jsx:116-121 | two genres with the same capitalised form have the same lower-case form, so they map to the same id |
| Movies.GenreNamesIds | src/Movies.jsx:115-124 | each listed name is the capitalised form of a genre that maps to the id at the same position |
| Movies.GenreNamesNoDups | src/Movies.jsx:118-122 | the listed genre names have no duplicates |
| Movies.FirstMovieCategories | src/Movies.jsx:107-141 | the first copy keeps its record; its categories are distinct and are its genres' ids when there are any, else its truthy category name, as line 130 writes it; its names are the genre names, else the category name |
| Movies.FirstMovie | src/Movies.jsx:107-141 | the first entry of a name as the page builds it, no contract of its own; specified by `Movies.FirstMovieCategories` |
| Movies.VodFoldSpec | src/Movies.jsx:151-158 | merging changes only the icon and the stream id; the stream id is the largest of the copies' and is one of them |
| Movies.VodFoldIcon | src/Movies.jsx:151-154 | the icon is truthy exactly when some copy's is, and is then the first truthy one; otherwise it is the first copy's |
| Movies.MergeMovies | src/Movies.jsx:102-160 | the `forEach` loop computes the merged film list, with the category-name fallback of line 130 |
| Movies.AddMovie | src/Movies.jsx:103-159 | one `forEach` step on the map: an empty name is skipped, a new name gets its first entry as the page builds it, a known name absorbs the copy |
| Movies.NewEntry | src/Movies.jsx:107-141 | the first copy of a name becomes its first entry: its record with the genre ids and names, or else with its category name in both lists |
| Movies.MergeCopy | src/Movies.jsx:142-159 | a later copy is absorbed as the specification says: new truthy category id and name appended, the icon filled in when missing, the larger stream id kept |
| Movies.GroupVod | src/Movies.jsx:143-158 | the record of a merged entry is the fold of its copies' records |
| Movies.GroupCategories | src/Movies.jsx:143-150 | the merged category ids and names stay free of duplicates and are the first copy's plus the truthy values of the later copies |
| Movies.UniqueMoviesKeys | src/Movies.jsx:102-162 | one film per distinct non-empty name, in order of first appearance, each carrying that name |
| Movies.UniqueMovie | src/Movies.jsx:102-162 | the film at each position is the fold of the copies sharing its name, started by the first entry as the page builds it |
| Movies.MergedMovieSpec | src/Movies.jsx:102-162 | each merged film keeps its first copy's name, has the largest stream id and the first truthy icon of its copies, and duplicate-free categories made of the first entry's (genre ids, else the category name) and the later copies' ids, and duplicate-free category names made of the first entry's names and the later copies' truthy names |
| Movies.FallbackHidesMovie | src/Movies.jsx:127-130 | a film without genres is filed under its category name, so selecting its category id does not show it |
| Movies.UniqueMoviesSingle | src/Movies.jsx:102-160 | a list of one named film merges into that film's first entry |
| Movies.UniqueMovies | src/Movies.jsx:101-162 | `uniqueMovies`, no contract of its own; specified by `Movies.UniqueMoviesKeys`, `Movies.UniqueMovie` and `Movies.MergedMovieSpec` |
| Movies.FallbackHidesMovieOnPage | src/Movies.jsx:102-190 | the page itself, given only that film, lists it and shows nothing when its category id is selected |
| Movies.FallbackShowsMovie | src/Movies.jsx:127-130 | with the category id as the fallback (`Movies.FirstMovieFixed`), a film without matching genres is listed under the category id of every copy |
| Movies.FirstMovieFixed | src/Movies.jsx:127-130 | the first entry with the category id as the fallback, no contract of its own; `Movies.FallbackShowsMovie` is proved about it |
| Movies.FilteredMovies | src/Movies.jsx:238-242 | a film is kept exactly when its name contains the query, ignoring case, and it is in the selected category, if any |
| Movies.CategoryCount | src/Movies.jsx:245-248 | every film counts for no category; otherwise the count is 0 exactly when no film is in the category |
| Movies.CountMatchesFilter | src/Movies.jsx:238-248 | a category's count equals the number of films listed when that category is selected and the search is empty |
| Movies.CategoryList | src/Movies.jsx:177-186 | the "all" entry with no id, followed by the loaded categories, or by nothing when the answer is not an array |
| Movies.MoviesPage.constructor | src/Movies.jsx:12-19 | empty lists, loading, no error, and the initial category only when it is truthy |
| Movies.MoviesPage.LoadData | src/Movies.jsx:40-202 | nothing changes when inactive, loaded or without a user; otherwise loading ends, and a failed request or a non-array answer sets the error, while two good answers store the category list and the films merged as the page merges them and mark the page loaded |
| Home.MergeMovies | src/Home.jsx:41-67 | the `forEach` loop computes the merged film list of the specification |
| Home.AddMovie | src/Home.jsx:43-66 | one `forEach` step on the film map: an empty name is skipped, a new name gets its first entry, a known name absorbs the copy |
| Home.MergeCopy | src/Home.jsx:52-66 | a later copy of a film is absorbed: a new truthy category appended, the icon filled in when missing, the larger stream id kept |
| Home.MovieGroup | src/Home.jsx:46-66 | a merged film has the record fold of its copies and the distinct truthy category names of its copies |
| Home.UniqueMoviesSpec | src/Home.jsx:41-69 | one film per distinct non-empty name in order of first appearance, with folded record and distinct category names |
| Home.UniqueMovies | src/Home.jsx:41-69 | the home page's film merge, no contract of its own; specified by `Home.UniqueMoviesSpec` |
| Home.SeriesFoldFields | src/Home.jsx:120-127 | merging changes only the cover and the series id of the first copy |
| Home.SeriesFoldId | src/Home.jsx:125-127 | the merged series id is the largest of its copies' and is one of them |
| Home.SeriesFoldCover | src/Home.jsx:121-123 | the merged cover is truthy exactly when some copy's is; it is the first truthy one, or the first copy's when none is |
| Home.SeriesGroup | src/Home.jsx:104-128 | a merged series has the record fold of its copies and the distinct truthy category ids and names of its copies |
| Home.MergeSeries | src/Home.jsx:99-129 | the `forEach` loop computes the merged series list of the specification |
| Home.AddSeries | src/Home.jsx:101-127 | one `forEach` step on the series map: an empty name is skipped, a new name gets its first entry, a known name absorbs the copy |
| Home.MergeSeriesCopy | src/Home.jsx:111-127 | a later copy of a series is absorbed: new truthy category id and name appended, the cover filled in when missing, the larger series id kept |
| Home.UniqueSeriesSpec | src/Home.jsx:99-131 | one series per distinct non-empty name in order of first appearance, with folded record and distinct category ids and names |
| Home.UniqueSeries | src/Home.jsx:99-131 | the home page's series merge, no contract of its own; specified by `Home.UniqueSeriesSpec` |
| Home.TopTen | src/Home.jsx:73-80 | a supporting bound, at most ten items; what the ten are is stated by `Home.TopTenSpec` |
| Home.TopTenSpec | src/Home.jsx:73-80 | the ten best kept items, or all when fewer, ordered by rank, and no kept item left out ranks better than one chosen |
| Home.TopTenMultiplicity | src/Home.jsx:73-80 | no item is chosen more often than the filter keeps it |
| Home.TopMoviesSpec | src/Home.jsx:73-80 | at most ten films with an image, by decreasing rating, none left out rated above one chosen |
| Home.TopSeriesSpec | src/Home.jsx:135-142 | at most ten series with a cover, by decreasing rating, none left out rated above one chosen |
| Home.HomePage.constructor | src/Home.jsx:10-13 | empty lists, loading, not loaded |
| Home.HomePage.LoadTopContent | src/Home.jsx:18-157 | nothing changes when inactive, loaded or without a user; otherwise loading ends, an array answer replaces the top films and the top series, and the page is loaded only when no request failed |
| AdminArea.ValidateUsername | src/AdminArea.jsx:65-70 | an error exactly for a user name shorter than 12 characters, with its message |
| AdminArea.FailuresUnfold | src/AdminArea.jsx:72-92 | the failures are the length, lower-case, upper-case and special-character checks in that order |
| AdminArea.ValidatePassword | src/AdminArea.jsx:72-92 | no errors exactly when every rule passes, else the failed rules' messages |
| AdminArea.ValidatePasswordSpec | src/AdminArea.jsx:72-92 | a password is accepted exactly when it is 12 long and holds a lower-case, an upper-case and a special character; one message per failed rule |
| AdminArea.RuleMessages | src/AdminArea.jsx:72-92 | a rule's message appears among the errors exactly when the rule fails |
| AdminArea.LevelOf | src/AdminArea.jsx:104-106 | weak exactly up to 40, strong exactly above 70 |
| AdminArea.CalculatePasswordStrength | src/AdminArea.jsx:94-107 | the strength is the score of the password, between 0 and 100, with its level |
| AdminArea.ScoreBounds | src/AdminArea.jsx:94-102 | the score is between 0 and 100 and is 100 exactly when the password is 16 long and has every kind of character |
| AdminArea.Score | src/AdminArea.jsx:94-102 | `calculatePasswordStrength`'s sum, no contract of its own; specified by `AdminArea.ScoreBounds`, `AdminArea.ShortNeverStrong` and `AdminArea.AcceptedAtLeastMedium` |
| AdminArea.ShortNeverStrong | src/AdminArea.jsx:94-106 | a password shorter than 12 scores at most 60 and is never strong |
| AdminArea.AcceptedAtLeastMedium | src/AdminArea.jsx:72-106 | an accepted password scores at least 70 and is never weak |
| AdminArea.CreateErrors | src/AdminArea.jsx:230-251 | no errors exactly when the user name is long enough, the password passes every rule and the confirmation matches |
| AdminArea.LoginOutcome | src/AdminArea.jsx:266-304 | success exactly when both fields are filled, an admin is stored and its name and password hash match, giving its session; empty fields give the missing-fields error |
| AdminArea.CreateThenLogin | src/AdminArea.jsx:230-304 | the admin just created logs in with its password, and not with a password of another hash |
| AdminArea.AdminAreaState.CreateAdminUser | src/AdminArea.jsx:230-263 | invalid input sets the errors and stores nothing; valid input stores the admin with the password's hash and completes the setup |
| AdminArea.AdminAreaState.AdminLogin | src/AdminArea.jsx:266-310 | the login outcome sets the session or the error, and the spinner ends once both fields were filled |
| AdminArea.AdminAreaState.Logout | src/AdminArea.jsx:313-318 | logged out, no admin, empty credentials, the rest as before |
| App.TabChange | src/App.jsx:139-150 | the tab is set; the series group is cleared unless the tab is the series tab, the film group unless it is the film tab, and the tab's own group is kept |
| App.TabChangeOneGroup | src/App.jsx:139-150 | after a tab change at most one selection group holds a value, and a repeated change changes nothing |
| App.NavigateKeepsOtherGroup | src/App.jsx:120-128 | navigating to an item sets its id and tab and keeps every other selection, so both groups can hold values afterwards |
| App.ProfileNavigation | src/App.jsx:131-137 | film and series types navigate to the item; any other type changes nothing |
| App.CategorySelect | src/App.jsx:152-159 | only the category of the matching tab type changes |
| App.MenuCategoryPick | src/Header.jsx:246-249 | a megamenu pick opens its tab with the category set, keeps the tab's item, and clears the other group |
| App.WatchlistClickOpensItem | src/components/Profile.jsx:105-114 | a watchlist click on a film or a series of the profile dialog opens that item in its tab; another kind changes nothing |
| App.AppState.constructor | src/App.jsx:13-19 | logged out, no user, the home tab and no selection |
| App.AppState.HandleLogin | src/App.jsx:109-112 | logged in with the credentials, the navigation as before |
| App.AppState.HandleLogout | src/App.jsx:114-118 | logged out with no user, the navigation as before |
| App.AppState.HandleNavigateToSeries | src/App.jsx:120-123 | the navigation after opening the series, the login as before |
| App.AppState.HandleNavigateToMovie | src/App.jsx:125-128 | the navigation after opening the film, the login as before |
| App.AppState.HandleProfileNavigation | src/App.jsx:131-137 | the navigation after the profile's request, the login as before |
| App.AppState.HandleTabChange | src/App.jsx:139-150 | the navigation after the tab change, the login as before |
| App.AppState.HandleCategorySelect | src/App.jsx:152-159 | the navigation after the category selection, the login as before |
| Header.AllLabel | src/Header.jsx:157-160 | never empty: the translation when it is not empty, else the German default of the menu |
| Header.GetCategories | src/Header.jsx:156-165 | for the series and film menus the "all" entry without id followed by that kind's categories; nothing for other menus |
| Header.DropdownsHaveEntries | src/Header.jsx:150-154 | a navigation item has a dropdown exactly when its category list is not empty |
| Header.ColumnCount | src/Header.jsx:222-223 | the number of columns is the ceiling of the count divided by 7 |
| Header.SplitColumns | src/Header.jsx:220-229 | ceil(n / 7) columns of 1 to 7 entries, all but the last full, giving the categories back in order when laid end to end |
| Header.MaskPassword | src/Header.jsx:143-145 | one bullet per character, or eight for a missing or empty password |
| Header.ExpiryDateUnlimited | src/Header.jsx:130-140 | a missing, empty or `'0'` date shows the unlimited label; any other date shows only what its seconds parse to |

## Left out

- Network and streaming I/O: every `fetch` and axios request is a given answer (text, bytes, a failure or an HTTP status). The Node proxy `epg-proxy.js` is not part of this model.
- `pako.ungzip` (gzip, RFC 1952) is a parameter that may fail; `DOMParser` and `querySelector` are replaced by a list of channel and programme element records with a parser-error flag.
- The SHA-256 of `crypto.subtle` (FIPS 180-4) is an abstract `string -> string` parameter of the admin area, and it never fails. `AdminArea.AdminAreaState.AdminLogin` therefore does not model the `catch` of `AdminArea.jsx` lines 305-306, which sets `'Login-Fehler: ' + error.message`. That path is taken whenever hashing throws. On a plain-HTTP page `crypto.subtle` is undefined, so every login fails there.
- localStorage, sessionStorage and their JSON round trips are in-memory fields and values; a corrupt stored value is not modelled. Whether a `localStorage.setItem` of the EPG service succeeds or throws (the quota) is a `fits` parameter of each writing method.
- The clock (`Date.now`, `new Date().toISOString()`) is an integer or string parameter; `new Date(string)` in the local time zone is an abstract function on the sliced ISO string; `toLocaleDateString` and `toLocaleTimeString` are abstract formatters.
- Floating point: `Math.round((a / b) * m)`, with `m` 100 or 50, is modelled as exact half-up rounding on integers (`EpgParse.RoundDiv`) in four places: the download percentage (src/services/epg.js:165), the channel and programme parse percentages (src/services/epg.js:225, 252) and programme progress (src/components/ChannelEpg.jsx:47). The source rounds a double, so a ratio just below a half may round differently: 57 of 200 gives 28.499999999999996 and rounds to 28, where the model gives 29; TMDB scores are `real`; `parseFloat` of a rating is an `Option<real>` given with the record.
- JavaScript strings are sequences of `char`: lengths count characters, and `toLowerCase` and `toUpperCase` map ASCII letters only.
- The `URL` parser and `window.location` are parameters: the parsed parts of a URL (or that it does not parse), the page protocol and origin.
- React rendering, effects and state batching; `async` interleaving, in particular the `isLoading` race of `loadPlaylist`; the `setInterval` refresh of `ChannelEpg`; the hover timers of the header's megamenu.
- Console logging and the progress messages' texts; the progress events' stage and percentage are modelled.
- The automatic login of `App.jsx` (lines 43-107) and `buildApiUrl`, which read stored credentials and `import.meta.env`; `buildPlaylistUrl` of `PlaylistContext.jsx` (lines 20-60) is a parameter of the playlist load.
- The header's category loading (`Header.jsx` lines 32-117) is network access; the loaded lists are parameters of `Header.GetCategories`.
- The TMDB network functions (`tmdbRequest`, the search and detail requests, `getSeriesDetailsByName`, `testTmdbConnection`) and `isTmdbEnabled`, which reads stored settings.
- No scheduler, `refreshAllEnabled`, name and URL validation on add, or cascade delete of stored guide data exists in `epg.js`, and the model adds none; `lastError` stays set after a later success, as written.
- The timezone suffix of an XMLTV time is ignored, as written.
- Epg.EpgService.GetChannelPrograms: the `hours = 24` default is not modelled, since every caller passes the hours. The `if (!sourceData.programs) return` guard is not modelled either, because a stored value always has its `programs` list in the model. The catch-all that returns `[]` is left out too, because the model has nothing in the body that throws.
- The pages' rendering (posters, the breadcrumb, category tabs, detail views, the video player) and the static language tables.

## Findings

| source | as written | input that shows it | evidently intended | confidence | as-written member | corrected member |
|---|---|---|---|---|---|---|
| src/services/epg.js:401-413 | `saveEpgData`'s result is ignored: when the guide data does not fit in storage, the fetch still reports success and writes `lastSuccess` and the counts into the source, though nothing was stored | a parse `Ok(data)` of a source with nothing stored yet, and a write of `epg_data` that throws (`dataFits` false): the fetch returns `Ok(data)`, yet the source's data reads as null | a failed save is a failure of the fetch, recorded as its `lastError` | not executed | Epg.UnsavedSuccess | Epg.CheckedSuccessStored |
| src/Movies.jsx:127-130 | a first copy whose genres name no known category gets `[category_name]` as its `categories`, a list that otherwise holds category ids and that the category filter compares with an id | a film `Vod(Some("Film"), 1, None, None, Some("5"), Some("Action"), None, None)`: no genre, category id `5`, name `Action`; selecting category `5` does not list it | the fallback is `[category_id]`, as for later copies at line 145 and on the home page's series at line 108 | not executed | Movies.FallbackHidesMovieOnPage | Movies.FallbackShowsMovie |

The film page's model (`Movies.FirstMovie`, `Movies.UniqueMovies`, `Movies.MergeMovies`,
`Movies.MoviesPage.LoadData`) computes the fallback as written; the corrected first entry is the
separate `Movies.FirstMovieFixed`, about which `Movies.FallbackShowsMovie` is proved. Likewise the
service's `Epg.EpgService.FetchEpgSource` reports the outcome as written, and the corrected fetch
is the separate `Epg.EpgService.FetchEpgSourceChecked`, which reports `Epg.CheckedOutcome`.

Two places where the code and its comments differ, and the model follows the code:

- The `LiveTV.jsx` name regex `/,(.+)$/` (lines 150-151) is commented as taking the text after the last comma. It matches at the first comma with a non-empty rest, so a name containing a comma is kept whole (`M3u.AfterCommaFirst`).
- The EPG proxy template is used as is when it has no `{URL}` placeholder, so the target is then not in the request at all (`EpgModel.RequestUrlSpec`).
