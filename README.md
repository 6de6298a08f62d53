# libseinfeld store, modelled in Dafny

This project models the `Seinfeld` store of `seinfeld/seinfeld.py`. The store gives read-only access to the
Seinfeld scripts dataset: speakers, episodes, seasons and quotes. An in-memory copy of the dataset replaces the SQLite
file (`Entities.Database`). It holds:
- the rows of the episode table;
- the rows of the `quote` view;
- the distinct values of the speaker column;
- the engine's `LIKE` operator, left uninterpreted.

The model keeps the store's own structure:

- **`Cached.MethodCache`**: the dictionary that `@cached` closes over, as a class with a `map`.
  - `Cached.KeyOf` is the key computation. The keyword argument wins over the first positional argument; without
    either, the key is `None`.
  - There is one dictionary per decorated method, not per store. So the dictionaries are passed to the constructor,
    and stores built with the same ones share every entry.
  - Nothing ever clears a dictionary, `close()` included.
- **`SeinfeldStore.Seinfeld`**: the store, as a class.
  - `isOpen`/`db` model `_open`/`_db`, and `Open`, `Close` and `Cursor` update them.
  - The three accessors are methods behind the cache (`LookupSpeaker`, `LookupEpisode`, `LookupSeason`). A falsy
    key (`None`, `0`, `''`) builds the whole mapping, through the loops of `Index`. A truthy key looks itself up in
    the whole mapping, which is cached under `None`.
  - Each accessor's effect on its cache is a function: `SpeakerAfter`, `EpisodeAfter` and the `SeasonStep` relation.
  - Two invariants govern the caches.
    - `Valid()` holds their data-independent shape. It is the one thing that stays true when another store with other
      data shares them.
    - `Agrees()` says they hold only what this store's dataset gives. Every method keeps it, and under it returns
      what the dataset gives (`FreshSpeaker`, `FreshEpisode`, `QuoteOf`).
- **`quote`, `passage`, `search` and `random`**: these become `QuoteById`, `PassageAround`, `Search` and `RandomQuote`.
  - The SQL they send becomes filter, sort and limit over the rows (`Query`).
  - The WHERE clause that `search` assembles stays a list of conjuncts with parallel parameters (`Query.BuildFilter`).
    It is proved to select exactly the rows the criteria ask for.
- **Exceptions**: they become `Failure` values (`Entities.Error`):
  - `QuoteIdOutOfRange` for the `ValueError` of `quote`;
  - `NoCriteria` for the `ValueError` of `search`;
  - `MissingRow` for the error that `list(None)` raises when no row has the id;
  - `NotAnEpisode` for `quote.episode.id` on an anchor whose episode is not a record;
  - `EmptyWhere` for the engine's rejection of `where ` with no conjunct.

  That last case happens when some episode or speaker argument was truthy, every truthy one resolved to `None`,
  and the subject is falsy. A call with `episode=999` alone is one such call. An episode id or a speaker name that
  is not in the dataset makes `episode(id=...)` or `speaker(name=...)` return `None`, so that criterion silently
  drops out of the WHERE clause. With another criterion present, the search widens instead of coming back empty.
  The model keeps this behaviour: see `Search`'s contract on `criteria`.

Python's default arguments (`length=5`, `limit=10`, `reverse=False`, `random=False`) are passed explicitly by
callers of the model.

Behaviour of the code worth knowing:
- **Speaker keys.** The speaker mapping is keyed by the name exactly as stored. A lookup upper-cases its argument,
  so a stored name with a lower-case letter can never be found (`Index.LowerCaseNameUnreachable`).
- **Cache lifetime.** The caches are not tied to the connection. They survive `close()` and are shared by every
  store. A cached answer is never replaced: every query method states that both dictionaries only grow
  (`Extends`), and gives their exact new contents.
- **Reversed search.** `reverse=True` gives the exact reverse of the ascending order of all matching rows
  (`Query.DescendingIsReverse`) when their (episode, number) keys are unique. It is applied before `LIMIT`, so with a
  limit the reversed call returns the last rows, not the first ones reversed.
- **Passage window.** The window is centred on the anchor's number: length 5 around number 250 spans 248 to 252
  (`Query.WindowAround250`).
- **Limit zero.** `limit=0` is falsy and becomes `-1`, so it returns every matching row (`Query.LimitOf`).

## Model

| member | source | states |
|---|---|---|
| Wrappers.Get | seinfeld/seinfeld.py:112 | `d.get(k, None)` finds a value exactly when the key is present, and it is the stored value |
| Text.Upper | seinfeld/seinfeld.py:112 | `str.upper()` keeps the length, upper-cases each letter and leaves no lower-case letter |
| Text.Capitalize | seinfeld/seinfeld.py:122 | `str.capitalize()` keeps the length, upper-cases the first character and lower-cases the rest |
| Text.CapitalizeIgnoresCase | seinfeld/seinfeld.py:122 | the display name does not depend on the case of the stored name |
| Text.UpperOfCapitalize | seinfeld/seinfeld.py:122 | the display name upper-cases back to the upper-cased stored name |
| Text.Split | seinfeld/seinfeld.py:174 | `str.split(',')` returns at least one piece |
| Text.SplitPiecesFree | seinfeld/seinfeld.py:174 | no piece holds the separator |
| Text.JoinSplit | seinfeld/seinfeld.py:174 | joining the pieces with the separator gives the string back |
| Text.SplitWithoutSeparator | seinfeld/seinfeld.py:174 | a string without the separator splits into itself alone |
| Text.SplitAfterPiece | seinfeld/seinfeld.py:174 | a separator-free piece followed by the separator splits off as the first piece |
| Text.SplitJoin | seinfeld/seinfeld.py:174 | splitting a join of separator-free pieces gives the pieces back |
| Text.StripLeft | seinfeld/seinfeld.py:174 | `lstrip()` returns a suffix of the input that starts with a non-space character |
| Text.StripRight | seinfeld/seinfeld.py:174 | `rstrip()` returns a prefix of the input that ends with a non-space character |
| Text.StripLeftSuffix | seinfeld/seinfeld.py:174 | `lstrip()` removes exactly a run of leading whitespace |
| Text.StripRightPrefix | seinfeld/seinfeld.py:174 | `rstrip()` removes exactly a run of trailing whitespace |
| Text.Strip | seinfeld/seinfeld.py:174 | `strip()` leaves no whitespace at either end |
| Text.StripSurroundings | seinfeld/seinfeld.py:174 | `strip()` returns a slice of the input with only whitespace around it |
| Text.StripStripped | seinfeld/seinfeld.py:174 | stripping a string with no surrounding whitespace leaves it unchanged |
| Entities.SpeakerOf | seinfeld/seinfeld.py:122 | a speaker's id is the stored name, and its display name has the same length and upper-cases to the same string |
| Entities.Writers | seinfeld/seinfeld.py:174 | the writer set is never empty, since `split` yields at least one piece |
| Entities.StripEach | seinfeld/seinfeld.py:174 | stripping a non-empty list of pieces gives a non-empty set |
| Entities.StripEachIsSetOf | seinfeld/seinfeld.py:174 | the recursive strip-and-collect is the set comprehension `{w.strip() for w in ...}` |
| Entities.WritersArePieces | seinfeld/seinfeld.py:174 | the writers are exactly the stripped comma-separated pieces, and none has surrounding whitespace or a comma |
| Entities.StripKeepsAbsent | seinfeld/seinfeld.py:174 | stripping introduces no character that was not there |
| Entities.BuildEpisode | seinfeld/seinfeld.py:168-176 | `_episode` keeps the row's id, season and number; its writer set is non-empty, and every name in it is stripped and free of commas |
| Entities.StripOneSpace | seinfeld/seinfeld.py:174 | the space after a comma is stripped off the following name |
| Entities.WritersOfTwo | seinfeld/seinfeld.py:174 | a column `"A, B"` of two clean names gives exactly the set `{A, B}` |
| Cached.MethodCache.constructor | seinfeld/seinfeld.py:31 | the dictionary starts empty |
| Cached.MethodCache.Lookup | seinfeld/seinfeld.py:41-44 | a hit exactly when the key is present, returning the stored value, even a stored `None` |
| Cached.MethodCache.Remember | seinfeld/seinfeld.py:42 | storing a key changes that entry only |
| Cached.KeyOf | seinfeld/seinfeld.py:35-39 | without a key name the key is `None`; otherwise a key is never invented: it is the value of a keyword argument or the first positional argument |
| Cached.KeyIsBoundParameter | seinfeld/seinfeld.py:35-39 | with no argument, one positional argument or the keyword argument, the key is the value the parameter is bound to |
| Cached.KeywordOverridesPositional | seinfeld/seinfeld.py:39 | a keyword argument named by the decorator wins over a positional one |
| Index.SpeakerIndex | seinfeld/seinfeld.py:120-123 | the speaker mapping has exactly the stored names as keys, each mapped to its speaker record |
| Index.BuildSpeakers | seinfeld/seinfeld.py:120-125 | the loop over the speaker column builds that mapping |
| Index.SpeakerLookup | seinfeld/seinfeld.py:111-112 | `speaker(name)` finds a speaker exactly when the upper-cased name is stored, and the record shows the name capitalized whatever its case |
| Index.LowerCaseNameUnreachable | seinfeld/seinfeld.py:112 | a stored name with a lower-case letter is never returned by a lookup |
| Index.BuildAll | seinfeld/seinfeld.py:161-162 | one `_episode` record per row, in row order |
| Index.IndexById | seinfeld/seinfeld.py:160-164 | the episode mapping's keys are exactly the ids of the records, each mapped to a record with that id |
| Index.BuildEpisodes | seinfeld/seinfeld.py:160-166 | the loop over the episode rows builds that mapping |
| Index.EpisodeIndex | seinfeld/seinfeld.py:160-166 | the full episode mapping's keys are exactly the ids of the episode table, each mapped to a record with that id built from a row of the table |
| Index.IndexByIdAt | seinfeld/seinfeld.py:164 | with unique ids, every record is found under its own id |
| Index.GroupSeasons | seinfeld/seinfeld.py:135-142 | the loop over the episodes produces a grouping: each episode sits at its season and number, each season is keyed by its number |
| Index.SeasonNumbers | seinfeld/seinfeld.py:135-142 | a season's episode numbers are exactly those of the episodes of that season |
| Index.SeasonHasEpisode | seinfeld/seinfeld.py:137-140 | every season key comes from at least one episode |
| Index.GroupingPlacesEach | seinfeld/seinfeld.py:140 | when no two episodes share a season and number, each one is found in its own slot |
| Index.GroupingDetermined | seinfeld/seinfeld.py:135-142 | under the same condition, the grouping does not depend on the order the episodes are visited in |
| Query.Window | seinfeld/seinfeld.py:219-222 | the passage window starts at 1 or later, is `length` wide, holds a positive anchor, and centres it away from the episode's start |
| Query.OutOfQuoteRange | seinfeld/seinfeld.py:191 | the ids `quote` accepts are exactly 1 to 52206 |
| Query.WindowAround250 | seinfeld/seinfeld.py:219-222 | length 5 around number 250 is 248 to 252 |
| Query.BuildFilter | seinfeld/seinfeld.py:251-264 | one conjunct per criterion present, in the order episode, speaker, subject, with parallel parameters, selecting exactly the rows that match the criteria |
| Query.FilterAgrees | seinfeld/seinfeld.py:254-264 | a row satisfies the assembled conjuncts exactly when it matches the criteria |
| Query.Pattern | seinfeld/seinfeld.py:264 | the `LIKE` pattern is the subject with one `%` on each side |
| Query.Filter | seinfeld/seinfeld.py:246 | `where` keeps every row that passes, as often as it occurs, and drops the rest |
| Query.OrderOf | seinfeld/seinfeld.py:266-271 | `random` overrides `reverse`; `reverse` alone gives the descending order |
| Query.Insert | seinfeld/seinfeld.py:269-271 | inserting into a sorted list keeps it sorted and adds exactly the row |
| Query.SortRows | seinfeld/seinfeld.py:269-271 | `order by episode_id, utterance_number` returns the same rows, sorted ascending or descending |
| Query.Take | seinfeld/seinfeld.py:273-274 | `limit n` returns a prefix, of length `n` when enough rows exist, and all rows for the `-1` a falsy limit becomes |
| Query.LimitOf | seinfeld/seinfeld.py:273-274 | the engine never receives a limit of 0: a falsy limit becomes `-1` (every row), a negative one stays negative, and a positive one is passed on |
| Query.SortedUnique | seinfeld/seinfeld.py:269-271 | with unique (episode, number) keys, the sorted order is unique |
| Query.Reverse | seinfeld/seinfeld.py:268-271 | the reversal has the same length, with the rows in the opposite order |
| Query.ReverseSameRows | seinfeld/seinfeld.py:268-271 | reversing keeps the rows |
| Query.ReverseSorted | seinfeld/seinfeld.py:268-271 | an ascending list reversed is descending |
| Query.DescendingIsReverseOf | seinfeld/seinfeld.py:268-271 | with unique keys, any descending arrangement of the rows is the reverse of the ascending one |
| Query.DescendingIsReverse | seinfeld/seinfeld.py:268-271 | with unique keys, `reverse=True` sorts the matches in exactly the reverse of the default order |
| SeinfeldStore.SpeakerAfter | seinfeld/seinfeld.py:106-112 | a `speaker` call keeps the cache's shape and its old entries, and adds the key (and `None`, for a truthy key) |
| SeinfeldStore.SpeakerAfterAgrees | seinfeld/seinfeld.py:111-112 | with a cache that agrees with the dataset, the call returns what the dataset gives, and the cache still agrees |
| SeinfeldStore.SpeakerRemembered | seinfeld/seinfeld.py:41-44 | a second call with the same key changes nothing, even when the first result was `None` |
| SeinfeldStore.EpisodeAfter | seinfeld/seinfeld.py:144-150 | the same for `episode` |
| SeinfeldStore.EpisodeAfterAgrees | seinfeld/seinfeld.py:149-150 | the same for `episode` |
| SeinfeldStore.EpisodeRemembered | seinfeld/seinfeld.py:41-44 | the same for `episode` |
| SeinfeldStore.SeasonStepHit | seinfeld/seinfeld.py:41-44 | a cached season key leaves the season cache unchanged |
| SeinfeldStore.SeasonStepThroughNone | seinfeld/seinfeld.py:132-133 | a truthy season number is answered from the whole mapping under `None` |
| SeinfeldStore.SeasonStepFalsy | seinfeld/seinfeld.py:135-142 | a falsy key stores a grouping of the episodes |
| SeinfeldStore.SeasonAddAgrees | seinfeld/seinfeld.py:135-142 | storing a grouping of this dataset's episodes keeps the season cache in agreement |
| SeinfeldStore.QuoteOf | seinfeld/seinfeld.py:178-186 | `_quote` as the dataset answers it: id, number and text are kept; episode id 0 gives the whole episode mapping, not a record; otherwise the episode is a record exactly when the table has that id, and carries it; a non-empty speaker name gives a record exactly when its upper-cased form is stored, with that id; an empty one gives the whole speaker mapping |
| SeinfeldStore.EpisodesAfterRows | seinfeld/seinfeld.py:183 | `_quote` on each row in turn keeps every entry of the `episode` dictionary and leaves an entry for each row's episode id |
| SeinfeldStore.SpeakersAfterRows | seinfeld/seinfeld.py:184 | the same for the `speaker` dictionary and each row's speaker name |
| SeinfeldStore.AccessorKeys | seinfeld/seinfeld.py:35-39 | the keys each call site reads: `_quote`'s positional episode id and speaker name, `search`'s keyword arguments, and `None` for the full-table calls inside `speaker`, `season` and `episode` |
| SeinfeldStore.ArgEpisodeEntries | seinfeld/seinfeld.py:236-237 | resolving `search`'s episode argument adds the id's entry when the argument is a truthy id, keeps every old entry, and otherwise changes nothing |
| SeinfeldStore.ArgSpeakerEntries | seinfeld/seinfeld.py:239-240 | the same for the speaker argument and the `speaker` dictionary |
| SeinfeldStore.FindRow | seinfeld/seinfeld.py:196-201 | `where id = ?` finds a row exactly when one has the id, and the row found has it |
| SeinfeldStore.SameEpisodeByNumber | seinfeld/seinfeld.py:214-216 | rows of one episode in (episode, number) order are in number order |
| SeinfeldStore.PassageHoldsAnchor | seinfeld/seinfeld.py:219-224 | a passage of positive length holds the anchor's own row |
| SeinfeldStore.PermutedLength | seinfeld/seinfeld.py:267 | `ORDER BY RANDOM()` keeps the number of rows |
| SeinfeldStore.PermutedMember | seinfeld/seinfeld.py:267 | `ORDER BY RANDOM()` returns only rows it was given |
| SeinfeldStore.WhereSelects | seinfeld/seinfeld.py:251-264 | the assembled WHERE clause selects exactly the rows that match the criteria |
| SeinfeldStore.EmptyWhereMeansNoCriteria | seinfeld/seinfeld.py:254-264 | the WHERE clause is empty exactly when no criterion resolved to anything |
| SeinfeldStore.Arrange | seinfeld/seinfeld.py:266-271 | the ORDER BY keeps exactly the rows, each as often; without `random` they are sorted, descending when `reverse` |
| SeinfeldStore.ArrangedMatch | seinfeld/seinfeld.py:266-277 | after order and limit, every returned row matches; without `random` the rows are the sorted matches cut to the limit; with it, the shuffled matches cut to the limit |
| SeinfeldStore.RandomPick | seinfeld/seinfeld.py:286-291 | with a limit of one, at most one row comes back, one exactly when some row matches, and it is a matching row |
| SeinfeldStore.Seinfeld.constructor | seinfeld/seinfeld.py:53-57 | a new store is closed and has no connection, and it uses the given caches |
| SeinfeldStore.Seinfeld.Open | seinfeld/seinfeld.py:71-76 | after `open()` the store is open, connected to its path; an open store is unchanged |
| SeinfeldStore.Seinfeld.Close | seinfeld/seinfeld.py:89-97 | after `close()` the store is closed with no connection; a closed store is unchanged, and the caches are untouched |
| SeinfeldStore.Seinfeld.Cursor | seinfeld/seinfeld.py:99-104 | `cursor()` leaves the store open and returns a cursor on its connection; an open store is unchanged |
| SeinfeldStore.Seinfeld.LookupSpeaker | seinfeld/seinfeld.py:106-125 | `speaker(name)`: the cache becomes `SpeakerAfter`, the result is the stored entry, and the connection opens exactly when the speaker column is read |
| SeinfeldStore.Seinfeld.LookupEpisode | seinfeld/seinfeld.py:144-166 | `episode(id)`: the same with `EpisodeAfter` |
| SeinfeldStore.Seinfeld.LookupSeason | seinfeld/seinfeld.py:127-133 | `season(number)`: the season cache takes a `SeasonStep`, the episode cache is filled only when a grouping is built, the result is the stored entry, and agreement with the dataset is kept |
| SeinfeldStore.Seinfeld.SeasonBody | seinfeld/seinfeld.py:132-142 | a truthy number looks itself up in `season()`; otherwise the result groups the values of `episode()` |
| SeinfeldStore.Seinfeld.ResolveQuote | seinfeld/seinfeld.py:178-186 | `_quote(row)` keeps the row's id, number and text, and puts the `episode(id)` and `speaker(name)` results in place of the ids; both dictionaries take that call's step, and the connection opens exactly when either lookup misses; under agreement it is `QuoteOf` the row |
| SeinfeldStore.Seinfeld.ResolveAll | seinfeld/seinfeld.py:226 | one quote per row, in order, each with its row's fields and the dictionaries' entries for its episode and speaker; the dictionaries end as `EpisodesAfterRows`/`SpeakersAfterRows` of the rows, keeping every old entry; the connection opens exactly when some lookup misses |
| SeinfeldStore.Seinfeld.QuoteById | seinfeld/seinfeld.py:188-201 | `quote(id)` fails with the range error exactly for ids outside 1 to 52206, without touching the store; otherwise it opens the connection and fails with `MissingRow`, dictionaries untouched, exactly when no row has the id; else it returns that row's quote, each dictionary taking that row's step and the quote holding their entries |
| SeinfeldStore.Seinfeld.PassageAround | seinfeld/seinfeld.py:203-227 | `passage(quote_or_id)`: an id goes through `quote()` and its errors pass through, an out-of-range id touching nothing; any other failure is `NotAnEpisode`, which happens exactly when the anchor's episode is not a record, and then no row is resolved; the dictionaries end as the anchor's step followed by the passage rows', keeping every old entry |
| SeinfeldStore.Seinfeld.PassageOf | seinfeld/seinfeld.py:210-227 | the passage has the anchor's id and episode, holds exactly the anchor episode's rows numbered within the window, in number order, each as a quote with its row's fields and the dictionaries' entries; the dictionaries end as `EpisodesAfterRows`/`SpeakersAfterRows` of those rows |
| SeinfeldStore.Seinfeld.Search | seinfeld/seinfeld.py:229-240 | `search` fails with `NoCriteria` exactly when episode, speaker and subject are all falsy, and then changes nothing; otherwise the dictionaries end as the arguments' steps followed by the returned rows', keeping every old entry; ids and names resolve through the cached accessors to the dataset's records |
| SeinfeldStore.Seinfeld.ResolveCriteria | seinfeld/seinfeld.py:236-240 | the criteria keep the subject and the record arguments, drop falsy arguments, and take ids and names through `episode(id=...)` and `speaker(name=...)`, each dictionary taking only that argument's step; the connection opens exactly when one of those lookups misses |
| SeinfeldStore.Seinfeld.Select | seinfeld/seinfeld.py:242-279 | the query fails exactly when its WHERE clause is empty; otherwise it returns the matching rows in the asked order, cut to the limit, as quotes holding the dictionaries' entries; the dictionaries end as `EpisodesAfterRows`/`SpeakersAfterRows` of the returned rows |
| SeinfeldStore.Seinfeld.ResolveEpisodeArg | seinfeld/seinfeld.py:236-237 | an id goes through `episode(id=...)`, a record is kept, a falsy argument is dropped; the connection opens exactly when the id's lookup misses |
| SeinfeldStore.Seinfeld.ResolveSpeakerArg | seinfeld/seinfeld.py:239-240 | a name goes through `speaker(name=...)`, a record is kept, a falsy argument is dropped; the connection opens exactly when the name's lookup misses |
| SeinfeldStore.Seinfeld.RandomQuote | seinfeld/seinfeld.py:281-291 | `random()` never filters by episode, resolves the speaker argument as `search` does (a name through `speaker(name=...)` to the dataset's record, a record as given), fails when speaker and subject are both falsy and then touches nothing, returns `None` exactly when nothing matches, and otherwise returns the quote of a row matching those criteria, holding the dictionaries' entries; the dictionaries end as the speaker argument's step followed by that row's |

## Left out

- The SQLite connection, the SQL text and the temporary `quote` view are not modelled. The dataset is a value
  (`Entities.Database`), and the view's rows are given with their text already joined.
- The connection can fail inside `open()` after `_open` is already set. The model's `Open` always succeeds.
- The `LIKE` operator is a parameter of the dataset. SQLite's case folding and its unescaped `%`/`_` in the subject
  are not modelled.
- `dateutil.parser.parse` on the date column is not modelled: `Episode.date` keeps the column's text.
- Case mapping (`upper`, `capitalize`, `lower`) covers ASCII letters only. Whitespace for `strip` follows Python's
  `str.isspace`, including the Unicode space characters.
- `SeinfeldStore.Seinfeld.Select`: `ORDER BY RANDOM()` is the caller's `shuffle` function. Its only requirement is
  that it returns a permutation of its input, so the model does not say which order the engine picks.
- `SeinfeldStore.Seinfeld.RandomQuote`: which matching quote is returned depends on that same `shuffle` parameter.
- `Query.SortRows`: the order among rows that share (episode id, utterance number) is the insertion sort's. SQLite
  leaves it unspecified. `Query.SortedUnique` shows the order is determined when the keys are unique.
- `Index.GroupSeasons`: the order in which `season()` visits the values of the episode mapping is not modelled (it
  takes any episode not yet placed). `Index.GroupingDetermined` shows the result does not depend on it when no two
  episodes share a season and number.
- `Index.GroupSeasons`: in-place updates are not modelled. `season()` updates a `Season`'s episode dictionary in
  place; the model rebuilds the `Season` value, so aliasing of that dictionary is not captured.
- `SeinfeldStore.Seinfeld.PassageOf`: it does not state that a passage holds exactly `length` quotes, since that
  depends on which numbers the episode has. It states which rows are returned.
- A call that binds the key both positionally and by keyword gets its key from the keyword
  (`Cached.KeywordOverridesPositional`). The `TypeError` Python then raises when it calls the method is not
  modelled; the store never makes such a call.
- Members unrelated to the queries are not modelled: `__repr__`, `__enter__`/`__exit__`, and the unused
  `_episode_cache`/`_season_cache` fields.
- The default arguments of `passage`, `search` and `random` are not modelled. Callers pass those values explicitly.
