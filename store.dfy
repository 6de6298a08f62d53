/** The `Seinfeld` store: a connection that opens on demand, the three memoised accessors
    (`speaker`, `episode`, `season`), the row-to-quote builder, and the `quote`, `passage`,
    `search` and `random` queries, run against an in-memory copy of the dataset. */
module SeinfeldStore {
  import opened Wrappers
  import opened Text
  import opened Entities
  import opened Cached
  import opened Index
  import opened Query

  /** The handle `sqlite3.connect(path)` returns, and a cursor on it. */
  datatype Connection = Connection(path: string)
  datatype DbCursor = DbCursor(connection: Connection)

  /** The anchor `passage` accepts: a quote, or a quote id to look up first. */
  datatype QuoteRef = GivenQuote(quote: Quote) | QuoteId(id: int)

  /** The `episode` argument of `search`: absent, an episode id, or an episode record. */
  datatype EpisodeArg = NoEpisode | EpisodeId(id: int) | GivenEpisode(episode: Episode)

  /** The `speaker` argument of `search`: absent, a speaker name, or a speaker record. */
  datatype SpeakerArg = NoSpeaker | SpeakerName(name: string) | GivenSpeaker(speaker: Speaker)

  /** Python truth values of the arguments: an id `0` and a name `''` are false, a record is true. */
  predicate EpisodeArgTruthy(a: EpisodeArg)
  {
    a.GivenEpisode? || (a.EpisodeId? && a.id != 0)
  }

  predicate SpeakerArgTruthy(a: SpeakerArg)
  {
    a.GivenSpeaker? || (a.SpeakerName? && a.name != "")
  }

  type SpeakerEntries = map<Option<string>, SpeakerResult>
  type EpisodeEntries = map<Option<int>, EpisodeResult>
  type SeasonEntries = map<Option<int>, SeasonResult>

  // ---------------------------------------------------------------------------
  // speaker(name)

  /** What `speaker(name)` computes from the dataset when nothing is cached. */
  function FreshSpeaker(data: Database, key: Option<string>): SpeakerResult
  {
    if TruthyStr(key) then OneSpeaker(Get(SpeakerIndex(data.speakers), Upper(key.value)))
    else AllSpeakers(SpeakerIndex(data.speakers))
  }

  /** The shape every `speaker` cache keeps, whichever stores filled it: a falsy key holds a
      whole mapping, and a truthy key was filled by a lookup in the mapping under `None`. */
  predicate SpeakerCoherent(entries: SpeakerEntries)
  {
    forall k :: k in entries ==>
      if TruthyStr(k) then
        None in entries && entries[None].AllSpeakers?
        && entries[k] == OneSpeaker(Get(entries[None].speakers, Upper(k.value)))
      else entries[k].AllSpeakers?
  }

  /** Every whole mapping in the cache is the one this dataset gives. */
  predicate SpeakerAgrees(data: Database, entries: SpeakerEntries)
  {
    forall k :: k in entries && !TruthyStr(k) ==> entries[k] == AllSpeakers(SpeakerIndex(data.speakers))
  }

  /** A call with `key` reads the speaker column: the key is not cached, nor is the mapping a
      truthy key would be looked up in. */
  predicate SpeakerScans(key: Option<string>, entries: SpeakerEntries)
  {
    key !in entries && (!TruthyStr(key) || None !in entries)
  }

  /** The cache after a call with `key`: unchanged on a hit; otherwise the result is added, and
      for a truthy key the whole mapping under `None` first if it was missing. */
  function SpeakerAfter(data: Database, key: Option<string>, entries: SpeakerEntries): (after: SpeakerEntries)
    requires SpeakerCoherent(entries)
    ensures SpeakerCoherent(after)
    ensures after.Keys == entries.Keys + {key} + (if TruthyStr(key) then {None} else {})
    ensures forall k :: k in entries ==> after[k] == entries[k]
  {
    if key in entries then entries
    else if TruthyStr(key) then
      var withAll := if None in entries then entries else entries[None := AllSpeakers(SpeakerIndex(data.speakers))];
      withAll[key := OneSpeaker(Get(withAll[None].speakers, Upper(key.value)))]
    else entries[key := AllSpeakers(SpeakerIndex(data.speakers))]
  }

  /** A cache that agrees with the dataset still agrees after a call, and the call then returns
      what the dataset gives. */
  lemma SpeakerAfterAgrees(data: Database, key: Option<string>, entries: SpeakerEntries)
    requires SpeakerCoherent(entries) && SpeakerAgrees(data, entries)
    ensures SpeakerAgrees(data, SpeakerAfter(data, key, entries))
    ensures SpeakerAfter(data, key, entries)[key] == FreshSpeaker(data, key)
  {
    if key in entries && TruthyStr(key) {
      assert entries[None] == AllSpeakers(SpeakerIndex(data.speakers));
    }
  }

  /** A second call with the same key changes nothing and returns what the first returned, even
      when that was `None`. */
  lemma SpeakerRemembered(data: Database, key: Option<string>, entries: SpeakerEntries)
    requires SpeakerCoherent(entries)
    ensures SpeakerAfter(data, key, SpeakerAfter(data, key, entries)) == SpeakerAfter(data, key, entries)
  {
  }

  // ---------------------------------------------------------------------------
  // episode(id)

  /** What `episode(id)` computes from the dataset when nothing is cached. */
  function FreshEpisode(data: Database, key: Option<int>): EpisodeResult
  {
    if TruthyInt(key) then OneEpisode(Get(EpisodeIndex(data.episodes), key.value))
    else AllEpisodes(EpisodeIndex(data.episodes))
  }

  predicate EpisodeCoherent(entries: EpisodeEntries)
  {
    forall k :: k in entries ==>
      if TruthyInt(k) then
        None in entries && entries[None].AllEpisodes?
        && entries[k] == OneEpisode(Get(entries[None].episodes, k.value))
      else entries[k].AllEpisodes?
  }

  predicate EpisodeAgrees(data: Database, entries: EpisodeEntries)
  {
    forall k :: k in entries && !TruthyInt(k) ==> entries[k] == AllEpisodes(EpisodeIndex(data.episodes))
  }

  predicate EpisodeScans(key: Option<int>, entries: EpisodeEntries)
  {
    key !in entries && (!TruthyInt(key) || None !in entries)
  }

  function EpisodeAfter(data: Database, key: Option<int>, entries: EpisodeEntries): (after: EpisodeEntries)
    requires EpisodeCoherent(entries)
    ensures EpisodeCoherent(after)
    ensures after.Keys == entries.Keys + {key} + (if TruthyInt(key) then {None} else {})
    ensures forall k :: k in entries ==> after[k] == entries[k]
  {
    if key in entries then entries
    else if TruthyInt(key) then
      var withAll := if None in entries then entries else entries[None := AllEpisodes(EpisodeIndex(data.episodes))];
      withAll[key := OneEpisode(Get(withAll[None].episodes, key.value))]
    else entries[key := AllEpisodes(EpisodeIndex(data.episodes))]
  }

  lemma EpisodeAfterAgrees(data: Database, key: Option<int>, entries: EpisodeEntries)
    requires EpisodeCoherent(entries) && EpisodeAgrees(data, entries)
    ensures EpisodeAgrees(data, EpisodeAfter(data, key, entries))
    ensures EpisodeAfter(data, key, entries)[key] == FreshEpisode(data, key)
  {
    if key in entries && TruthyInt(key) {
      assert entries[None] == AllEpisodes(EpisodeIndex(data.episodes));
    }
  }

  lemma EpisodeRemembered(data: Database, key: Option<int>, entries: EpisodeEntries)
    requires EpisodeCoherent(entries)
    ensures EpisodeAfter(data, key, EpisodeAfter(data, key, entries)) == EpisodeAfter(data, key, entries)
  {
  }

  // ---------------------------------------------------------------------------
  // season(number)

  predicate SeasonCoherent(entries: SeasonEntries)
  {
    forall k :: k in entries ==>
      if TruthyInt(k) then
        None in entries && entries[None].AllSeasons?
        && entries[k] == OneSeason(Get(entries[None].seasons, k.value))
      else entries[k].AllSeasons?
  }

  /** Every whole mapping in the cache groups the dataset's episodes. */
  ghost predicate SeasonAgrees(data: Database, entries: SeasonEntries)
  {
    forall k :: k in entries && !TruthyInt(k) ==>
      entries[k].AllSeasons? && IsGrouping(EpisodeIndex(data.episodes).Values, entries[k].seasons)
  }

  predicate SeasonScans(key: Option<int>, entries: SeasonEntries)
  {
    key !in entries && (!TruthyInt(key) || None !in entries)
  }

  /** The cache after a call with `key`: the old entries kept, `key` added (and `None` for a
      truthy key), and a mapping built by the call grouping `episodes`. */
  ghost predicate SeasonStep(key: Option<int>, before: SeasonEntries, after: SeasonEntries, episodes: map<int, Episode>)
  {
    && SeasonCoherent(after)
    && after.Keys == before.Keys + {key} + (if TruthyInt(key) then {None} else {})
    && (forall k :: k in before ==> after[k] == before[k])
    && (SeasonScans(key, before) ==>
          var built := if TruthyInt(key) then None else key;
          after[built].AllSeasons? && IsGrouping(episodes.Values, after[built].seasons))
  }

  /** A key already cached: nothing changes. */
  lemma SeasonStepHit(key: Option<int>, entries: SeasonEntries, episodes: map<int, Episode>)
    requires SeasonCoherent(entries) && key in entries
    ensures SeasonStep(key, entries, entries, episodes)
  {
  }

  /** A truthy key missing from the cache: the call looks the number up in the whole mapping,
      which the call with `None` has just ensured. */
  lemma SeasonStepThroughNone(key: Option<int>, before: SeasonEntries, mid: SeasonEntries, episodes: map<int, Episode>)
    requires SeasonCoherent(before) && TruthyInt(key) && key !in before
    requires SeasonStep(None, before, mid, episodes)
    ensures SeasonStep(key, before, mid[key := OneSeason(Get(mid[None].seasons, key.value))], episodes)
  {
  }

  /** A falsy key missing from the cache: the call groups the episodes and stores the result. */
  lemma SeasonStepFalsy(key: Option<int>, before: SeasonEntries, value: SeasonResult, episodes: map<int, Episode>)
    requires SeasonCoherent(before) && !TruthyInt(key) && key !in before
    requires value.AllSeasons? && IsGrouping(episodes.Values, value.seasons)
    ensures SeasonStep(key, before, before[key := value], episodes)
  {
  }

  /** Adding a whole mapping that groups the dataset's episodes keeps a season cache in
      agreement with the dataset. */
  lemma SeasonAddAgrees(data: Database, entries: SeasonEntries, key: Option<int>, value: SeasonResult)
    requires SeasonAgrees(data, entries)
    requires value.AllSeasons? && IsGrouping(EpisodeIndex(data.episodes).Values, value.seasons)
    ensures SeasonAgrees(data, entries[key := value])
  {
  }

  // ---------------------------------------------------------------------------
  // quotes

  /** `_quote(row)` as the dataset answers it. */
  function QuoteOf(data: Database, row: QuoteRow): (q: Quote)
    ensures q.id == row.id && q.number == row.number && q.text == row.text
    ensures row.episodeId == 0 ==> q.episode.AllEpisodes?
    ensures row.episodeId != 0 ==> (
      && q.episode.OneEpisode?
      && (q.episode.episode.Some? <==> exists j :: 0 <= j < |data.episodes| && data.episodes[j].id == row.episodeId)
      && (q.episode.episode.Some? ==> q.episode.episode.value.id == row.episodeId))
    ensures row.speaker == "" ==> q.speaker.AllSpeakers?
    ensures row.speaker != "" ==> (
      && q.speaker.OneSpeaker?
      && (q.speaker.speaker.Some? <==> Upper(row.speaker) in data.speakers)
      && (q.speaker.speaker.Some? ==> q.speaker.speaker.value.id == Upper(row.speaker)))
  {
    Quote(row.id, FreshEpisode(data, Some(row.episodeId)), row.number, FreshSpeaker(data, Some(row.speaker)), row.text)
  }

  /** `fetchone()` after `where id = ?`: the first row with the id. */
  function FindRow(rows: seq<QuoteRow>, id: int): (r: Option<QuoteRow>)
    ensures r.Some? <==> exists i :: 0 <= i < |rows| && rows[i].id == id
    ensures r.Some? ==> r.value in rows && r.value.id == id
  {
    if rows == [] then None
    else if rows[0].id == id then Some(rows[0])
    else
      var rest := FindRow(rows[1..], id);
      assert forall i :: 1 <= i < |rows| ==> rows[i] == rows[1..][i - 1];
      rest
  }

  /** The rows of one episode with numbers in `[start, end]`. */
  predicate InPassage(row: QuoteRow, episodeId: int, window: (int, int))
  {
    row.episodeId == episodeId && window.0 <= row.number <= window.1
  }

  /** The rows of the quote view the criteria ask for, in table order. */
  function Matching(data: Database, criteria: Criteria): seq<QuoteRow>
  {
    Filter(data.quotes, row => Matches(row, criteria, data.like))
  }

  /** Filtering with two tests that agree on every row gives the same rows. */
  lemma {:induction false} FilterSame(rows: seq<QuoteRow>, f: QuoteRow -> bool, g: QuoteRow -> bool)
    requires forall x :: f(x) == g(x)
    ensures Filter(rows, f) == Filter(rows, g)
  {
    if rows != [] {
      FilterSame(rows[1..], f, g);
    }
  }

  /** The anchor's episode is a record, so `quote.episode.id` exists. */
  predicate HasEpisode(q: Quote)
  {
    q.episode.OneEpisode? && q.episode.episode.Some?
  }

  /** Rows of one episode sorted by episode and number are sorted by number. */
  lemma SameEpisodeByNumber(rows: seq<QuoteRow>, episodeId: int, window: (int, int))
    requires Sorted(rows, false)
    requires forall x :: x in multiset(rows) ==> InPassage(x, episodeId, window)
    ensures forall i, j :: 0 <= i < j < |rows| ==> rows[i].number <= rows[j].number
  {
    forall i, j | 0 <= i < j < |rows| ensures rows[i].number <= rows[j].number {
      assert rows[i] in multiset(rows) && rows[j] in multiset(rows);
    }
  }

  /** `shuffle` stands for `ORDER BY RANDOM()`: it may put the rows in any order, and keeps
      them all. */
  ghost predicate Permutes(shuffle: seq<QuoteRow> -> seq<QuoteRow>)
  {
    forall s :: multiset(shuffle(s)) == multiset(s)
  }

  lemma PermutedLength(shuffle: seq<QuoteRow> -> seq<QuoteRow>, s: seq<QuoteRow>)
    requires Permutes(shuffle)
    ensures |shuffle(s)| == |s|
  {
    assert |multiset(shuffle(s))| == |multiset(s)|;
  }

  lemma PermutedMember(shuffle: seq<QuoteRow> -> seq<QuoteRow>, s: seq<QuoteRow>, x: QuoteRow)
    requires Permutes(shuffle) && x in shuffle(s)
    ensures x in s
  {
    assert x in multiset(shuffle(s));
  }

  /** The WHERE clause built from the criteria selects exactly the matching rows. */
  lemma WhereSelects(data: Database, criteria: Criteria, wheres: seq<Conjunct>, params: seq<Param>)
    requires forall row, like :: Satisfies(row, wheres, params, like) <==> Matches(row, criteria, like)
    ensures Filter(data.quotes, row => Satisfies(row, wheres, params, data.like)) == Matching(data, criteria)
  {
    FilterSame(data.quotes, row => Satisfies(row, wheres, params, data.like), row => Matches(row, criteria, data.like));
  }

  /** The WHERE clause has no conjunct exactly when no criterion is present. */
  lemma EmptyWhereMeansNoCriteria(criteria: Criteria, wheres: seq<Conjunct>)
    requires EpisodeIdIs in wheres <==> criteria.episode.Some?
    requires SpeakerIs in wheres <==> criteria.speaker.Some?
    requires TextLike in wheres <==> TruthyStr(criteria.subject)
    ensures wheres == [] <==> criteria.episode.None? && criteria.speaker.None? && !TruthyStr(criteria.subject)
  {
    if wheres != [] {
      match wheres[0]
      case EpisodeIdIs => assert EpisodeIdIs in wheres;
      case SpeakerIs => assert SpeakerIs in wheres;
      case TextLike => assert TextLike in wheres;
    }
  }

  /** `order by`: `RANDOM()` when `random`, else descending when `reverse`, else ascending. */
  function Arrange(rows: seq<QuoteRow>, reverse: bool, random: bool, shuffle: seq<QuoteRow> -> seq<QuoteRow>)
    : (r: seq<QuoteRow>)
    requires Permutes(shuffle)
    ensures multiset(r) == multiset(rows)
    ensures !random ==> Sorted(r, reverse)
  {
    match OrderOf(reverse, random)
    case Shuffled => shuffle(rows)
    case Descending => SortRows(rows, true)
    case Ascending => SortRows(rows, false)
  }

  /** The rows the query keeps after ordering and the limit still match the criteria, and are
      the ones `Selection` describes. */
  lemma ArrangedMatch(data: Database, criteria: Criteria, limit: Option<int>, reverse: bool, random: bool,
                      shuffle: seq<QuoteRow> -> seq<QuoteRow>)
    requires Permutes(shuffle)
    ensures var rows := Take(Arrange(Matching(data, criteria), reverse, random, shuffle), LimitOf(limit));
      && (forall i :: 0 <= i < |rows| ==> Matches(rows[i], criteria, data.like))
      && (!random ==> rows == Take(SortRows(Matching(data, criteria), reverse), LimitOf(limit)))
      && (random ==> rows == Take(shuffle(Matching(data, criteria)), LimitOf(limit)))
  {
    var selected := Matching(data, criteria);
    var ordered := Arrange(selected, reverse, random, shuffle);
    assert multiset(ordered) == multiset(selected);
    SelectedMatch(selected, ordered, Take(ordered, LimitOf(limit)), criteria, data.like);
  }

  /** The rows `search` returns are a prefix of an ordering of the selected rows, so each of
      them matches the criteria. */
  lemma SelectedMatch(selected: seq<QuoteRow>, ordered: seq<QuoteRow>, rows: seq<QuoteRow>,
                      criteria: Criteria, like: (string, string) -> bool)
    requires forall x :: x in multiset(selected) ==> Matches(x, criteria, like)
    requires multiset(ordered) == multiset(selected) && rows <= ordered
    ensures forall i :: 0 <= i < |rows| ==> Matches(rows[i], criteria, like)
  {
    forall i | 0 <= i < |rows| ensures Matches(rows[i], criteria, like) {
      assert rows[i] == ordered[i];
      assert ordered[i] in multiset(ordered);
    }
  }

  /** The quotes keep each row's id, number and text, in the rows' order. */
  predicate SameFields(quotes: seq<Quote>, rows: seq<QuoteRow>)
  {
    && |quotes| == |rows|
    && forall i :: 0 <= i < |rows| ==>
         quotes[i].id == rows[i].id && quotes[i].number == rows[i].number && quotes[i].text == rows[i].text
  }

  /** Each quote is what `_quote` makes of its row with this dataset. */
  predicate Resolved(data: Database, quotes: seq<Quote>, rows: seq<QuoteRow>)
  {
    |quotes| == |rows| && forall i :: 0 <= i < |rows| ==> quotes[i] == QuoteOf(data, rows[i])
  }

  /** Appending the quote made from the next row extends both relations by that row. */
  lemma ResolvedStep(data: Database, quotes: seq<Quote>, rows: seq<QuoteRow>, i: nat, q: Quote)
    requires i < |rows|
    ensures (SameFields(quotes, rows[..i]) && q.id == rows[i].id && q.number == rows[i].number
             && q.text == rows[i].text) ==> SameFields(quotes + [q], rows[..i + 1])
    ensures (Resolved(data, quotes, rows[..i]) && q == QuoteOf(data, rows[i])) ==>
            Resolved(data, quotes + [q], rows[..i + 1])
  {
    assert rows[..i + 1] == rows[..i] + [rows[i]];
  }

  // ---------------------------------------------------------------------------
  // the caches after a list of rows is resolved

  /** `b` keeps every entry of `a`: a cached answer is never replaced or dropped. */
  ghost predicate Extends<K, V>(a: map<K, V>, b: map<K, V>)
  {
    a.Keys <= b.Keys && forall k :: k in a ==> b[k] == a[k]
  }

  /** The `episode` dictionary after `_quote` has run on each of `rows` in turn. */
  function EpisodesAfterRows(data: Database, rows: seq<QuoteRow>, entries: EpisodeEntries): (after: EpisodeEntries)
    requires EpisodeCoherent(entries)
    ensures EpisodeCoherent(after) && Extends(entries, after)
    ensures forall i :: 0 <= i < |rows| ==> Some(rows[i].episodeId) in after
    decreases |rows|
  {
    if rows == [] then entries
    else
      var init := rows[..|rows| - 1];
      assert forall i :: 0 <= i < |rows| - 1 ==> rows[i] == init[i];
      EpisodeAfter(data, Some(rows[|rows| - 1].episodeId), EpisodesAfterRows(data, init, entries))
  }

  /** The `speaker` dictionary after `_quote` has run on each of `rows` in turn. */
  function SpeakersAfterRows(data: Database, rows: seq<QuoteRow>, entries: SpeakerEntries): (after: SpeakerEntries)
    requires SpeakerCoherent(entries)
    ensures SpeakerCoherent(after) && Extends(entries, after)
    ensures forall i :: 0 <= i < |rows| ==> Some(rows[i].speaker) in after
    decreases |rows|
  {
    if rows == [] then entries
    else
      var init := rows[..|rows| - 1];
      assert forall i :: 0 <= i < |rows| - 1 ==> rows[i] == init[i];
      SpeakerAfter(data, Some(rows[|rows| - 1].speaker), SpeakersAfterRows(data, init, entries))
  }

  /** Resolving `rows` in turn opens the connection: some row's episode or speaker lookup
      misses the dictionary as it stands when that row is reached. */
  predicate ResolveOpens(data: Database, rows: seq<QuoteRow>, episodes: EpisodeEntries, speakers: SpeakerEntries)
    requires EpisodeCoherent(episodes) && SpeakerCoherent(speakers)
    decreases |rows|
  {
    if rows == [] then false
    else
      var init, last := rows[..|rows| - 1], rows[|rows| - 1];
      || ResolveOpens(data, init, episodes, speakers)
      || EpisodeScans(Some(last.episodeId), EpisodesAfterRows(data, init, episodes))
      || SpeakerScans(Some(last.speaker), SpeakersAfterRows(data, init, speakers))
  }

  /** Resolving one more row updates both dictionaries by that row and may open the connection. */
  lemma AfterRowsStep(data: Database, rows: seq<QuoteRow>, i: nat, episodes: EpisodeEntries, speakers: SpeakerEntries)
    requires i < |rows| && EpisodeCoherent(episodes) && SpeakerCoherent(speakers)
    ensures EpisodesAfterRows(data, rows[..i + 1], episodes)
         == EpisodeAfter(data, Some(rows[i].episodeId), EpisodesAfterRows(data, rows[..i], episodes))
    ensures SpeakersAfterRows(data, rows[..i + 1], speakers)
         == SpeakerAfter(data, Some(rows[i].speaker), SpeakersAfterRows(data, rows[..i], speakers))
    ensures ResolveOpens(data, rows[..i + 1], episodes, speakers) ==
      (|| ResolveOpens(data, rows[..i], episodes, speakers)
       || EpisodeScans(Some(rows[i].episodeId), EpisodesAfterRows(data, rows[..i], episodes))
       || SpeakerScans(Some(rows[i].speaker), SpeakersAfterRows(data, rows[..i], speakers)))
  {
    assert rows[..i + 1][..i] == rows[..i];
  }

  /** Each quote holds the dictionaries' entries for its row's episode id and speaker name. */
  ghost predicate FromCaches(quotes: seq<Quote>, rows: seq<QuoteRow>, episodes: EpisodeEntries, speakers: SpeakerEntries)
  {
    && |quotes| == |rows|
    && forall i :: 0 <= i < |rows| ==>
         && Some(rows[i].episodeId) in episodes && quotes[i].episode == episodes[Some(rows[i].episodeId)]
         && Some(rows[i].speaker) in speakers && quotes[i].speaker == speakers[Some(rows[i].speaker)]
  }

  /** Growing the dictionaries keeps the quotes made so far tied to them, and the quote made
      from the next row joins them. */
  lemma FromCachesStep(quotes: seq<Quote>, rows: seq<QuoteRow>, i: nat, q: Quote,
                       episodes: EpisodeEntries, speakers: SpeakerEntries,
                       episodes': EpisodeEntries, speakers': SpeakerEntries)
    requires i < |rows| && FromCaches(quotes, rows[..i], episodes, speakers)
    requires Extends(episodes, episodes') && Extends(speakers, speakers')
    requires Some(rows[i].episodeId) in episodes' && q.episode == episodes'[Some(rows[i].episodeId)]
    requires Some(rows[i].speaker) in speakers' && q.speaker == speakers'[Some(rows[i].speaker)]
    ensures FromCaches(quotes + [q], rows[..i + 1], episodes', speakers')
  {
    assert rows[..i + 1] == rows[..i] + [rows[i]];
  }

  /** One more iteration of `ResolveAll`: the dictionaries, the connection and the quotes
      made so far move from the first `i` rows to the first `i + 1`. */
  lemma ResolveAllStep(data: Database, rows: seq<QuoteRow>, i: nat, quotes: seq<Quote>, q: Quote,
                       episodes0: EpisodeEntries, speakers0: SpeakerEntries, open0: bool,
                       episodes: EpisodeEntries, speakers: SpeakerEntries, open: bool,
                       episodes': EpisodeEntries, speakers': SpeakerEntries, open': bool)
    requires i < |rows| && EpisodeCoherent(episodes0) && SpeakerCoherent(speakers0)
    requires episodes == EpisodesAfterRows(data, rows[..i], episodes0)
    requires speakers == SpeakersAfterRows(data, rows[..i], speakers0)
    requires open == (open0 || ResolveOpens(data, rows[..i], episodes0, speakers0))
    requires FromCaches(quotes, rows[..i], episodes, speakers)
    requires episodes' == EpisodeAfter(data, Some(rows[i].episodeId), episodes)
    requires speakers' == SpeakerAfter(data, Some(rows[i].speaker), speakers)
    requires q.episode == episodes'[Some(rows[i].episodeId)] && q.speaker == speakers'[Some(rows[i].speaker)]
    requires open' == (open || EpisodeScans(Some(rows[i].episodeId), episodes) || SpeakerScans(Some(rows[i].speaker), speakers))
    ensures episodes' == EpisodesAfterRows(data, rows[..i + 1], episodes0)
    ensures speakers' == SpeakersAfterRows(data, rows[..i + 1], speakers0)
    ensures open' == (open0 || ResolveOpens(data, rows[..i + 1], episodes0, speakers0))
    ensures FromCaches(quotes + [q], rows[..i + 1], episodes', speakers')
  {
    AfterRowsStep(data, rows, i, episodes0, speakers0);
    FromCachesStep(quotes, rows, i, q, episodes, speakers, episodes', speakers');
  }

  /** The `episode` dictionary once `search` has resolved its episode argument. */
  function ArgEpisodeEntries(data: Database, episode: EpisodeArg, entries: EpisodeEntries): (after: EpisodeEntries)
    requires EpisodeCoherent(entries)
    ensures EpisodeCoherent(after) && Extends(entries, after)
    ensures episode.EpisodeId? && episode.id != 0 ==> Some(episode.id) in after
    ensures !(episode.EpisodeId? && episode.id != 0) ==> after == entries
  {
    if episode.EpisodeId? && episode.id != 0 then EpisodeAfter(data, Some(episode.id), entries) else entries
  }

  /** The `speaker` dictionary once `search` has resolved its speaker argument. */
  function ArgSpeakerEntries(data: Database, speaker: SpeakerArg, entries: SpeakerEntries): (after: SpeakerEntries)
    requires SpeakerCoherent(entries)
    ensures SpeakerCoherent(after) && Extends(entries, after)
    ensures speaker.SpeakerName? && speaker.name != "" ==> Some(speaker.name) in after
    ensures !(speaker.SpeakerName? && speaker.name != "") ==> after == entries
  {
    if speaker.SpeakerName? && speaker.name != "" then SpeakerAfter(data, Some(speaker.name), entries) else entries
  }

  /** The passage around `anchor`: its id and episode, and the quotes of that episode numbered
      within the window around the anchor's number, each row as often as the view has it, in
      number order. */
  ghost predicate PassageRows(data: Database, anchor: Quote, length: int, p: Passage, rows: seq<QuoteRow>)
  {
    && HasEpisode(anchor)
    && p.id == anchor.id && p.episode == anchor.episode
    && SameFields(p.quotes, rows)
    && (forall x :: multiset(rows)[x] ==
          if InPassage(x, anchor.episode.episode.value.id, Window(anchor.number, length))
          then multiset(data.quotes)[x] else 0)
    && (forall i, j :: 0 <= i < j < |rows| ==> rows[i].number <= rows[j].number)
  }

  /** A passage of positive length around a quote whose row is in the view holds that row. */
  lemma PassageHoldsAnchor(data: Database, anchor: Quote, length: int, p: Passage, rows: seq<QuoteRow>, row: QuoteRow)
    requires PassageRows(data, anchor, length, p, rows)
    requires row in data.quotes && row.episodeId == anchor.episode.episode.value.id && row.number == anchor.number
    requires length >= 1 && anchor.number >= 1
    ensures row in rows
  {
    assert row in multiset(data.quotes);
    assert row in multiset(rows);
  }

  /** What `search` returns for resolved criteria: matching rows only, sorted (ascending or
      descending) unless `random` asks for the `shuffle` order, cut to the limit. */
  ghost predicate Selection(data: Database, criteria: Criteria, limit: Option<int>, reverse: bool, random: bool,
                            shuffle: seq<QuoteRow> -> seq<QuoteRow>, quotes: seq<Quote>, rows: seq<QuoteRow>)
  {
    && SameFields(quotes, rows)
    && (forall i :: 0 <= i < |rows| ==> Matches(rows[i], criteria, data.like))
    && (!random ==> rows == Take(SortRows(Matching(data, criteria), reverse), LimitOf(limit)))
    && (random ==> rows == Take(shuffle(Matching(data, criteria)), LimitOf(limit)))
  }

  /** The criteria `search` queries with: the subject as given, a record argument as given,
      and a falsy argument dropped. */
  predicate ResolvedCriteria(data: Database, episode: EpisodeArg, speaker: SpeakerArg, subject: Option<string>,
                             criteria: Criteria)
  {
    && criteria.subject == subject
    && (!EpisodeArgTruthy(episode) ==> criteria.episode == None)
    && (episode.GivenEpisode? ==> criteria.episode == Some(episode.episode))
    && (!SpeakerArgTruthy(speaker) ==> criteria.speaker == None)
    && (speaker.GivenSpeaker? ==> criteria.speaker == Some(speaker.speaker))
  }

  /** An episode id resolves to the dataset's episode with that id, and a name to the
      dataset's speaker stored under the upper-cased name, or to `None`. */
  predicate CriteriaFromData(data: Database, episode: EpisodeArg, speaker: SpeakerArg, criteria: Criteria)
  {
    && (episode.EpisodeId? && episode.id != 0 ==> criteria.episode == Get(EpisodeIndex(data.episodes), episode.id))
    && (speaker.SpeakerName? && speaker.name != "" ==>
          criteria.speaker == Get(SpeakerIndex(data.speakers), Upper(speaker.name)))
  }

  /** `random` reads the first of at most one row `search` returns under `RANDOM()` order with
      a limit of one: there is one exactly when some row matches, and it is a matching row. */
  lemma RandomPick(data: Database, criteria: Criteria, shuffle: seq<QuoteRow> -> seq<QuoteRow>,
                   quotes: seq<Quote>, rows: seq<QuoteRow>, episodes: EpisodeEntries, speakers: SpeakerEntries)
    requires Permutes(shuffle)
    requires Selection(data, criteria, Some(1), false, true, shuffle, quotes, rows)
    requires FromCaches(quotes, rows, episodes, speakers)
    ensures |rows| <= 1 && |quotes| == |rows| && (rows == [] <==> Matching(data, criteria) == [])
    ensures rows != [] ==>
      && quotes == [quotes[0]] && rows[0] in Matching(data, criteria)
      && SameFields([quotes[0]], rows) && FromCaches([quotes[0]], rows, episodes, speakers)
    ensures rows != [] && Resolved(data, quotes, rows) ==> quotes[0] == QuoteOf(data, rows[0])
  {
    PermutedLength(shuffle, Matching(data, criteria));
    if rows != [] {
      assert rows[0] in shuffle(Matching(data, criteria));
      PermutedMember(shuffle, Matching(data, criteria), rows[0]);
      assert quotes == [quotes[0]];
    }
  }

  /** The keys the accessors' dictionaries are read under at each call site: `_quote` passes the
      row's episode id and speaker name positionally, `search` passes them by keyword, and the
      full-table lookups inside `speaker`, `season` and `episode` pass nothing. */
  lemma AccessorKeys(row: QuoteRow, id: int, name: string)
    ensures KeyOf(Some("id"), [Some(row.episodeId)], map[]) == Some(row.episodeId)
    ensures KeyOf(Some("name"), [Some(row.speaker)], map[]) == Some(row.speaker)
    ensures KeyOf(Some("id"), [], map["id" := Some(id)]) == Some(id)
    ensures KeyOf(Some("name"), [], map["name" := Some(name)]) == Some(name)
    ensures KeyOf<string>(Some("name"), [], map[]) == None
    ensures KeyOf<int>(Some("number"), [], map[]) == None
    ensures KeyOf<int>(Some("id"), [], map[]) == None
  {
    KeyIsBoundParameter("id", Some(row.episodeId));
    KeyIsBoundParameter("name", Some(row.speaker));
    KeyIsBoundParameter("id", Some(id));
    KeyIsBoundParameter("name", Some(name));
    KeyIsBoundParameter<int>("number", None);
  }

  // ---------------------------------------------------------------------------
  // the store

  class Seinfeld {
    const path: string
    const data: Database
    var isOpen: bool
    var db: Option<Connection>

    /** The dictionaries of the three `@cached` accessors. They belong to the methods, not to
        the store, so stores built with the same ones share every entry. */
    const speakerCache: MethodCache<Option<string>, SpeakerResult>
    const episodeCache: MethodCache<Option<int>, EpisodeResult>
    const seasonCache: MethodCache<Option<int>, SeasonResult>

    /** `_open` and `_db` move together, the connection is to `path`, and the caches keep
        their shape. */
    ghost predicate Valid()
      reads this, speakerCache, episodeCache, seasonCache
    {
      && (isOpen <==> db.Some?)
      && (db.Some? ==> db.value.path == path)
      && SpeakerCoherent(speakerCache.entries)
      && EpisodeCoherent(episodeCache.entries)
      && SeasonCoherent(seasonCache.entries)
    }

    /** The caches hold only what this store's dataset gives. */
    ghost predicate Agrees()
      reads speakerCache, episodeCache, seasonCache
    {
      && SpeakerAgrees(data, speakerCache.entries)
      && EpisodeAgrees(data, episodeCache.entries)
      && SeasonAgrees(data, seasonCache.entries)
    }

    /** `Seinfeld(path)`: closed, with the accessors' dictionaries as they stand. */
    constructor (path: string, data: Database,
                 speakerCache: MethodCache<Option<string>, SpeakerResult>,
                 episodeCache: MethodCache<Option<int>, EpisodeResult>,
                 seasonCache: MethodCache<Option<int>, SeasonResult>)
      requires SpeakerCoherent(speakerCache.entries)
      requires EpisodeCoherent(episodeCache.entries)
      requires SeasonCoherent(seasonCache.entries)
      ensures this.path == path && this.data == data
      ensures this.speakerCache == speakerCache && this.episodeCache == episodeCache
      ensures this.seasonCache == seasonCache
      ensures !isOpen && db == None
      ensures Valid()
    {
      this.path := path;
      this.data := data;
      this.speakerCache := speakerCache;
      this.episodeCache := episodeCache;
      this.seasonCache := seasonCache;
      isOpen := false;
      db := None;
    }

    /** `open()`: connects when closed; when already open, nothing changes. */
    method Open()
      requires Valid()
      modifies this
      ensures Valid()
      ensures isOpen && db == Some(Connection(path))
      ensures old(isOpen) ==> unchanged(this)
    {
      if isOpen {
        return;
      }
      isOpen := true;
      db := Some(Connection(path));
    }

    /** `close()`: disconnects when open; when already closed, nothing changes. The caches are
        left as they are. */
    method Close()
      requires Valid()
      modifies this
      ensures Valid()
      ensures !isOpen && db == None
      ensures !old(isOpen) ==> unchanged(this)
    {
      if !isOpen {
        return;
      }
      isOpen := false;
      db := None;
    }

    /** `cursor()`: opens the connection if it is closed, and leaves it open. */
    method Cursor() returns (c: DbCursor)
      requires Valid()
      modifies this
      ensures Valid()
      ensures isOpen && c == DbCursor(Connection(path))
      ensures old(isOpen) ==> unchanged(this)
    {
      if !isOpen {
        Open();
      }
      c := DbCursor(db.value);
    }

    /** `speaker(name)` behind `@cached('name')`, called with `key` bound to `name`. */
    method LookupSpeaker(key: Option<string>) returns (r: SpeakerResult)
      requires Valid()
      modifies this, speakerCache
      ensures Valid()
      ensures speakerCache.entries == SpeakerAfter(data, key, old(speakerCache.entries))
      ensures r == speakerCache.entries[key]
      ensures isOpen == (old(isOpen) || SpeakerScans(key, old(speakerCache.entries)))
      decreases if TruthyStr(key) then 1 else 0
    {
      var hit := speakerCache.Lookup(key);
      if hit.Some? {
        return hit.value;
      }
      var value;
      if TruthyStr(key) {
        var all := LookupSpeaker(None);
        value := OneSpeaker(Get(all.speakers, Upper(key.value)));
      } else {
        var cursor := Cursor();
        var speakers := BuildSpeakers(data.speakers);
        value := AllSpeakers(speakers);
      }
      speakerCache.Remember(key, value);
      r := value;
    }

    /** `episode(id)` behind `@cached('id')`, called with `key` bound to `id`. */
    method LookupEpisode(key: Option<int>) returns (r: EpisodeResult)
      requires Valid()
      modifies this, episodeCache
      ensures Valid()
      ensures episodeCache.entries == EpisodeAfter(data, key, old(episodeCache.entries))
      ensures r == episodeCache.entries[key]
      ensures isOpen == (old(isOpen) || EpisodeScans(key, old(episodeCache.entries)))
      decreases if TruthyInt(key) then 1 else 0
    {
      var hit := episodeCache.Lookup(key);
      if hit.Some? {
        return hit.value;
      }
      var value;
      if TruthyInt(key) {
        var all := LookupEpisode(None);
        value := OneEpisode(Get(all.episodes, key.value));
      } else {
        var cursor := Cursor();
        var episodes := BuildEpisodes(data.episodes);
        value := AllEpisodes(episodes);
      }
      episodeCache.Remember(key, value);
      r := value;
    }

    /** `season(number)` behind `@cached('number')`, called with `key` bound to `number`: the
        cached entry if there is one, otherwise the result of `SeasonBody`, stored. */
    method LookupSeason(key: Option<int>) returns (r: SeasonResult)
      requires Valid()
      modifies this, seasonCache, episodeCache
      ensures Valid()
      ensures SeasonStep(key, old(seasonCache.entries), seasonCache.entries,
                         EpisodeAfter(data, None, old(episodeCache.entries))[None].episodes)
      ensures r == seasonCache.entries[key]
      ensures episodeCache.entries ==
        if SeasonScans(key, old(seasonCache.entries)) then EpisodeAfter(data, None, old(episodeCache.entries))
        else old(episodeCache.entries)
      ensures isOpen == (old(isOpen) || (SeasonScans(key, old(seasonCache.entries))
                                         && EpisodeScans(None, old(episodeCache.entries))))
      ensures old(Agrees()) ==> Agrees()
      decreases if TruthyInt(key) then 1 else 0, 1
    {
      ghost var agreed := Agrees();
      ghost var seasonsBefore := seasonCache.entries;
      ghost var episodes := EpisodeAfter(data, None, episodeCache.entries)[None].episodes;
      var hit := seasonCache.Lookup(key);
      if hit.Some? {
        SeasonStepHit(key, seasonsBefore, episodes);
        return hit.value;
      }
      var value := SeasonBody(key);
      ghost var mid := seasonCache.entries;
      seasonCache.Remember(key, value);
      r := value;
      if TruthyInt(key) {
        SeasonStepThroughNone(key, seasonsBefore, mid, episodes);
      } else {
        SeasonStepFalsy(key, seasonsBefore, value, episodes);
        if agreed {
          SeasonAddAgrees(data, seasonsBefore, key, value);
        }
      }
    }

    /** The body of `season(number)` the decorator calls on a miss: with a truthy number, a
        lookup in `season()`; otherwise the values of `episode()` grouped by season. */
    method SeasonBody(key: Option<int>) returns (v: SeasonResult)
      requires Valid() && key !in seasonCache.entries
      modifies this, seasonCache, episodeCache
      ensures Valid()
      ensures TruthyInt(key) ==>
        && SeasonStep(None, old(seasonCache.entries), seasonCache.entries,
                      EpisodeAfter(data, None, old(episodeCache.entries))[None].episodes)
        && v == OneSeason(Get(seasonCache.entries[None].seasons, key.value))
        && episodeCache.entries == (if SeasonScans(None, old(seasonCache.entries))
                                    then EpisodeAfter(data, None, old(episodeCache.entries))
                                    else old(episodeCache.entries))
        && isOpen == (old(isOpen) || (SeasonScans(None, old(seasonCache.entries))
                                      && EpisodeScans(None, old(episodeCache.entries))))
      ensures !TruthyInt(key) ==>
        && seasonCache.entries == old(seasonCache.entries)
        && episodeCache.entries == EpisodeAfter(data, None, old(episodeCache.entries))
        && v.AllSeasons? && IsGrouping(episodeCache.entries[None].episodes.Values, v.seasons)
        && isOpen == (old(isOpen) || EpisodeScans(None, old(episodeCache.entries)))
      ensures old(Agrees()) ==> Agrees()
      ensures old(Agrees()) && !TruthyInt(key) ==> IsGrouping(EpisodeIndex(data.episodes).Values, v.seasons)
      decreases if TruthyInt(key) then 1 else 0, 0
    {
      if TruthyInt(key) {
        var all := LookupSeason(None);
        v := OneSeason(Get(all.seasons, key.value));
      } else {
        ghost var episodesBefore := episodeCache.entries;
        var all := LookupEpisode(None);
        var seasons := GroupSeasons(all.episodes.Values);
        v := AllSeasons(seasons);
        if old(Agrees()) {
          EpisodeAfterAgrees(data, None, episodesBefore);
        }
      }
    }

    /** `_quote(row)`: the row with its episode id and speaker replaced by what `episode(id)`
        and `speaker(name)` return for them. */
    method ResolveQuote(row: QuoteRow) returns (q: Quote)
      requires Valid()
      modifies this, episodeCache, speakerCache
      ensures Valid()
      ensures episodeCache.entries == EpisodeAfter(data, Some(row.episodeId), old(episodeCache.entries))
      ensures speakerCache.entries == SpeakerAfter(data, Some(row.speaker), old(speakerCache.entries))
      ensures q == Quote(row.id, episodeCache.entries[Some(row.episodeId)], row.number,
                         speakerCache.entries[Some(row.speaker)], row.text)
      ensures isOpen == (|| old(isOpen)
                         || EpisodeScans(Some(row.episodeId), old(episodeCache.entries))
                         || SpeakerScans(Some(row.speaker), old(speakerCache.entries)))
      ensures old(Agrees()) ==> Agrees() && q == QuoteOf(data, row)
    {
      ghost var agreed := Agrees();
      ghost var episodesBefore, speakersBefore := episodeCache.entries, speakerCache.entries;
      var episode := LookupEpisode(Some(row.episodeId));
      var speaker := LookupSpeaker(Some(row.speaker));
      q := Quote(row.id, episode, row.number, speaker, row.text);
      if agreed {
        EpisodeAfterAgrees(data, Some(row.episodeId), episodesBefore);
        SpeakerAfterAgrees(data, Some(row.speaker), speakersBefore);
      }
    }

    /** `[self._quote(row) for row in rows]`. */
    method ResolveAll(rows: seq<QuoteRow>) returns (quotes: seq<Quote>)
      requires Valid()
      modifies this, episodeCache, speakerCache
      ensures Valid()
      ensures episodeCache.entries == EpisodesAfterRows(data, rows, old(episodeCache.entries))
      ensures speakerCache.entries == SpeakersAfterRows(data, rows, old(speakerCache.entries))
      ensures Extends(old(episodeCache.entries), episodeCache.entries)
      ensures Extends(old(speakerCache.entries), speakerCache.entries)
      ensures isOpen == (old(isOpen) || ResolveOpens(data, rows, old(episodeCache.entries), old(speakerCache.entries)))
      ensures SameFields(quotes, rows) && FromCaches(quotes, rows, episodeCache.entries, speakerCache.entries)
      ensures old(Agrees()) ==> Agrees() && Resolved(data, quotes, rows)
    {
      ghost var agreed := Agrees();
      ghost var episodes0, speakers0, open0 := episodeCache.entries, speakerCache.entries, isOpen;
      quotes := [];
      for i := 0 to |rows|
        invariant Valid()
        invariant episodeCache.entries == EpisodesAfterRows(data, rows[..i], episodes0)
        invariant speakerCache.entries == SpeakersAfterRows(data, rows[..i], speakers0)
        invariant isOpen == (open0 || ResolveOpens(data, rows[..i], episodes0, speakers0))
        invariant SameFields(quotes, rows[..i])
        invariant FromCaches(quotes, rows[..i], episodeCache.entries, speakerCache.entries)
        invariant agreed ==> Agrees() && Resolved(data, quotes, rows[..i])
      {
        ghost var episodes, speakers, open := episodeCache.entries, speakerCache.entries, isOpen;
        var q := ResolveQuote(rows[i]);
        ResolvedStep(data, quotes, rows, i, q);
        ResolveAllStep(data, rows, i, quotes, q, episodes0, speakers0, open0, episodes, speakers, open,
                       episodeCache.entries, speakerCache.entries, isOpen);
        quotes := quotes + [q];
      }
      assert rows[..|rows|] == rows;
    }

    /** `quote(id)`: an id out of range is refused before the connection is touched; otherwise
        the row with that id, or `MissingRow` when there is none. */
    method QuoteById(id: int) returns (r: Result<Quote, Error>)
      requires Valid()
      modifies this, episodeCache, speakerCache
      ensures Valid()
      ensures r == Failure(QuoteIdOutOfRange) <==> OutOfQuoteRange(id)
      ensures OutOfQuoteRange(id) ==> unchanged(this, episodeCache, speakerCache)
      ensures !OutOfQuoteRange(id) ==> isOpen
      ensures !OutOfQuoteRange(id) ==> (r == Failure(MissingRow) <==> FindRow(data.quotes, id).None?)
      ensures r.Failure? ==> r.error == QuoteIdOutOfRange || r.error == MissingRow
      ensures !OutOfQuoteRange(id) && FindRow(data.quotes, id).None? ==> unchanged(episodeCache, speakerCache)
      ensures r.Success? ==> FindRow(data.quotes, id).Some? && r.value.id == id
                             && r.value.number == FindRow(data.quotes, id).value.number
                             && r.value.text == FindRow(data.quotes, id).value.text
      ensures r.Success? ==>
        var row := FindRow(data.quotes, id).value;
        && episodeCache.entries == EpisodeAfter(data, Some(row.episodeId), old(episodeCache.entries))
        && speakerCache.entries == SpeakerAfter(data, Some(row.speaker), old(speakerCache.entries))
        && r.value.episode == episodeCache.entries[Some(row.episodeId)]
        && r.value.speaker == speakerCache.entries[Some(row.speaker)]
      ensures Extends(old(episodeCache.entries), episodeCache.entries)
      ensures Extends(old(speakerCache.entries), speakerCache.entries)
      ensures old(Agrees()) ==> Agrees() && (r.Success? ==> r.value == QuoteOf(data, FindRow(data.quotes, id).value))
    {
      if OutOfQuoteRange(id) {
        return Failure(QuoteIdOutOfRange);
      }
      var cursor := Cursor();
      var row := FindRow(data.quotes, id);
      if row.None? {
        return Failure(MissingRow);
      }
      var q := ResolveQuote(row.value);
      r := Success(q);
    }
  
    /** `passage(quote, length)`: the anchor, looked up first when given by id, then the
        passage around it. */
    method PassageAround(ref: QuoteRef, length: int)
      returns (r: Result<Passage, Error>, anchor: Quote, rows: seq<QuoteRow>)
      requires Valid()
      modifies this, episodeCache, speakerCache
      ensures Valid()
      ensures ref.GivenQuote? ==> anchor == ref.quote && isOpen && (r.Success? <==> HasEpisode(anchor))
      ensures ref.QuoteId? && OutOfQuoteRange(ref.id) ==> r == Failure(QuoteIdOutOfRange)
      ensures ref.QuoteId? && !OutOfQuoteRange(ref.id) ==> isOpen
      ensures ref.QuoteId? && !OutOfQuoteRange(ref.id) && FindRow(data.quotes, ref.id).None? ==>
        r == Failure(MissingRow)
      ensures ref.QuoteId? && !OutOfQuoteRange(ref.id) && FindRow(data.quotes, ref.id).Some? ==>
        && anchor.id == ref.id && anchor.number == FindRow(data.quotes, ref.id).value.number
        && (r.Success? <==> HasEpisode(anchor))
      ensures r.Failure? && r.error == NotAnEpisode ==> !HasEpisode(anchor)
      ensures r.Success? ==> PassageRows(data, anchor, length, r.value, rows)
      ensures r.Failure? ==> rows == []
      ensures r.Failure? && !(ref.QuoteId? && (OutOfQuoteRange(ref.id) || FindRow(data.quotes, ref.id).None?)) ==>
        r.error == NotAnEpisode
      ensures ref.QuoteId? && OutOfQuoteRange(ref.id) ==> unchanged(this, episodeCache, speakerCache)
      ensures ref.QuoteId? && !OutOfQuoteRange(ref.id) && FindRow(data.quotes, ref.id).None? ==>
        unchanged(episodeCache, speakerCache)
      ensures ref.GivenQuote? ==>
        && episodeCache.entries == EpisodesAfterRows(data, rows, old(episodeCache.entries))
        && speakerCache.entries == SpeakersAfterRows(data, rows, old(speakerCache.entries))
      ensures ref.QuoteId? && !OutOfQuoteRange(ref.id) && FindRow(data.quotes, ref.id).Some? ==>
        var row := FindRow(data.quotes, ref.id).value;
        && episodeCache.entries
           == EpisodesAfterRows(data, rows, EpisodeAfter(data, Some(row.episodeId), old(episodeCache.entries)))
        && speakerCache.entries
           == SpeakersAfterRows(data, rows, SpeakerAfter(data, Some(row.speaker), old(speakerCache.entries)))
        && anchor.episode == episodeCache.entries[Some(row.episodeId)]
        && anchor.speaker == speakerCache.entries[Some(row.speaker)]
      ensures Extends(old(episodeCache.entries), episodeCache.entries)
      ensures Extends(old(speakerCache.entries), speakerCache.entries)
      ensures r.Success? ==> FromCaches(r.value.quotes, rows, episodeCache.entries, speakerCache.entries)
      ensures old(Agrees()) ==> Agrees()
      ensures old(Agrees()) && r.Success? ==> Resolved(data, r.value.quotes, rows)
    {
      match ref {
        case GivenQuote(q) =>
          anchor := q;
        case QuoteId(id) =>
          var found := QuoteById(id);
          if found.Failure? {
            anchor := Quote(id, OneEpisode(None), 0, OneSpeaker(None), "");
            return Failure(found.error), anchor, [];
          }
          anchor := found.value;
      }
      r, rows := PassageOf(anchor, length);
    }

    /** The rest of `passage`: the cursor, the window around the anchor's number, and the
        quotes of its episode numbered within it, in number order. */
    method PassageOf(anchor: Quote, length: int) returns (r: Result<Passage, Error>, rows: seq<QuoteRow>)
      requires Valid()
      modifies this, episodeCache, speakerCache
      ensures Valid() && isOpen
      ensures r.Success? <==> HasEpisode(anchor)
      ensures r.Failure? ==> r.error == NotAnEpisode
      ensures r.Success? ==> PassageRows(data, anchor, length, r.value, rows)
      ensures r.Failure? ==> rows == []
      ensures episodeCache.entries == EpisodesAfterRows(data, rows, old(episodeCache.entries))
      ensures speakerCache.entries == SpeakersAfterRows(data, rows, old(speakerCache.entries))
      ensures r.Success? ==> FromCaches(r.value.quotes, rows, episodeCache.entries, speakerCache.entries)
      ensures old(Agrees()) ==> Agrees()
      ensures old(Agrees()) && r.Success? ==> Resolved(data, r.value.quotes, rows)
    {
      var cursor := Cursor();
      var window := Window(anchor.number, length);
      if !HasEpisode(anchor) {
        return Failure(NotAnEpisode), [];
      }
      var episodeId := anchor.episode.episode.value.id;
      var selected := Filter(data.quotes, row => InPassage(row, episodeId, window));
      rows := SortRows(selected, false);
      SameEpisodeByNumber(rows, episodeId, window);
      var quotes := ResolveAll(rows);
      r := Success(Passage(anchor.id, anchor.episode, quotes));
    }

    /** `search(...)`: refused when no criterion is truthy; otherwise the episode id and the
        speaker name are resolved through the cached accessors and the query runs. */
    method Search(episode: EpisodeArg, speaker: SpeakerArg, subject: Option<string>, limit: Option<int>,
                  reverse: bool, random: bool, shuffle: seq<QuoteRow> -> seq<QuoteRow>)
      returns (r: Result<seq<Quote>, Error>, criteria: Criteria, rows: seq<QuoteRow>)
      requires Valid() && Permutes(shuffle)
      modifies this, episodeCache, speakerCache
      ensures Valid()
      ensures r == Failure(NoCriteria) <==>
        !EpisodeArgTruthy(episode) && !SpeakerArgTruthy(speaker) && !TruthyStr(subject)
      ensures r == Failure(NoCriteria) ==> unchanged(this, episodeCache, speakerCache)
      ensures r != Failure(NoCriteria) ==> isOpen
      ensures r.Failure? ==> r.error == NoCriteria || r.error == EmptyWhere
      ensures ResolvedCriteria(data, episode, speaker, subject, criteria)
      ensures r == Failure(EmptyWhere) <==>
        r != Failure(NoCriteria) && criteria.episode.None? && criteria.speaker.None? && !TruthyStr(subject)
      ensures r.Success? ==> Selection(data, criteria, limit, reverse, random, shuffle, r.value, rows)
      ensures r.Failure? ==> rows == []
      ensures r != Failure(NoCriteria) ==>
        && episodeCache.entries
           == EpisodesAfterRows(data, rows, ArgEpisodeEntries(data, episode, old(episodeCache.entries)))
        && speakerCache.entries
           == SpeakersAfterRows(data, rows, ArgSpeakerEntries(data, speaker, old(speakerCache.entries)))
      ensures Extends(old(episodeCache.entries), episodeCache.entries)
      ensures Extends(old(speakerCache.entries), speakerCache.entries)
      ensures episode.EpisodeId? && episode.id != 0 ==>
        episodeCache.entries[Some(episode.id)] == OneEpisode(criteria.episode)
      ensures speaker.SpeakerName? && speaker.name != "" ==>
        speakerCache.entries[Some(speaker.name)] == OneSpeaker(criteria.speaker)
      ensures r.Success? ==> FromCaches(r.value, rows, episodeCache.entries, speakerCache.entries)
      ensures old(Agrees()) ==> Agrees() && CriteriaFromData(data, episode, speaker, criteria)
      ensures old(Agrees()) && r.Success? ==> Resolved(data, r.value, rows)
    {
      if !EpisodeArgTruthy(episode) && !SpeakerArgTruthy(speaker) && !TruthyStr(subject) {
        criteria := Criteria(None, None, subject);
        return Failure(NoCriteria), criteria, [];
      }
      criteria := ResolveCriteria(episode, speaker, subject);
      r, rows := Select(criteria, limit, reverse, random, shuffle);
    }

    /** The first half of `search` past the check for criteria: `episode(id=...)` and
        `speaker(name=...)` on the arguments that need them. */
    method ResolveCriteria(episode: EpisodeArg, speaker: SpeakerArg, subject: Option<string>)
      returns (criteria: Criteria)
      requires Valid()
      modifies this, episodeCache, speakerCache
      ensures Valid()
      ensures isOpen == (|| old(isOpen)
                         || (episode.EpisodeId? && episode.id != 0
                             && EpisodeScans(Some(episode.id), old(episodeCache.entries)))
                         || (speaker.SpeakerName? && speaker.name != ""
                             && SpeakerScans(Some(speaker.name), old(speakerCache.entries))))
      ensures ResolvedCriteria(data, episode, speaker, subject, criteria)
      ensures episodeCache.entries == ArgEpisodeEntries(data, episode, old(episodeCache.entries))
      ensures speakerCache.entries == ArgSpeakerEntries(data, speaker, old(speakerCache.entries))
      ensures episode.EpisodeId? && episode.id != 0 ==>
        episodeCache.entries[Some(episode.id)] == OneEpisode(criteria.episode)
      ensures speaker.SpeakerName? && speaker.name != "" ==>
        speakerCache.entries[Some(speaker.name)] == OneSpeaker(criteria.speaker)
      ensures old(Agrees()) ==> Agrees() && CriteriaFromData(data, episode, speaker, criteria)
    {
      var ep := ResolveEpisodeArg(episode);
      var sp := ResolveSpeakerArg(speaker);
      criteria := Criteria(ep, sp, subject);
    }

    /** The query `search` runs once its criteria are resolved: the cursor, the WHERE clause
        (`EmptyWhere` when it has no conjunct), the order and the limit. */
    method Select(criteria: Criteria, limit: Option<int>, reverse: bool, random: bool,
                  shuffle: seq<QuoteRow> -> seq<QuoteRow>)
      returns (r: Result<seq<Quote>, Error>, rows: seq<QuoteRow>)
      requires Valid() && Permutes(shuffle)
      modifies this, episodeCache, speakerCache
      ensures Valid() && isOpen
      ensures r.Failure? <==> criteria.episode.None? && criteria.speaker.None? && !TruthyStr(criteria.subject)
      ensures r.Failure? ==> r.error == EmptyWhere
      ensures r.Success? ==> Selection(data, criteria, limit, reverse, random, shuffle, r.value, rows)
      ensures r.Failure? ==> rows == []
      ensures episodeCache.entries == EpisodesAfterRows(data, rows, old(episodeCache.entries))
      ensures speakerCache.entries == SpeakersAfterRows(data, rows, old(speakerCache.entries))
      ensures r.Success? ==> FromCaches(r.value, rows, episodeCache.entries, speakerCache.entries)
      ensures old(Agrees()) ==> Agrees()
      ensures old(Agrees()) && r.Success? ==> Resolved(data, r.value, rows)
    {
      var cursor := Cursor();
      var wheres, params := BuildFilter(criteria);
      EmptyWhereMeansNoCriteria(criteria, wheres);
      if wheres == [] {
        return Failure(EmptyWhere), [];
      }
      var like := data.like;
      var selected := Filter(data.quotes, row => Satisfies(row, wheres, params, like));
      WhereSelects(data, criteria, wheres, params);
      rows := Take(Arrange(selected, reverse, random, shuffle), LimitOf(limit));
      ArrangedMatch(data, criteria, limit, reverse, random, shuffle);
      var quotes := ResolveAll(rows);
      r := Success(quotes);
    }

    /** `if episode and not isinstance(episode, Episode): episode = self.episode(id=episode)`,
        then the record found, or `None`. */
    method ResolveEpisodeArg(episode: EpisodeArg) returns (ep: Option<Episode>)
      requires Valid()
      modifies this, episodeCache
      ensures Valid()
      ensures !EpisodeArgTruthy(episode) ==> ep == None && unchanged(this, episodeCache)
      ensures episode.GivenEpisode? ==> ep == Some(episode.episode) && unchanged(this, episodeCache)
      ensures episode.EpisodeId? && episode.id != 0 ==>
        && episodeCache.entries == EpisodeAfter(data, Some(episode.id), old(episodeCache.entries))
        && episodeCache.entries[Some(episode.id)] == OneEpisode(ep)
      ensures isOpen == (|| old(isOpen)
                         || (episode.EpisodeId? && episode.id != 0
                             && EpisodeScans(Some(episode.id), old(episodeCache.entries))))
      ensures old(EpisodeAgrees(data, episodeCache.entries)) ==> EpisodeAgrees(data, episodeCache.entries)
      ensures old(EpisodeAgrees(data, episodeCache.entries)) && episode.EpisodeId? && episode.id != 0 ==>
        ep == Get(EpisodeIndex(data.episodes), episode.id)
    {
      ep := None;
      match episode {
        case NoEpisode =>
        case GivenEpisode(e) =>
          ep := Some(e);
        case EpisodeId(id) =>
          if id != 0 {
            ghost var before := episodeCache.entries;
            var found := LookupEpisode(Some(id));
            ep := found.episode;
            if EpisodeAgrees(data, before) {
              EpisodeAfterAgrees(data, Some(id), before);
            }
          }
      }
    }

    /** `if speaker and not isinstance(speaker, Speaker): speaker = self.speaker(name=speaker)`,
        then the record found, or `None`. */
    method ResolveSpeakerArg(speaker: SpeakerArg) returns (sp: Option<Speaker>)
      requires Valid()
      modifies this, speakerCache
      ensures Valid()
      ensures !SpeakerArgTruthy(speaker) ==> sp == None && unchanged(this, speakerCache)
      ensures speaker.GivenSpeaker? ==> sp == Some(speaker.speaker) && unchanged(this, speakerCache)
      ensures speaker.SpeakerName? && speaker.name != "" ==>
        && speakerCache.entries == SpeakerAfter(data, Some(speaker.name), old(speakerCache.entries))
        && speakerCache.entries[Some(speaker.name)] == OneSpeaker(sp)
      ensures isOpen == (|| old(isOpen)
                         || (speaker.SpeakerName? && speaker.name != ""
                             && SpeakerScans(Some(speaker.name), old(speakerCache.entries))))
      ensures old(SpeakerAgrees(data, speakerCache.entries)) ==> SpeakerAgrees(data, speakerCache.entries)
      ensures old(SpeakerAgrees(data, speakerCache.entries)) && speaker.SpeakerName? && speaker.name != "" ==>
        sp == Get(SpeakerIndex(data.speakers), Upper(speaker.name))
    {
      sp := None;
      match speaker {
        case NoSpeaker =>
        case GivenSpeaker(s) =>
          sp := Some(s);
        case SpeakerName(name) =>
          if name != "" {
            ghost var before := speakerCache.entries;
            var found := LookupSpeaker(Some(name));
            sp := found.speaker;
            if SpeakerAgrees(data, before) {
              SpeakerAfterAgrees(data, Some(name), before);
            }
          }
      }
    }

    /** `random(speaker, subject)`: `search` with no episode, a limit of one and `RANDOM()`
        order, then the first quote or `None`. */
    method RandomQuote(speaker: SpeakerArg, subject: Option<string>, shuffle: seq<QuoteRow> -> seq<QuoteRow>)
      returns (r: Result<Option<Quote>, Error>, criteria: Criteria, rows: seq<QuoteRow>)
      requires Valid() && Permutes(shuffle)
      modifies this, episodeCache, speakerCache
      ensures Valid()
      ensures r == Failure(NoCriteria) <==> !SpeakerArgTruthy(speaker) && !TruthyStr(subject)
      ensures r == Failure(NoCriteria) ==> unchanged(this, episodeCache, speakerCache)
      ensures r != Failure(NoCriteria) ==> isOpen
      ensures r.Failure? ==> r.error == NoCriteria || r.error == EmptyWhere
      ensures criteria.episode == None && ResolvedCriteria(data, NoEpisode, speaker, subject, criteria)
      ensures r == Failure(EmptyWhere) <==> r != Failure(NoCriteria) && criteria.speaker.None? && !TruthyStr(subject)
      ensures r.Failure? ==> rows == []
      ensures r.Success? ==> |rows| <= 1 && (r.value.None? <==> rows == []) && (rows == [] <==> Matching(data, criteria) == [])
      ensures r.Success? && r.value.Some? ==>
        && |rows| == 1 && rows[0] in Matching(data, criteria)
        && SameFields([r.value.value], rows)
        && FromCaches([r.value.value], rows, episodeCache.entries, speakerCache.entries)
      ensures r != Failure(NoCriteria) ==>
        && episodeCache.entries == EpisodesAfterRows(data, rows, old(episodeCache.entries))
        && speakerCache.entries
           == SpeakersAfterRows(data, rows, ArgSpeakerEntries(data, speaker, old(speakerCache.entries)))
      ensures Extends(old(episodeCache.entries), episodeCache.entries)
      ensures Extends(old(speakerCache.entries), speakerCache.entries)
      ensures speaker.SpeakerName? && speaker.name != "" ==>
        speakerCache.entries[Some(speaker.name)] == OneSpeaker(criteria.speaker)
      ensures old(Agrees()) ==> Agrees() && CriteriaFromData(data, NoEpisode, speaker, criteria)
      ensures old(Agrees()) && r.Success? && r.value.Some? ==> r.value.value == QuoteOf(data, rows[0])
    {
      var found: Result<seq<Quote>, Error>;
      found, criteria, rows := Search(NoEpisode, speaker, subject, Some(1), false, true, shuffle);
      if found.Failure? {
        return Failure(found.error), criteria, rows;
      }
      RandomPick(data, criteria, shuffle, found.value, rows, episodeCache.entries, speakerCache.entries);
      if |found.value| > 0 {
        r := Success(Some(found.value[0]));
      } else {
        r := Success(None);
      }
    }
  }
}
