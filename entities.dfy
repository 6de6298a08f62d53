/** The store's records (`Speaker`, `Episode`, `Season`, `Quote`, `Passage`), the rows of the
    dataset they are built from, and the row-to-record builders. */
module Entities {
  import opened Wrappers
  import opened Text

  /** `Speaker(id, name)`: `id` is the name as stored, `name` its display form. */
  datatype Speaker = Speaker(id: string, name: string)

  /** `Episode(id, season, number, title, date, writers, director)`. `date` keeps the text of
      the date column; the conversion to a calendar date is not part of this model. */
  datatype Episode = Episode(id: int, season: int, number: int, title: string,
                             date: string, writers: set<string>, director: string)

  /** `Season(number, episodes)`, `episodes` keyed by episode number within the season. */
  datatype Season = Season(number: int, episodes: map<int, Episode>)

  /** What a `@cached` accessor returns: the whole mapping when its key is falsy, otherwise the
      single record or `None`. */
  datatype SpeakerResult = AllSpeakers(speakers: map<string, Speaker>) | OneSpeaker(speaker: Option<Speaker>)
  datatype EpisodeResult = AllEpisodes(episodes: map<int, Episode>) | OneEpisode(episode: Option<Episode>)
  datatype SeasonResult = AllSeasons(seasons: map<int, Season>) | OneSeason(season: Option<Season>)

  /** `Quote(id, episode, number, speaker, text)` with `episode` and `speaker` replaced by what
      `episode(episode_id)` and `speaker(speaker)` returned. */
  datatype Quote = Quote(id: int, episode: EpisodeResult, number: int, speaker: SpeakerResult, text: string)

  /** `Passage(id, episode, quotes)`: `id` and `episode` are the anchor quote's. */
  datatype Passage = Passage(id: int, episode: EpisodeResult, quotes: seq<Quote>)

  /** A row of the `episode` table, in the column order the store selects it. */
  datatype EpisodeRow = EpisodeRow(id: int, seasonNumber: int, episodeNumber: int, title: string,
                                   theDate: string, writer: string, director: string)

  /** A row of the `quote` view: one utterance with its sentences already joined into `text`. */
  datatype QuoteRow = QuoteRow(id: int, episodeId: int, number: int, speaker: string, text: string)

  /** The read-only dataset standing in for the SQLite file: the episode table, the quote view,
      the speaker column of the utterance table, and the engine's `LIKE` operator
      (`like(text, pattern)`), left uninterpreted. */
  datatype Database = Database(episodes: seq<EpisodeRow>, quotes: seq<QuoteRow>, speakers: seq<string>,
                               like: (string, string) -> bool)

  /** The exceptions the store's accessors raise. */
  datatype Error =
    | QuoteIdOutOfRange  // ValueError('Quote ID out of range')
    | NoCriteria         // ValueError('Must specify episode, speaker, or subject')
    | MissingRow         // TypeError from list(None) when no row has the id
    | NotAnEpisode       // AttributeError: the anchor's episode has no `id`
    | EmptyWhere         // the engine rejects a query whose WHERE clause is empty

  /** Python truth value of an optional number or string argument: `None`, `0` and `''` are false. */
  predicate TruthyInt(o: Option<int>) { o.Some? && o.value != 0 }

  predicate TruthyStr(o: Option<string>) { o.Some? && o.value != "" }

  /** The speaker record built for a stored name. */
  function SpeakerOf(name: string): (s: Speaker)
    ensures s.id == name && |s.name| == |name|
    ensures Upper(s.name) == Upper(name)
  {
    UpperOfCapitalize(name);
    Speaker(name, Capitalize(name))
  }

  /** The writer column split on commas, each piece stripped of surrounding whitespace. */
  function Writers(field: string): (w: set<string>)
    ensures w != {}
  {
    StripEach(Split(field, ','))
  }

  /** The set of the stripped pieces. */
  function StripEach(parts: seq<string>): (w: set<string>)
    ensures |parts| > 0 ==> w != {}
  {
    if parts == [] then {} else {Strip(parts[0])} + StripEach(parts[1..])
  }

  lemma {:induction false} StripEachIsSetOf(parts: seq<string>)
    ensures StripEach(parts) == set p | p in parts :: Strip(p)
  {
    if parts != [] {
      StripEachIsSetOf(parts[1..]);
      assert parts == [parts[0]] + parts[1..];
    }
  }

  /** The writers are exactly the stripped comma-separated pieces of the column; none of them
      has whitespace at either end or holds a comma. */
  lemma WritersArePieces(field: string)
    ensures Writers(field) == set p | p in Split(field, ',') :: Strip(p)
    ensures forall x :: x in Writers(field) ==> IsStripped(x) && ',' !in x
  {
    StripEachIsSetOf(Split(field, ','));
    SplitPiecesFree(field, ',');
    forall x | x in Writers(field) ensures ',' !in x {
      var p :| p in Split(field, ',') && x == Strip(p);
      StripKeepsAbsent(p, ',');
    }
  }

  lemma StripKeepsAbsent(p: string, c: char)
    requires c !in p
    ensures c !in Strip(p)
  {
    var r := Strip(p);
    var i := |p| - |StripLeft(p)|;
    StripSurroundings(p);
    forall k | 0 <= k < |r| ensures r[k] != c {
      assert r[k] == p[i + k];
    }
  }

  /** `_episode(row)`: the row with its writer column turned into a set of names. */
  function BuildEpisode(row: EpisodeRow): (e: Episode)
    ensures e.id == row.id && e.season == row.seasonNumber && e.number == row.episodeNumber
    ensures e.writers != {} && forall w :: w in e.writers ==> IsStripped(w) && ',' !in w
  {
    WritersArePieces(row.writer);
    Episode(row.id, row.seasonNumber, row.episodeNumber, row.title, row.theDate,
            Writers(row.writer), row.director)
  }

  /** One leading space is stripped from a name that is otherwise stripped. */
  lemma StripOneSpace(t: string)
    requires IsStripped(t)
    ensures Strip([' '] + t) == t
  {
    var s := [' '] + t;
    assert s[1..] == t;
    assert StripLeft(s) == StripLeft(t) == t;
    StripStripped(t);
  }

  /** A writer column of the form "A, B", such as "Larry David, Jerry Seinfeld", yields
      exactly the two names. */
  lemma WritersOfTwo(a: string, b: string)
    requires IsStripped(a) && IsStripped(b) && ',' !in a && ',' !in b
    ensures Writers(a + ", " + b) == {a, b}
  {
    var b' := [' '] + b;
    assert Join([a, b'], ',') == a + ", " + b;
    SplitJoin([a, b'], ',');
    StripStripped(a);
    StripOneSpace(b);
    assert [a, b'][1..] == [b'];
    assert [b'][1..] == [];
    assert StripEach([b']) == {b};
    assert StripEach([a, b']) == {a, b};
  }
}
