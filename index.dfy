/** The full-table mappings the accessors build when called without a key: speakers by stored
    name, episodes by id, and seasons by number grouping the episodes. */
module Index {
  import opened Wrappers
  import opened Text
  import opened Entities

  // ---------------------------------------------------------------------------
  // speakers

  /** Every stored name maps to its speaker record. */
  function SpeakerIndex(names: seq<string>): (m: map<string, Speaker>)
    ensures forall n :: n in m <==> n in names
    ensures forall n :: n in m ==> m[n] == SpeakerOf(n)
  {
    map n | n in names :: SpeakerOf(n)
  }

  /** The loop of `speaker()` over the distinct names of the speaker column. */
  method BuildSpeakers(names: seq<string>) returns (speakers: map<string, Speaker>)
    ensures speakers == SpeakerIndex(names)
  {
    speakers := map[];
    for i := 0 to |names|
      invariant speakers == SpeakerIndex(names[..i])
    {
      var speaker := SpeakerOf(names[i]);
      SpeakerIndexStep(names, i);
      speakers := speakers[speaker.id := speaker];
    }
    assert names[..|names|] == names;
  }

  /** One more name adds (or overwrites) its own entry. */
  lemma SpeakerIndexStep(names: seq<string>, i: nat)
    requires i < |names|
    ensures SpeakerIndex(names[..i + 1]) == SpeakerIndex(names[..i])[names[i] := SpeakerOf(names[i])]
  {
    assert names[..i + 1] == names[..i] + [names[i]];
  }

  /** `speaker(name)` finds a speaker exactly when the upper-cased argument is a stored name,
      and the record found shows the argument capitalized, whatever its case. */
  lemma SpeakerLookup(names: seq<string>, name: string)
    ensures Get(SpeakerIndex(names), Upper(name)).Some? <==> Upper(name) in names
    ensures Upper(name) in names ==>
      Get(SpeakerIndex(names), Upper(name)).value == Speaker(Upper(name), Capitalize(name))
  {
    CapitalizeIgnoresCase(name);
  }

  /** A stored name holding a lower-case letter is never found by `speaker(name)`, since the
      lookup upper-cases its argument but the mapping keeps the names as stored. */
  lemma LowerCaseNameUnreachable(names: seq<string>, stored: string, i: nat, name: string)
    requires i < |stored| && IsLower(stored[i])
    ensures Get(SpeakerIndex(names), Upper(name)) != Some(SpeakerOf(stored))
  {
  }

  // ---------------------------------------------------------------------------
  // episodes

  /** The records `_episode` builds from the rows, in row order. */
  function BuildAll(rows: seq<EpisodeRow>): (episodes: seq<Episode>)
    ensures |episodes| == |rows|
    ensures forall j :: 0 <= j < |rows| ==> episodes[j] == BuildEpisode(rows[j])
  {
    seq(|rows|, j requires 0 <= j < |rows| => BuildEpisode(rows[j]))
  }

  /** The mapping `episode()` builds: each record under its id, a later record with the same id
      replacing an earlier one. */
  function IndexById(episodes: seq<Episode>): (m: map<int, Episode>)
    ensures forall k :: k in m <==> exists j :: 0 <= j < |episodes| && episodes[j].id == k
    ensures forall k :: k in m ==> m[k].id == k && m[k] in episodes
  {
    if episodes == [] then map[]
    else
      var last := episodes[|episodes| - 1];
      var init := episodes[..|episodes| - 1];
      assert forall j :: 0 <= j < |episodes| - 1 ==> init[j] == episodes[j];
      IndexById(init)[last.id := last]
  }

  /** One more record is filed under its id, replacing what was there. */
  lemma IndexByIdStep(episodes: seq<Episode>, i: nat)
    requires i < |episodes|
    ensures IndexById(episodes[..i + 1]) == IndexById(episodes[..i])[episodes[i].id := episodes[i]]
  {
    assert episodes[..i + 1][..i] == episodes[..i];
  }

  /** The full episode mapping of an episode table. */
  function EpisodeIndex(rows: seq<EpisodeRow>): (m: map<int, Episode>)
    ensures forall k :: k in m <==> exists j :: 0 <= j < |rows| && rows[j].id == k
    ensures forall k :: k in m ==> m[k].id == k && exists j :: 0 <= j < |rows| && m[k] == BuildEpisode(rows[j])
  {
    var all := BuildAll(rows);
    assert forall j :: 0 <= j < |rows| ==> all[j].id == rows[j].id;
    IndexById(all)
  }

  /** The loop of `episode()` over the rows of the episode table. */
  method BuildEpisodes(rows: seq<EpisodeRow>) returns (episodes: map<int, Episode>)
    ensures episodes == EpisodeIndex(rows)
  {
    ghost var all := BuildAll(rows);
    episodes := map[];
    for i := 0 to |rows|
      invariant episodes == IndexById(all[..i])
    {
      var episode := BuildEpisode(rows[i]);
      IndexByIdStep(all, i);
      episodes := episodes[episode.id := episode];
    }
    assert all[..|rows|] == all;
  }

  /** No two records share an id. */
  predicate UniqueIds(episodes: seq<Episode>)
  {
    forall i, j :: 0 <= i < j < |episodes| ==> episodes[i].id != episodes[j].id
  }

  /** With ids unique, as the table's key makes them, each record is found under its own id,
      whatever the order of the rows. */
  lemma {:induction false} IndexByIdAt(episodes: seq<Episode>, j: nat)
    requires UniqueIds(episodes) && j < |episodes|
    ensures IndexById(episodes)[episodes[j].id] == episodes[j]
    decreases |episodes|
  {
    var n := |episodes| - 1;
    if j < n {
      var init := episodes[..n];
      assert init[j] == episodes[j];
      assert UniqueIds(init);
      IndexByIdAt(init, j);
    }
  }

  // ---------------------------------------------------------------------------
  // seasons

  /** `seasons` groups `episodes` as `season()` does: every episode has a slot under its season
      and number, every season is keyed by its own number and holds at least one episode, and
      every slot holds an episode of that season and number. */
  ghost predicate IsGrouping(episodes: set<Episode>, seasons: map<int, Season>)
  {
    && (forall e :: e in episodes ==> e.season in seasons && e.number in seasons[e.season].episodes)
    && (forall k :: k in seasons ==> seasons[k].number == k && seasons[k].episodes.Keys != {})
    && (forall k, n :: k in seasons && n in seasons[k].episodes ==>
          seasons[k].episodes[n] in episodes
          && seasons[k].episodes[n].season == k
          && seasons[k].episodes[n].number == n)
  }

  /** The loop of `season()` over the values of the episode mapping. The mapping's iteration
      order is not modelled: each step takes any episode not yet placed. */
  method GroupSeasons(episodes: set<Episode>) returns (seasons: map<int, Season>)
    ensures IsGrouping(episodes, seasons)
  {
    seasons := map[];
    var rest := episodes;
    while rest != {}
      invariant rest <= episodes
      invariant IsGrouping(episodes - rest, seasons)
      decreases rest
    {
      var e :| e in rest;
      if e.season !in seasons {
        seasons := seasons[e.season := Season(e.season, map[])];
      }
      var s := seasons[e.season];
      seasons := seasons[e.season := Season(s.number, s.episodes[e.number := e])];
      rest := rest - {e};
    }
  }

  /** Each season's episode numbers are exactly the numbers of the episodes of that season. */
  lemma SeasonNumbers(episodes: set<Episode>, seasons: map<int, Season>, k: int)
    requires IsGrouping(episodes, seasons) && k in seasons
    ensures seasons[k].episodes.Keys == set e | e in episodes && e.season == k :: e.number
  {
    var numbers := set e | e in episodes && e.season == k :: e.number;
    forall n | n in seasons[k].episodes ensures n in numbers {
      var e := seasons[k].episodes[n];
      assert e in episodes && e.season == k && e.number == n;
    }
  }

  /** Every season key comes from at least one episode. */
  lemma SeasonHasEpisode(episodes: set<Episode>, seasons: map<int, Season>, k: int)
    requires IsGrouping(episodes, seasons) && k in seasons
    ensures exists e :: e in episodes && e.season == k
  {
    var slots := seasons[k].episodes.Keys;
    if forall n :: n !in slots {
      assert false;
    }
    var n :| n in slots;
    assert seasons[k].episodes[n] in episodes;
  }

  /** No two episodes share a season and number. */
  ghost predicate UniqueSlots(episodes: set<Episode>)
  {
    forall e, f :: e in episodes && f in episodes && e.season == f.season && e.number == f.number ==> e == f
  }

  /** When no two episodes share a season and number, each episode sits in its own slot, so
      the grouping does not depend on the order the episodes are visited in. */
  lemma GroupingPlacesEach(episodes: set<Episode>, seasons: map<int, Season>, e: Episode)
    requires IsGrouping(episodes, seasons) && UniqueSlots(episodes) && e in episodes
    ensures seasons[e.season].episodes[e.number] == e
  {
  }

  /** When no two episodes share a season and number, the grouping is determined by the episodes
      alone: any two groupings of them are equal, whatever order `season()` visited them in. */
  lemma GroupingDetermined(episodes: set<Episode>, s1: map<int, Season>, s2: map<int, Season>)
    requires IsGrouping(episodes, s1) && IsGrouping(episodes, s2) && UniqueSlots(episodes)
    ensures s1 == s2
  {
    forall k | k in s1 ensures k in s2 {
      SeasonHasEpisode(episodes, s1, k);
    }
    forall k | k in s2 ensures k in s1 {
      SeasonHasEpisode(episodes, s2, k);
    }
    forall k | k in s1 ensures s1[k] == s2[k] {
      var m1, m2 := s1[k].episodes, s2[k].episodes;
      forall n | n in m1 ensures n in m2 && m1[n] == m2[n] {
        GroupingPlacesEach(episodes, s2, m1[n]);
      }
      forall n | n in m2 ensures n in m1 {
        GroupingPlacesEach(episodes, s1, m2[n]);
      }
      assert m1 == m2;
    }
  }
}
