/** The query side of the store with the SQL engine replaced by operations on the rows of the
    quote view: the quote-id range check, the passage window, the WHERE clause `search`
    assembles, and the filter, order and limit the engine then applies. */
module Query {
  import opened Wrappers
  import opened Entities

  /** The largest utterance id in the dataset. */
  const MaxQuoteId := 52206

  /** The ids `quote(id)` refuses before it touches the database. */
  predicate OutOfQuoteRange(id: int): (out: bool)
    ensures !out <==> 1 <= id <= MaxQuoteId
  {
    id < 1 || id > MaxQuoteId
  }

  // ---------------------------------------------------------------------------
  // passage window

  /** The numbers `passage` selects around an anchor numbered `middle`: `half = length // 2`
      (Python's floor division, which agrees with Dafny's `/` for the divisor 2), the window
      starting `half` before the anchor unless that would fall below 1, and `length` wide. For a
      positive length and anchor the window holds the anchor; away from the start of the episode
      the anchor sits in the middle, with the extra number before it when `length` is even. */
  function Window(middle: int, length: int): (w: (int, int))
    ensures w.0 >= 1
    ensures w.1 - w.0 + 1 == length
    ensures length >= 1 && middle >= 1 ==> w.0 <= middle <= w.1
    ensures length >= 1 && middle > length / 2 ==>
      middle - w.0 == length / 2 && w.1 - middle == (length - 1) / 2
    ensures middle <= length / 2 ==> w.0 == 1
  {
    var half := length / 2;
    var start := if middle > half then middle - half else 1;
    (start, start + length - 1)
  }

  /** Length 5 around utterance 250 covers 248 to 252. */
  lemma WindowAround250()
    ensures Window(250, 5) == (248, 252)
  {
  }

  // ---------------------------------------------------------------------------
  // search criteria

  /** The three conjuncts `search` may put in its WHERE clause. */
  datatype Conjunct = EpisodeIdIs | SpeakerIs | TextLike

  /** The value bound to a conjunct's placeholder. */
  datatype Param = IntParam(i: int) | TextParam(s: string)

  /** The criteria after `search` has resolved them: the episode and speaker records found (or
      `None`), and the subject as passed. */
  datatype Criteria = Criteria(episode: Option<Episode>, speaker: Option<Speaker>, subject: Option<string>)

  /** The position of a conjunct in the order `search` appends them. */
  function Rank(c: Conjunct): nat
  {
    match c
    case EpisodeIdIs => 0
    case SpeakerIs => 1
    case TextLike => 2
  }

  /** The `LIKE` pattern for a subject: the subject anywhere in the text. */
  function Pattern(subject: string): (p: string)
    ensures |p| == |subject| + 2
    ensures p[0] == '%' && p[|p| - 1] == '%' && p[1..|p| - 1] == subject
  {
    "%" + subject + "%"
  }

  /** `row` satisfies conjunct `c` with placeholder value `p`. */
  predicate Holds(row: QuoteRow, c: Conjunct, p: Param, like: (string, string) -> bool)
  {
    match c
    case EpisodeIdIs => p.IntParam? && row.episodeId == p.i
    case SpeakerIs => p.TextParam? && row.speaker == p.s
    case TextLike => p.TextParam? && like(row.text, p.s)
  }

  /** `row` satisfies the WHERE clause `' and '.join(wheres)` with `params` bound in order. */
  predicate Satisfies(row: QuoteRow, wheres: seq<Conjunct>, params: seq<Param>, like: (string, string) -> bool)
  {
    && |wheres| == |params|
    && forall k :: 0 <= k < |wheres| ==> Holds(row, wheres[k], params[k], like)
  }

  /** What the criteria ask of a row, stated directly: the episode's id, the speaker's stored
      name, and a non-empty subject anywhere in the text. */
  predicate Matches(row: QuoteRow, criteria: Criteria, like: (string, string) -> bool)
  {
    && (criteria.episode.Some? ==> row.episodeId == criteria.episode.value.id)
    && (criteria.speaker.Some? ==> row.speaker == criteria.speaker.value.id)
    && (TruthyStr(criteria.subject) ==> like(row.text, Pattern(criteria.subject.value)))
  }

  /** The `wheres`/`params` lists `search` appends to: one conjunct per criterion present, in the
      order episode, speaker, subject, parameters parallel to them, and the clause they form
      selects exactly the rows the criteria ask for. */
  method BuildFilter(criteria: Criteria) returns (wheres: seq<Conjunct>, params: seq<Param>)
    ensures |wheres| == |params|
    ensures forall i, j :: 0 <= i < j < |wheres| ==> Rank(wheres[i]) < Rank(wheres[j])
    ensures EpisodeIdIs in wheres <==> criteria.episode.Some?
    ensures SpeakerIs in wheres <==> criteria.speaker.Some?
    ensures TextLike in wheres <==> TruthyStr(criteria.subject)
    ensures forall row, like :: Satisfies(row, wheres, params, like) <==> Matches(row, criteria, like)
  {
    wheres, params := [], [];
    if criteria.episode.Some? {
      wheres := wheres + [EpisodeIdIs];
      params := params + [IntParam(criteria.episode.value.id)];
    }
    if criteria.speaker.Some? {
      wheres := wheres + [SpeakerIs];
      params := params + [TextParam(criteria.speaker.value.id)];
    }
    if TruthyStr(criteria.subject) {
      wheres := wheres + [TextLike];
      params := params + [TextParam(Pattern(criteria.subject.value))];
    }
    forall row, like ensures Satisfies(row, wheres, params, like) <==> Matches(row, criteria, like) {
      FilterAgrees(row, criteria, like, wheres, params);
    }
  }

  /** `p` is the value `search` binds to conjunct `c` for these criteria. */
  predicate ParamFor(criteria: Criteria, c: Conjunct, p: Param)
  {
    match c
    case EpisodeIdIs => criteria.episode.Some? && p == IntParam(criteria.episode.value.id)
    case SpeakerIs => criteria.speaker.Some? && p == TextParam(criteria.speaker.value.id)
    case TextLike => TruthyStr(criteria.subject) && p == TextParam(Pattern(criteria.subject.value))
  }

  lemma FilterAgrees(row: QuoteRow, criteria: Criteria, like: (string, string) -> bool,
                     wheres: seq<Conjunct>, params: seq<Param>)
    requires |wheres| == |params|
    requires forall k :: 0 <= k < |wheres| ==> ParamFor(criteria, wheres[k], params[k])
    requires EpisodeIdIs in wheres <==> criteria.episode.Some?
    requires SpeakerIs in wheres <==> criteria.speaker.Some?
    requires TextLike in wheres <==> TruthyStr(criteria.subject)
    ensures Satisfies(row, wheres, params, like) <==> Matches(row, criteria, like)
  {
    if Matches(row, criteria, like) {
      forall k | 0 <= k < |wheres| ensures Holds(row, wheres[k], params[k], like) {
      }
    }
    if Satisfies(row, wheres, params, like) {
      if criteria.episode.Some? {
        var k :| 0 <= k < |wheres| && wheres[k] == EpisodeIdIs;
        assert Holds(row, wheres[k], params[k], like);
      }
      if criteria.speaker.Some? {
        var k :| 0 <= k < |wheres| && wheres[k] == SpeakerIs;
        assert Holds(row, wheres[k], params[k], like);
      }
      if TruthyStr(criteria.subject) {
        var k :| 0 <= k < |wheres| && wheres[k] == TextLike;
        assert Holds(row, wheres[k], params[k], like);
      }
    }
  }

  // ---------------------------------------------------------------------------
  // filter, order, limit

  /** The rows the engine selects, in table order. */
  function Filter(rows: seq<QuoteRow>, keep: QuoteRow -> bool): (r: seq<QuoteRow>)
    ensures forall x :: multiset(r)[x] == if keep(x) then multiset(rows)[x] else 0
  {
    if rows == [] then []
    else
      assert rows == [rows[0]] + rows[1..];
      (if keep(rows[0]) then [rows[0]] else []) + Filter(rows[1..], keep)
  }

  /** The order `search` asks for: `RANDOM()` when `random`, whatever `reverse` says; otherwise
      by episode and number, descending when `reverse`. */
  datatype Order = Shuffled | Descending | Ascending

  function OrderOf(reverse: bool, random: bool): (o: Order)
    ensures o == Shuffled <==> random
    ensures o == Descending <==> !random && reverse
  {
    if random then Shuffled else if reverse then Descending else Ascending
  }

  /** `a` comes no later than `b` in `episode_id asc, utterance_number asc`. */
  predicate KeyLe(a: QuoteRow, b: QuoteRow)
  {
    a.episodeId < b.episodeId || (a.episodeId == b.episodeId && a.number <= b.number)
  }

  predicate InOrder(a: QuoteRow, b: QuoteRow, descending: bool)
  {
    if descending then KeyLe(b, a) else KeyLe(a, b)
  }

  predicate Sorted(s: seq<QuoteRow>, descending: bool)
  {
    forall i, j :: 0 <= i < j < |s| ==> InOrder(s[i], s[j], descending)
  }

  lemma InOrderTransitive(a: QuoteRow, b: QuoteRow, c: QuoteRow, descending: bool)
    requires InOrder(a, b, descending) && InOrder(b, c, descending)
    ensures InOrder(a, c, descending)
  {
  }

  /** A row no later than the head of a sorted sequence can be put in front of it. */
  lemma ConsSorted(h: QuoteRow, s: seq<QuoteRow>, descending: bool)
    requires Sorted(s, descending)
    requires s != [] ==> InOrder(h, s[0], descending)
    ensures Sorted([h] + s, descending)
  {
    var t := [h] + s;
    forall i, j | 0 <= i < j < |t| ensures InOrder(t[i], t[j], descending) {
      if i == 0 && j > 1 {
        InOrderTransitive(h, s[0], s[j - 1], descending);
      }
    }
  }

  /** When `x` goes after the head of `s`, the head comes first in the sequence it is inserted into. */
  lemma InsertedAfterHead(x: QuoteRow, s: seq<QuoteRow>, rest: seq<QuoteRow>, descending: bool)
    requires Sorted(s, descending) && s != [] && !InOrder(x, s[0], descending)
    requires multiset(rest) == multiset(s[1..]) + multiset{x}
    ensures rest != [] && InOrder(s[0], rest[0], descending)
  {
    assert x in multiset(rest);
    assert rest[0] in multiset(rest);
    if rest[0] != x {
      assert rest[0] in multiset(s[1..]);
      var k :| 0 <= k < |s[1..]| && s[1..][k] == rest[0];
      assert s[k + 1] == rest[0];
    }
  }

  function Insert(x: QuoteRow, s: seq<QuoteRow>, descending: bool): (r: seq<QuoteRow>)
    requires Sorted(s, descending)
    ensures Sorted(r, descending)
    ensures multiset(r) == multiset(s) + multiset{x}
  {
    if s == [] || InOrder(x, s[0], descending) then
      ConsSorted(x, s, descending);
      [x] + s
    else
      var rest := Insert(x, s[1..], descending);
      assert s == [s[0]] + s[1..];
      InsertedAfterHead(x, s, rest, descending);
      ConsSorted(s[0], rest, descending);
      [s[0]] + rest
  }

  /** The rows in the order the ORDER BY clause asks for: sorted by key, the same rows. */
  function SortRows(s: seq<QuoteRow>, descending: bool): (r: seq<QuoteRow>)
    ensures Sorted(r, descending)
    ensures multiset(r) == multiset(s)
  {
    if s == [] then []
    else
      assert s == [s[0]] + s[1..];
      Insert(s[0], SortRows(s[1..], descending), descending)
  }

  /** `limit` as `search` passes it to the engine: a falsy limit becomes `-1`, so a limit of
      `0` returns every row rather than none. */
  function LimitOf(limit: Option<int>): (n: int)
    ensures n != 0
    ensures n < 0 <==> limit.None? || limit.value < 0 || limit.value == 0
    ensures 0 < n ==> n == limit.value
  {
    if TruthyInt(limit) then limit.value else -1
  }

  /** `LIMIT n`: the first `n` rows, or all of them when `n` is negative. */
  function Take<T>(s: seq<T>, n: int): (r: seq<T>)
    ensures r <= s
    ensures n < 0 ==> r == s
    ensures 0 <= n ==> |r| == if n < |s| then n else |s|
  {
    if n < 0 || n >= |s| then s else s[..n]
  }

  // ---------------------------------------------------------------------------
  // the order is determined when keys are unique

  function Key(row: QuoteRow): (int, int)
  {
    (row.episodeId, row.number)
  }

  /** No two rows share an episode and number. */
  predicate UniqueKeys(s: seq<QuoteRow>)
  {
    forall i, j :: 0 <= i < j < |s| ==> Key(s[i]) != Key(s[j])
  }

  /** Two orderings of the same rows sorted the same way start with the same row when keys are
      unique. */
  lemma HeadsAgree(a: seq<QuoteRow>, b: seq<QuoteRow>, descending: bool)
    requires Sorted(a, descending) && Sorted(b, descending)
    requires multiset(a) == multiset(b) && UniqueKeys(a) && a != []
    ensures b != [] && a[0] == b[0]
  {
    assert a[0] in multiset(b);
    var j :| 0 <= j < |b| && b[j] == a[0];
    assert b[0] in multiset(a);
    var i :| 0 <= i < |a| && a[i] == b[0];
    if i != 0 {
      assert false;
    }
  }

  lemma SameTails(a: seq<QuoteRow>, b: seq<QuoteRow>)
    requires a != [] && b != [] && a[0] == b[0] && multiset(a) == multiset(b)
    ensures multiset(a[1..]) == multiset(b[1..])
  {
    assert a == [a[0]] + a[1..] && b == [b[0]] + b[1..];
    assert multiset(a) == multiset{a[0]} + multiset(a[1..]);
    assert multiset(b) == multiset{a[0]} + multiset(b[1..]);
    assert multiset(a[1..]) == multiset(a) - multiset{a[0]};
  }

  lemma TailFacts(s: seq<QuoteRow>, descending: bool)
    requires s != []
    ensures Sorted(s, descending) ==> Sorted(s[1..], descending)
    ensures UniqueKeys(s) ==> UniqueKeys(s[1..])
  {
    var t := s[1..];
    if UniqueKeys(s) {
      forall i, j | 0 <= i < j < |t| ensures Key(t[i]) != Key(t[j]) {
        assert t[i] == s[i + 1] && t[j] == s[j + 1];
      }
    }
    if Sorted(s, descending) {
      forall i, j | 0 <= i < j < |t| ensures InOrder(t[i], t[j], descending) {
        assert t[i] == s[i + 1] && t[j] == s[j + 1];
      }
    }
  }

  /** Two orderings of the same rows sorted the same way are equal when keys are unique: the
      result of an ordered search does not depend on the order rows are stored in. */
  lemma {:induction false} SortedUnique(a: seq<QuoteRow>, b: seq<QuoteRow>, descending: bool)
    requires Sorted(a, descending) && Sorted(b, descending)
    requires multiset(a) == multiset(b) && UniqueKeys(a)
    ensures a == b
    decreases |a|
  {
    if a == [] {
      assert |b| == |multiset(b)| == 0;
    } else {
      HeadsAgree(a, b, descending);
      var a', b' := a[1..], b[1..];
      SameTails(a, b);
      TailFacts(a, descending);
      TailFacts(b, descending);
      SortedUnique(a', b', descending);
    }
  }

  function Reverse(s: seq<QuoteRow>): (r: seq<QuoteRow>)
    ensures |r| == |s|
    ensures forall i :: 0 <= i < |s| ==> r[i] == s[|s| - 1 - i]
  {
    if s == [] then [] else Reverse(s[1..]) + [s[0]]
  }

  lemma {:induction false} ReverseSameRows(s: seq<QuoteRow>)
    ensures multiset(Reverse(s)) == multiset(s)
  {
    if s != [] {
      ReverseSameRows(s[1..]);
      assert s == [s[0]] + s[1..];
    }
  }

  lemma ReverseSorted(s: seq<QuoteRow>)
    requires Sorted(s, false)
    ensures Sorted(Reverse(s), true)
  {
    var r := Reverse(s);
    forall i, j | 0 <= i < j < |r| ensures InOrder(r[i], r[j], true) {
      assert InOrder(s[|s| - 1 - j], s[|s| - 1 - i], false);
    }
  }

  /** With unique keys, the rows sorted descending are the rows sorted ascending, backwards. */
  lemma DescendingIsReverseOf(up: seq<QuoteRow>, down: seq<QuoteRow>)
    requires Sorted(up, false) && UniqueKeys(up)
    requires Sorted(down, true) && multiset(down) == multiset(up)
    ensures down == Reverse(up)
  {
    var r := Reverse(up);
    ReverseSameRows(up);
    ReverseSorted(up);
    assert UniqueKeys(r) by {
      forall i, j | 0 <= i < j < |r| ensures Key(r[i]) != Key(r[j]) {
        assert r[i] == up[|up| - 1 - i] && r[j] == up[|up| - 1 - j];
      }
    }
    SortedUnique(r, down, true);
  }

  /** With unique keys, the `reverse` order is the default order backwards. */
  lemma DescendingIsReverse(s: seq<QuoteRow>)
    requires UniqueKeys(SortRows(s, false))
    ensures SortRows(s, true) == Reverse(SortRows(s, false))
  {
    DescendingIsReverseOf(SortRows(s, false), SortRows(s, true));
  }
}
