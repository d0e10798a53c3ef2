/**
 * The research service: knowledge-base lookup, the research-article prefix,
 * the tally of treatment keywords in article abstracts, and the part of
 * symptom analysis that follows the similarity computation (threshold, then
 * a stable sort by score).
 */
module ResearchService {
  import opened Wrappers
  import opened Dicts
  import opened Text
  import opened Models
  import opened ResearchDatabase
  import opened Sorting

  // ---------------------------------------------------------------- loading

  /** `_load_dsm5_data`: the document's content, or `{}` when the file does not exist (`None`). */
  function LoadKnowledgeBase(file: Option<KnowledgeBase>): (kb: KnowledgeBase)
    ensures file.None? ==> kb == Empty()
    ensures file.Some? ==> kb == file.value
  {
    match file
    case Some(content) => content
    case None => Empty()
  }

  // ---------------------------------------------------------------- lookups

  /** `get_dsm5_criteria`: the entry of a known condition key, else `{}`. */
  function GetDsm5Criteria(kb: KnowledgeBase, disorder: string): (entry: ConditionEntry)
    requires kb.Valid()
    ensures disorder in kb.keys ==> entry == kb.values[disorder]
    ensures disorder !in kb.keys ==> entry == NoEntry
  {
    kb.Get(disorder, NoEntry)
  }

  function Min(a: int, b: int): int {
    if a <= b then a else b
  }

  /** Python's `s[:n]`; a negative `n` drops that many elements from the end. */
  function SlicePrefix<T>(s: seq<T>, n: int): (r: seq<T>)
    ensures r <= s
    ensures n >= 0 ==> |r| == Min(n, |s|)
    ensures n < 0 ==> |r| == if |s| + n < 0 then 0 else |s| + n
  {
    if n >= 0 then s[..Min(n, |s|)]
    else if |s| + n < 0 then []
    else s[..|s| + n]
  }

  /** The default of `max_results`. */
  const DefaultMaxResults := 5

  /** `get_scholarly_articles`: the first `maxResults` articles of the table's list for `disorder`. */
  function GetScholarlyArticles(disorder: string, maxResults: int): (articles: seq<Article>)
    ensures articles <= GetArticles(disorder)
    ensures maxResults >= 0 ==> |articles| == Min(maxResults, |GetArticles(disorder)|)
  {
    SlicePrefix(GetArticles(disorder), maxResults)
  }

  // ---------------------------------------------------------------- treatment tally

  /** The treatment keywords, in the order the tally tries them. */
  const Keywords: seq<string> := ["cbt", "medication", "mindfulness", "psychotherapy"]

  /** `article.get('abstract', '').lower()`. */
  function AbstractText(a: Article): string {
    Lower(a.abstractText.GetOr(""))
  }

  predicate Mentions(a: Article, keyword: string) {
    Contains(AbstractText(a), keyword)
  }

  /** The titles of the articles that mention `keyword`, in article order. */
  function MentioningTitles(articles: seq<Article>, keyword: string): (titles: seq<string>)
    ensures |titles| <= |articles|
  {
    if articles == [] then []
    else
      var n := |articles| - 1;
      MentioningTitles(articles[..n], keyword) + (if Mentions(articles[n], keyword) then [articles[n].title] else [])
  }

  /** The index of the first article that mentions `keyword`, or `|articles|` when none does. */
  function FirstMention(articles: seq<Article>, keyword: string): (f: nat)
    ensures f <= |articles|
    ensures f < |articles| ==> Mentions(articles[f], keyword)
    ensures forall j :: 0 <= j < f && j < |articles| ==> !Mentions(articles[j], keyword)
  {
    if articles == [] then 0
    else
      var n := |articles| - 1;
      var f := FirstMention(articles[..n], keyword);
      if f < n then f else if Mentions(articles[n], keyword) then n else n + 1
  }

  datatype TreatmentStats = TreatmentStats(mentionCount: nat, articles: seq<string>)

  /** The statistics the tally keeps for `keyword` after reading `articles`. */
  function StatsOf(articles: seq<Article>, keyword: string): TreatmentStats {
    var titles := MentioningTitles(articles, keyword);
    TreatmentStats(|titles|, titles)
  }

  /** The position of `k` in `Keywords`, or `|Keywords|` for any other string. */
  function Rank(k: string): (r: nat)
    ensures r <= |Keywords|
    ensures r < |Keywords| ==> Keywords[r] == k
    ensures r == |Keywords| ==> k !in Keywords
  {
    if k == Keywords[0] then 0
    else if k == Keywords[1] then 1
    else if k == Keywords[2] then 2
    else if k == Keywords[3] then 3
    else 4
  }

  /** The keys after trying `Keywords[..i]` against one article: each mentioned keyword not yet present goes last. */
  function AddMentioned(keys: seq<string>, a: Article, i: nat): seq<string>
    requires i <= |Keywords|
  {
    if i == 0 then keys
    else
      var ks := AddMentioned(keys, a, i - 1);
      if Mentions(a, Keywords[i - 1]) && Keywords[i - 1] !in ks then ks + [Keywords[i - 1]] else ks
  }

  /** The key order of the tally: keys are inserted on first mention, article by article, keyword by keyword. */
  function TallyKeys(articles: seq<Article>): seq<string> {
    if articles == [] then []
    else AddMentioned(TallyKeys(articles[..|articles| - 1]), articles[|articles| - 1], |Keywords|)
  }

  lemma {:induction false} AddMentionedMembers(keys: seq<string>, a: Article, i: nat)
    requires i <= |Keywords|
    ensures forall k :: k in AddMentioned(keys, a, i) <==> k in keys || (k in Keywords[..i] && Mentions(a, k))
  {
    if i > 0 {
      AddMentionedMembers(keys, a, i - 1);
      assert Keywords[..i] == Keywords[..i - 1] + [Keywords[i - 1]];
    }
  }

  /** The tally's keys are exactly the keywords that some abstract mentions. */
  lemma {:induction false} TallyKeysMembers(articles: seq<Article>)
    ensures forall k :: k in TallyKeys(articles) <==> k in Keywords && MentioningTitles(articles, k) != []
  {
    if articles != [] {
      var n := |articles| - 1;
      TallyKeysMembers(articles[..n]);
      AddMentionedMembers(TallyKeys(articles[..n]), articles[n], |Keywords|);
      assert Keywords[..|Keywords|] == Keywords;
    }
  }

  lemma StatsExtend(seen: seq<Article>, a: Article, keyword: string)
    ensures MentioningTitles(seen + [a], keyword) ==
      MentioningTitles(seen, keyword) + (if Mentions(a, keyword) then [a.title] else [])
  {
    assert (seen + [a])[..|seen|] == seen;
  }

  /** A keyword is tallied for some article exactly when its first mention lies within the articles. */
  lemma {:induction false} FirstMentionFound(articles: seq<Article>, keyword: string)
    ensures FirstMention(articles, keyword) < |articles| <==> MentioningTitles(articles, keyword) != []
  {
    if articles != [] {
      FirstMentionFound(articles[..|articles| - 1], keyword);
    }
  }

  /** Trying more keywords only ever appends keys. */
  lemma {:induction false} AddMentionedPrefix(keys: seq<string>, a: Article, i: nat)
    requires i <= |Keywords|
    ensures keys <= AddMentioned(keys, a, i)
  {
    if i > 0 {
      AddMentionedPrefix(keys, a, i - 1);
    }
  }

  /** Each keyword's rank is its position in the keyword list. */
  lemma RankOfKeyword(j: nat)
    requires j < |Keywords|
    ensures Rank(Keywords[j]) == j
  {
  }

  /** Starting from no keys, the first key added is the first keyword, in keyword order, that the article mentions. */
  lemma {:induction false} AddMentionedFirst(a: Article, i: nat)
    requires i <= |Keywords| && AddMentioned([], a, i) != []
    ensures var k := AddMentioned([], a, i)[0];
      && Rank(k) < i && Mentions(a, k)
      && forall j :: 0 <= j < Rank(k) ==> !Mentions(a, Keywords[j])
  {
    var before := AddMentioned([], a, i - 1);
    var after := AddMentioned([], a, i);
    assert after == before || after == before + [Keywords[i - 1]];
    if before != [] {
      AddMentionedFirst(a, i - 1);
      assert after[0] == before[0];
    } else {
      assert after == [Keywords[i - 1]];
      RankOfKeyword(i - 1);
      AddMentionedMembers([], a, i - 1);
      forall j | 0 <= j < i - 1 ensures !Mentions(a, Keywords[j]) {
        assert Keywords[j] in Keywords[..i - 1];
      }
    }
  }


  /** `k0` was first mentioned no later than `k`, and before it when `k` is listed earlier. */
  ghost predicate NoLater(articles: seq<Article>, k0: string, k: string) {
    || FirstMention(articles, k0) < FirstMention(articles, k)
    || (FirstMention(articles, k0) == FirstMention(articles, k) && Rank(k0) <= Rank(k))
  }

  /** A keyword already mentioned before the last article keeps its precedence. */
  lemma {:induction false} NoLaterKept(articles: seq<Article>, k0: string, k: string)
    requires articles != []
    requires MentioningTitles(articles[..|articles| - 1], k0) != []
    requires MentioningTitles(articles[..|articles| - 1], k) != [] ==> NoLater(articles[..|articles| - 1], k0, k)
    ensures NoLater(articles, k0, k)
  {
    var n := |articles| - 1;
    FirstMentionFound(articles[..n], k0);
    FirstMentionFound(articles[..n], k);
  }

  /** Keywords first mentioned by the last article come in keyword order. */
  lemma {:induction false} NoLaterNew(articles: seq<Article>, k0: string, k: string)
    requires articles != []
    requires MentioningTitles(articles[..|articles| - 1], k0) == []
    requires MentioningTitles(articles[..|articles| - 1], k) == []
    requires Mentions(articles[|articles| - 1], k0)
    requires Mentions(articles[|articles| - 1], k) ==> Rank(k0) <= Rank(k)
    ensures MentioningTitles(articles, k) != [] ==> FirstMention(articles, k0) == FirstMention(articles, k) && Rank(k0) <= Rank(k)
  {
    var n := |articles| - 1;
    FirstMentionFound(articles[..n], k0);
    FirstMentionFound(articles[..n], k);
  }

  /**
   * The first key of the tally is the keyword mentioned earliest: no other
   * mentioned keyword has an earlier first mention, and one mentioned first
   * by the same article comes later in the keyword list.
   */
  lemma {:induction false} TallyFirstKey(articles: seq<Article>)
    requires TallyKeys(articles) != []
    ensures var k0 := TallyKeys(articles)[0];
      && k0 in Keywords && MentioningTitles(articles, k0) != []
      && forall k :: k in Keywords && MentioningTitles(articles, k) != [] ==>
           || FirstMention(articles, k0) < FirstMention(articles, k)
           || (FirstMention(articles, k0) == FirstMention(articles, k) && Rank(k0) <= Rank(k))
  {
    var n := |articles| - 1;
    var prefix := articles[..n];
    var keys := TallyKeys(prefix);
    var k0 := TallyKeys(articles)[0];
    TallyKeysMembers(articles);
    TallyKeysMembers(prefix);
    assert k0 in TallyKeys(articles);
    AddMentionedPrefix(keys, articles[n], |Keywords|);
    if keys != [] {
      TallyFirstKey(prefix);
      assert k0 == keys[0];
      forall k | k in Keywords && MentioningTitles(articles, k) != []
        ensures NoLater(articles, k0, k)
      {
        NoLaterKept(articles, k0, k);
      }
    } else {
      AddMentionedFirst(articles[n], |Keywords|);
      forall k | k in Keywords && MentioningTitles(articles, k) != []
        ensures NoLater(articles, k0, k)
      {
        NoLaterNew(articles, k0, k);
      }
    }
  }

  /** `k0` was first mentioned before `k`, or by the same article and earlier in the keyword list. */
  ghost predicate Before(articles: seq<Article>, k0: string, k: string) {
    || FirstMention(articles, k0) < FirstMention(articles, k)
    || (FirstMention(articles, k0) == FirstMention(articles, k) && Rank(k0) < Rank(k))
  }

  /** One article appends keys the old list lacks, each mentioned by the article, in keyword order. */
  lemma {:induction false} AddMentionedNew(keys: seq<string>, a: Article, i: nat)
    requires i <= |Keywords|
    ensures var r := AddMentioned(keys, a, i);
      && keys <= r
      && (forall p :: |keys| <= p < |r| ==> r[p] !in keys && Mentions(a, r[p]) && Rank(r[p]) < i)
      && (forall p, q :: |keys| <= p < q < |r| ==> Rank(r[p]) < Rank(r[q]))
  {
    if i > 0 {
      AddMentionedNew(keys, a, i - 1);
      var before := AddMentioned(keys, a, i - 1);
      var r := AddMentioned(keys, a, i);
      if r != before {
        var k := Keywords[i - 1];
        assert r == before + [k] && k !in before && Mentions(a, k);
        RankOfKeyword(i - 1);
        assert k !in keys;
        forall p | |keys| <= p < |before| ensures Rank(r[p]) < Rank(k) {
          assert r[p] == before[p];
        }
      }
    }
  }

  /** A keyword the earlier articles mention keeps its first mention when one more article is read. */
  lemma FirstMentionKept(articles: seq<Article>, k: string)
    requires articles != [] && MentioningTitles(articles[..|articles| - 1], k) != []
    ensures FirstMention(articles, k) == FirstMention(articles[..|articles| - 1], k) < |articles| - 1
  {
    FirstMentionFound(articles[..|articles| - 1], k);
  }

  /** A keyword first mentioned by the last article has that article as its first mention. */
  lemma FirstMentionNew(articles: seq<Article>, k: string)
    requires articles != [] && MentioningTitles(articles[..|articles| - 1], k) == []
    requires Mentions(articles[|articles| - 1], k)
    ensures FirstMention(articles, k) == |articles| - 1
  {
    FirstMentionFound(articles[..|articles| - 1], k);
  }

  /**
   * Every key of the tally comes before every later one: keys are listed in
   * order of first mention, and keys first mentioned by the same article in
   * keyword order.
   */
  lemma {:induction false} TallyKeysOrdered(articles: seq<Article>)
    ensures forall i, j :: 0 <= i < j < |TallyKeys(articles)| ==>
      Before(articles, TallyKeys(articles)[i], TallyKeys(articles)[j])
  {
    if articles != [] {
      var n := |articles| - 1;
      var prefix := articles[..n];
      var known := TallyKeys(prefix);
      var ks := TallyKeys(articles);
      TallyKeysOrdered(prefix);
      TallyKeysMembers(prefix);
      AddMentionedNew(known, articles[n], |Keywords|);
      forall i, j | 0 <= i < j < |ks| ensures Before(articles, ks[i], ks[j]) {
        if j < |known| {
          assert ks[i] == known[i] && ks[j] == known[j];
          assert known[i] in known && known[j] in known;
          assert Before(prefix, ks[i], ks[j]);
          FirstMentionKept(articles, ks[i]);
          FirstMentionKept(articles, ks[j]);
        } else {
          assert Keywords[Rank(ks[j])] == ks[j];
          FirstMentionNew(articles, ks[j]);
          if i < |known| {
            assert ks[i] == known[i] && known[i] in known;
            FirstMentionKept(articles, ks[i]);
          } else {
            assert Keywords[Rank(ks[i])] == ks[i];
            FirstMentionNew(articles, ks[i]);
          }
        }
      }
    }
  }

  /** Records one mention of `therapy` by the article titled `title`, creating the entry `{0, []}` first when it is missing. */
  method RecordMention(treatments: Dict<string, TreatmentStats>, therapy: string, title: string)
    returns (updated: Dict<string, TreatmentStats>)
    requires treatments.Valid()
    ensures updated.Valid()
    ensures updated.keys == if therapy in treatments.values then treatments.keys else treatments.keys + [therapy]
    ensures var stats := treatments.Get(therapy, TreatmentStats(0, []));
      updated.values == treatments.values[therapy := TreatmentStats(stats.mentionCount + 1, stats.articles + [title])]
  {
    updated := treatments;
    if therapy !in updated.values {
      updated := updated.Set(therapy, TreatmentStats(0, []));
    }
    var stats := updated.values[therapy];
    updated := updated.Set(therapy, TreatmentStats(stats.mentionCount + 1, stats.articles + [title]));
  }

  /** The tally after trying `Keywords[..i]` against `article`, having read `seen` before it. */
  ghost predicate TalliedUpTo(d: Dict<string, TreatmentStats>, seen: seq<Article>, article: Article, i: nat)
    requires i <= |Keywords|
  {
    && d.Valid()
    && d.keys == AddMentioned(TallyKeys(seen), article, i)
    && forall k :: k in d.values ==> d.values[k] == StatsOf(if Rank(k) < i then seen + [article] else seen, k)
  }

  /** One pass of the inner loop: `if therapy in abstract`, record the mention. */
  method TryKeyword(treatments: Dict<string, TreatmentStats>, abstractText: string, article: Article, ghost seen: seq<Article>, i: nat)
    returns (updated: Dict<string, TreatmentStats>)
    requires i < |Keywords| && abstractText == AbstractText(article)
    requires TalliedUpTo(treatments, seen, article, i)
    ensures TalliedUpTo(updated, seen, article, i + 1)
  {
    var therapy := Keywords[i];
    assert Rank(therapy) == i;
    StatsExtend(seen, article, therapy);
    updated := treatments;
    if Contains(abstractText, therapy) {
      if therapy !in updated.values {
        AddMentionedMembers(TallyKeys(seen), article, i);
        TallyKeysMembers(seen);
        assert MentioningTitles(seen, therapy) == [];
      }
      updated := RecordMention(updated, therapy, article.title);
    }
    forall k | k in updated.values
      ensures updated.values[k] == StatsOf(if Rank(k) < i + 1 then seen + [article] else seen, k)
    {
      if k != therapy {
        assert k in treatments.values;
      }
    }
  }

  /** The inner loop of the tally: tries every keyword against one article. */
  method TallyArticle(treatments: Dict<string, TreatmentStats>, article: Article, ghost seen: seq<Article>)
    returns (updated: Dict<string, TreatmentStats>)
    requires treatments.Valid() && treatments.keys == TallyKeys(seen)
    requires forall k :: k in treatments.values ==> treatments.values[k] == StatsOf(seen, k)
    ensures updated.Valid() && updated.keys == TallyKeys(seen + [article])
    ensures forall k :: k in updated.values ==> updated.values[k] == StatsOf(seen + [article], k)
  {
    var abstractText := Lower(article.abstractText.GetOr(""));
    updated := treatments;
    for i := 0 to |Keywords|
      invariant TalliedUpTo(updated, seen, article, i)
    {
      updated := TryKeyword(updated, abstractText, article, seen, i);
    }
    assert Keywords[..|Keywords|] == Keywords;
    AddMentionedMembers(treatments.keys, article, |Keywords|);
    TallyKeysMembers(seen);
    forall k | k in updated.values
      ensures updated.values[k] == StatsOf(seen + [article], k)
    {
      assert k in Keywords;
    }
  }

  /**
   * `analyze_treatment_effectiveness`: for every keyword mentioned in some
   * abstract, the number of mentioning articles and their titles.
   */
  method AnalyzeTreatmentEffectiveness(articles: seq<Article>) returns (treatments: Dict<string, TreatmentStats>)
    ensures treatments.Valid()
    ensures treatments.keys == TallyKeys(articles)
    ensures forall k :: k in treatments.values ==> treatments.values[k] == StatsOf(articles, k)
    ensures forall k :: k in treatments.keys <==> k in Keywords && MentioningTitles(articles, k) != []
    ensures forall i, j :: 0 <= i < j < |treatments.keys| ==> Before(articles, treatments.keys[i], treatments.keys[j])
  {
    treatments := Empty();
    for n := 0 to |articles|
      invariant treatments.Valid()
      invariant treatments.keys == TallyKeys(articles[..n])
      invariant forall k :: k in treatments.values ==> treatments.values[k] == StatsOf(articles[..n], k)
    {
      assert articles[..n + 1] == articles[..n] + [articles[n]];
      treatments := TallyArticle(treatments, articles[n], articles[..n]);
    }
    assert articles[..|articles|] == articles;
    TallyKeysMembers(articles);
    TallyKeysOrdered(articles);
  }

  // ---------------------------------------------------------------- symptom analysis

  /** A condition key with its similarity score. */
  type Match = (string, real)

  /** Matches must score strictly above this. */
  const Threshold: real := 0.05

  /** `" ".join(words)`. */
  function JoinSpace(words: seq<string>): string {
    if words == [] then ""
    else if |words| == 1 then words[0]
    else JoinSpace(words[..|words| - 1]) + " " + words[|words| - 1]
  }

  /** The field whose absence makes `data["name"] + " " + " ".join(data["diagnostic_criteria"])` raise `KeyError`. */
  function MissingField(entry: ConditionEntry): (field: Option<string>)
    ensures field.None? <==> entry.name.Some? && entry.diagnosticCriteria.Some?
  {
    if entry.name.None? then Some("name")
    else if entry.diagnosticCriteria.None? then Some("diagnostic_criteria")
    else None
  }

  /** The text the similarity is computed against: the name, a space, then the criteria joined by spaces. */
  function CriteriaText(entry: ConditionEntry): (text: string)
    requires MissingField(entry).None?
    ensures entry.name.value <= text
  {
    entry.name.value + " " + JoinSpace(entry.diagnosticCriteria.value)
  }

  /** The field missing from the first entry that lacks one, in key order. */
  function FirstMissing(kb: KnowledgeBase, keys: seq<string>): (field: Option<string>)
    requires forall k :: k in keys ==> k in kb.values
    ensures field.None? <==> forall k :: k in keys ==> MissingField(kb.values[k]).None?
  {
    if keys == [] then None
    else
      var n := |keys| - 1;
      var before := FirstMissing(kb, keys[..n]);
      if before.Some? then before else MissingField(kb.values[keys[n]])
  }

  /** The criteria texts of the entries of `keys`, in order. */
  function CriteriaTexts(kb: KnowledgeBase, keys: seq<string>): (texts: seq<string>)
    requires forall k :: k in keys ==> k in kb.values
    requires FirstMissing(kb, keys).None?
    ensures |texts| == |keys|
    ensures forall i :: 0 <= i < |keys| ==> texts[i] == CriteriaText(kb.values[keys[i]])
  {
    if keys == [] then []
    else
      var n := |keys| - 1;
      assert keys[n] in keys;
      CriteriaTexts(kb, keys[..n]) + [CriteriaText(kb.values[keys[n]])]
  }

  /** `list(zip(conditions, similarities))`: pairs up to the shorter length. */
  function Zip(conditions: seq<string>, scores: seq<real>): (pairs: seq<Match>)
    ensures |pairs| == Min(|conditions|, |scores|)
    ensures forall i :: 0 <= i < |pairs| ==> pairs[i] == (conditions[i], scores[i])
  {
    if conditions == [] || scores == [] then []
    else [(conditions[0], scores[0])] + Zip(conditions[1..], scores[1..])
  }

  /** The pairs scoring above the threshold, in their order. */
  function AboveThreshold(pairs: seq<Match>): seq<Match> {
    if pairs == [] then []
    else
      var n := |pairs| - 1;
      AboveThreshold(pairs[..n]) + (if pairs[n].1 > Threshold then [pairs[n]] else [])
  }

  /** `key=lambda x: x[1], reverse=True`: a higher score may stand before a lower one, and ties may stand either way. */
  predicate ScoreLe(p: Match, q: Match) {
    p.1 >= q.1
  }

  /** What `analyze_symptoms` returns once the scores are known. */
  function RankedMatches(conditions: seq<string>, scores: seq<real>): seq<Match> {
    Sort(AboveThreshold(Zip(conditions, scores)), ScoreLe)
  }

  lemma ScoreLeTotal()
    ensures TotalPreorder(ScoreLe)
  {
  }

  lemma {:induction false} AboveThresholdMembers(pairs: seq<Match>)
    ensures forall p :: p in AboveThreshold(pairs) <==> p in pairs && p.1 > Threshold
  {
    if pairs != [] {
      var n := |pairs| - 1;
      AboveThresholdMembers(pairs[..n]);
      assert pairs == pairs[..n] + [pairs[n]];
    }
  }

  lemma {:induction false} AboveThresholdKeepsDistinct(pairs: seq<Match>)
    requires DistinctBy(pairs, (p: Match) => p.0)
    ensures DistinctBy(AboveThreshold(pairs), (p: Match) => p.0)
  {
    if pairs != [] {
      var n := |pairs| - 1;
      AboveThresholdKeepsDistinct(pairs[..n]);
      AboveThresholdMembers(pairs[..n]);
      var r := AboveThreshold(pairs[..n]);
      forall i | 0 <= i < |r| ensures r[i].0 != pairs[n].0 {
        assert r[i] in r;
        var k :| 0 <= k < n && pairs[..n][k] == r[i];
      }
    }
  }

  /** Every match scores above the threshold, and every condition scoring above it is a match, with its own score. */
  lemma RankedMatchesMembers(conditions: seq<string>, scores: seq<real>)
    ensures forall c, x :: (c, x) in RankedMatches(conditions, scores) <==>
      exists i :: 0 <= i < |conditions| && i < |scores| && conditions[i] == c && scores[i] == x && x > Threshold
  {
    var pairs := Zip(conditions, scores);
    SortPermutes(AboveThreshold(pairs), ScoreLe);
    AboveThresholdMembers(pairs);
    forall c, x ensures (c, x) in RankedMatches(conditions, scores) <==>
      exists i :: 0 <= i < |conditions| && i < |scores| && conditions[i] == c && scores[i] == x && x > Threshold
    {
      calc {
        (c, x) in RankedMatches(conditions, scores);
        (c, x) in multiset(RankedMatches(conditions, scores));
        (c, x) in multiset(AboveThreshold(pairs));
        (c, x) in AboveThreshold(pairs);
      }
      if (c, x) in pairs {
        var i :| 0 <= i < |pairs| && pairs[i] == (c, x);
      }
      if exists i :: 0 <= i < |conditions| && i < |scores| && conditions[i] == c && scores[i] == x {
        var i :| 0 <= i < |conditions| && i < |scores| && conditions[i] == c && scores[i] == x;
        assert pairs[i] == (c, x);
      }
    }
  }

  /** The matches come best first. */
  lemma RankedMatchesSorted(conditions: seq<string>, scores: seq<real>)
    ensures var ranked := RankedMatches(conditions, scores);
      forall i, j :: 0 <= i < j < |ranked| ==> ranked[i].1 >= ranked[j].1
  {
    ScoreLeTotal();
    SortSorted(AboveThreshold(Zip(conditions, scores)), ScoreLe);
  }

  /** Conditions with equal scores keep the order of the knowledge base. */
  lemma RankedMatchesStable(conditions: seq<string>, scores: seq<real>, z: Match)
    ensures Class(RankedMatches(conditions, scores), z, ScoreLe) == Class(AboveThreshold(Zip(conditions, scores)), z, ScoreLe)
  {
    ScoreLeTotal();
    SortStable(AboveThreshold(Zip(conditions, scores)), z, ScoreLe);
  }

  /** A condition is matched at most once. */
  lemma RankedMatchesDistinct(conditions: seq<string>, scores: seq<real>)
    requires forall i, j :: 0 <= i < j < |conditions| ==> conditions[i] != conditions[j]
    ensures var ranked := RankedMatches(conditions, scores);
      forall i, j :: 0 <= i < j < |ranked| ==> ranked[i].0 != ranked[j].0
  {
    var pairs := Zip(conditions, scores);
    assert DistinctBy(pairs, (p: Match) => p.0);
    AboveThresholdKeepsDistinct(pairs);
    SortKeepsDistinct(AboveThreshold(pairs), (p: Match) => p.0, ScoreLe);
  }

  datatype Analysis = Ranked(matches: seq<Match>) | KeyError(field: string)

  /**
   * `analyze_symptoms`. The TF-IDF vectoriser and the cosine similarity are
   * `similarity`: given the criteria texts followed by the symptoms, it returns
   * the similarity of the symptoms to each criteria text.
   */
  method AnalyzeSymptoms(kb: KnowledgeBase, symptoms: string, similarity: seq<string> -> seq<real>)
    returns (result: Analysis)
    requires kb.Valid()
    ensures FirstMissing(kb, kb.keys).Some? ==> result == KeyError(FirstMissing(kb, kb.keys).value)
    ensures FirstMissing(kb, kb.keys).None? ==>
      result == Ranked(RankedMatches(kb.keys, similarity(CriteriaTexts(kb, kb.keys) + [symptoms])))
  {
    var missing, criteriaTexts := CollectCriteria(kb);
    if missing.Some? {
      return KeyError(missing.value);
    }
    var scores := similarity(criteriaTexts + [symptoms]);
    var ranked := SortByScore(AboveThreshold(Zip(kb.keys, scores)));
    return Ranked(ranked);
  }

  /** The loop of `analyze_symptoms` over the knowledge base: the criteria text of every entry, or the first missing field. */
  method CollectCriteria(kb: KnowledgeBase) returns (missing: Option<string>, criteriaTexts: seq<string>)
    requires kb.Valid()
    ensures missing == FirstMissing(kb, kb.keys)
    ensures missing.None? ==> criteriaTexts == CriteriaTexts(kb, kb.keys)
  {
    criteriaTexts := [];
    for i := 0 to |kb.keys|
      invariant FirstMissing(kb, kb.keys[..i]).None?
      invariant criteriaTexts == CriteriaTexts(kb, kb.keys[..i])
    {
      var data := kb.values[kb.keys[i]];
      missing := MissingField(data);
      CriteriaStep(kb, i);
      if missing.Some? {
        return;
      }
      criteriaTexts := criteriaTexts + [CriteriaText(data)];
    }
    assert kb.keys[..|kb.keys|] == kb.keys;
    missing := None;
  }

  /** One entry of the loop of `analyze_symptoms`: its missing field is the first one, or its criteria text comes next. */
  lemma CriteriaStep(kb: KnowledgeBase, i: nat)
    requires kb.Valid() && i < |kb.keys| && FirstMissing(kb, kb.keys[..i]).None?
    ensures var missing := MissingField(kb.values[kb.keys[i]]);
      && (missing.Some? ==> FirstMissing(kb, kb.keys) == missing)
      && (missing.None? ==>
            && FirstMissing(kb, kb.keys[..i + 1]).None?
            && CriteriaTexts(kb, kb.keys[..i + 1]) == CriteriaTexts(kb, kb.keys[..i]) + [CriteriaText(kb.values[kb.keys[i]])])
  {
    assert kb.keys[..i + 1][..i] == kb.keys[..i];
    if MissingField(kb.values[kb.keys[i]]).Some? {
      FirstMissingPrefix(kb, kb.keys, i + 1);
    }
  }

  /** `matches.sort(key=lambda x: x[1], reverse=True)`, on an array. */
  method SortByScore(matches: seq<Match>) returns (sorted: seq<Match>)
    ensures sorted == Sort(matches, ScoreLe)
  {
    var a := new Match[|matches|](i requires 0 <= i < |matches| => matches[i]);
    assert a[..] == matches;
    InsertionSort(a, ScoreLe);
    sorted := a[..];
  }

  /** Once a prefix of the keys has an entry with a missing field, the first such entry stays the first. */
  lemma {:induction false} FirstMissingPrefix(kb: KnowledgeBase, keys: seq<string>, i: nat)
    requires forall k :: k in keys ==> k in kb.values
    requires i <= |keys| && FirstMissing(kb, keys[..i]).Some?
    ensures FirstMissing(kb, keys) == FirstMissing(kb, keys[..i])
  {
    if i < |keys| {
      var n := |keys| - 1;
      assert keys[..n][..i] == keys[..i];
      FirstMissingPrefix(kb, keys[..n], i);
    } else {
      assert keys[..i] == keys;
    }
  }
}
