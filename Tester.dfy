/**
 * The tester's session: command-line configuration held in the tester's fields, then one
 * search for a phrase — exact search, phonetic search, then, if the total after those two is
 * below `minOccur`, one exact search for every suggestion — with every search's bookmark
 * scores merged into one map,
 * which is ranked when the final count is above `minOccur`.
 */
module Tester {
  import opened Wrappers
  import opened ScoreMaps
  import opened Ranking
  import opened Suggestions
  import opened Flags
  import opened Text

  /**
   * One search against an index, an oracle: the bookmark scores it found (`None` for a
   * `null` map) and its total hit count.
   */
  type SearchCall = string -> (Option<Bookmarks>, int)

  /** `SearchOutcome`: the bookmark scores and hit count of one search. */
  datatype SearchOutcome = SearchOutcome(bookmarksByTag: Bookmarks, totalHits: int)

  /** The `SearchOutcome` constructor: a `null` map becomes the empty map. */
  function NewSearchOutcome(bookmarksByTag: Option<Bookmarks>, totalHits: int): (o: SearchOutcome)
    ensures bookmarksByTag.None? ==> o.bookmarksByTag == []
    ensures bookmarksByTag.Some? ==> o.bookmarksByTag == bookmarksByTag.value
    ensures o.totalHits == totalHits
  {
    SearchOutcome(if bookmarksByTag.Some? then bookmarksByTag.value else [], totalHits)
  }

  /** `exactWordSearch(phrase)` / `phoneticSearch(phrase)` with the index replaced by `search`. */
  function Run(search: SearchCall, phrase: string): SearchOutcome {
    NewSearchOutcome(search(phrase).0, search(phrase).1)
  }

  /** Suggestions are retried only when there are some and the running total is below `minOccur`. */
  predicate RetriesSuggestions(runningTotal: int, minOccur: int, suggestions: seq<string>) {
    |suggestions| > 0 && runningTotal < minOccur
  }

  /** An exact search for every suggestion, in order. */
  function Retried(exact: SearchCall, suggestions: seq<string>): (r: seq<SearchOutcome>)
    ensures |r| == |suggestions|
  {
    seq(|suggestions|, i requires 0 <= i < |suggestions| => Run(exact, suggestions[i]))
  }

  /** Every search of a session, in the order it runs, starting from `hits0` earlier hits. */
  function Outcomes(hits0: int, minOccur: int, phrase: string, suggestions: seq<string>,
                    exact: SearchCall, phonetic: SearchCall): seq<SearchOutcome>
  {
    var e := Run(exact, phrase);
    var p := Run(phonetic, phrase);
    [e, p] + if RetriesSuggestions(hits0 + e.totalHits + p.totalHits, minOccur, suggestions)
             then Retried(exact, suggestions) else []
  }

  /** `merge` of every outcome's map into `acc`, in order. */
  function MergeAll(acc: seq<Entry>, outcomes: seq<SearchOutcome>): seq<Entry>
    decreases |outcomes|
  {
    if outcomes == [] then acc
    else MergeInto(MergeAll(acc, outcomes[..|outcomes| - 1]), outcomes[|outcomes| - 1].bookmarksByTag)
  }

  function SumHits(outcomes: seq<SearchOutcome>): int
    decreases |outcomes|
  {
    if outcomes == [] then 0
    else SumHits(outcomes[..|outcomes| - 1]) + outcomes[|outcomes| - 1].totalHits
  }

  /** The score one tag collects over all outcomes. */
  function SumScores(outcomes: seq<SearchOutcome>, k: string): real
    decreases |outcomes|
  {
    if outcomes == [] then 0.0
    else SumScores(outcomes[..|outcomes| - 1], k) + ScoreOf(outcomes[|outcomes| - 1].bookmarksByTag, k)
  }

  /** The end of a session: the final map, the running total and whether it is significant. */
  datatype Report = Report(results: seq<Entry>, totalHits: int, significant: bool)

  /** A session over a given suggestion list, starting from `hits0` earlier hits. */
  function SessionWith(hits0: int, minOccur: int, phrase: string, suggestions: seq<string>,
                       exact: SearchCall, phonetic: SearchCall): Report
  {
    var outcomes := Outcomes(hits0, minOccur, phrase, suggestions, exact, phonetic);
    var merged := MergeAll([], outcomes);
    var total := hits0 + SumHits(outcomes);
    if total > minOccur then Report(SortDesc(merged), total, true)
    else Report(merged, total, false)
  }

  /** What the session in `main` computes, given its configuration and oracles. */
  function Session(hits0: int, config: Config, phrase: string, tokenize: string -> seq<string>,
                   spellChecker: SpellChecker, exact: SearchCall, phonetic: SearchCall): Report
    requires config.maxSuggestionCombos >= 0
  {
    var suggestions := SuggestionsFor(spellChecker, phrase, tokenize(phrase),
                                      config.spellSuggestionsPerTerm, config.maxSuggestionCombos);
    SessionWith(hits0, config.minOccur, phrase, suggestions, exact, phonetic)
  }

  // ---------------------------------------------------------------------------
  // The tester object
  // ---------------------------------------------------------------------------

  class StarWarsTester {
    var maxSearch: int
    var phraseSlop: int
    var minShouldMatch: int
    var fuzzyEdits: int
    var minOccur: int
    var rebuildSpellIndex: bool
    var spellSuggestionsPerTerm: int
    var maxSuggestionCombos: int
    var totalHits: int

    function Settings(): Config
      reads this
    {
      Config(maxSearch, phraseSlop, minShouldMatch, fuzzyEdits, minOccur,
             rebuildSpellIndex, spellSuggestionsPerTerm, maxSuggestionCombos)
    }

    /** Every setting within the bounds its flag enforces. */
    ghost predicate Valid()
      reads this
    {
      InBounds(Settings())
    }

    constructor ()
      ensures Settings() == Defaults && totalHits == 0
      ensures Valid()
    {
      maxSearch := 10;
      phraseSlop := 2;
      minShouldMatch := 1;
      fuzzyEdits := 2;
      minOccur := 20;
      rebuildSpellIndex := false;
      spellSuggestionsPerTerm := 2;
      maxSuggestionCombos := 5;
      totalHits := 0;
    }

    /** The setter lambda a flag passes to `parseInt`. */
    method SetSetting(s: Setting, v: int)
      modifies this
      ensures Settings() == Set(old(Settings()), s, v) && totalHits == old(totalHits)
    {
      match s
      case MaxSearch => maxSearch := v;
      case PhraseSlop => phraseSlop := v;
      case MinShouldMatch => minShouldMatch := v;
      case FuzzyEdits => fuzzyEdits := v;
      case MinOccur => minOccur := v;
      case SpellSuggestionsPerTerm => spellSuggestionsPerTerm := v;
      case MaxSuggestionCombos => maxSuggestionCombos := v;
    }

    /** `parseInt(value, name, setter, min, max)`: set `s` when the value parses within bounds. */
    method ParseIntFlag(value: string, s: Setting, min: int, max: int)
      modifies this
      ensures totalHits == old(totalHits)
      ensures ParseInt(value, min, max).Some? ==> Settings() == Set(old(Settings()), s, ParseInt(value, min, max).value)
      ensures ParseInt(value, min, max).None? ==> Settings() == old(Settings())
    {
      var parsed := ParseJavaInt(value);
      if parsed.Some? && !(parsed.value < min || parsed.value > max) {
        SetSetting(s, parsed.value);
      }
      // otherwise the warning is printed and the default kept
    }

    /** The flag loop at the start of `main`. */
    method ApplyArgs(args: seq<string>)
      modifies this
      ensures Settings() == ApplyFlags(old(Settings()), args) && totalHits == old(totalHits)
      ensures old(Valid()) ==> Valid()
    {
      for n := 0 to |args|
        invariant Settings() == ApplyFlags(old(Settings()), args[..n]) && totalHits == old(totalHits)
      {
        assert args[..n + 1][..n] == args[..n];
        ApplyArg(args[n]);
      }
      assert args[..|args|] == args;
    }

    /** One pass of the flag chain in `main`, in its order; unknown arguments are ignored. */
    method ApplyArg(arg: string)
      modifies this
      ensures Settings() == ApplyFlag(old(Settings()), arg) && totalHits == old(totalHits)
    {
      if IsBoostFlag(arg) {
        // float boosts are not modelled
      } else if StartsWith(arg, Prefix(MaxSearch)) {
        ParseIntFlag(arg[|Prefix(MaxSearch)|..], MaxSearch, 1, 100000);
      } else if StartsWith(arg, Prefix(PhraseSlop)) {
        ParseIntFlag(arg[|Prefix(PhraseSlop)|..], PhraseSlop, 0, 100);
      } else if StartsWith(arg, Prefix(MinShouldMatch)) {
        ParseIntFlag(arg[|Prefix(MinShouldMatch)|..], MinShouldMatch, 0, 10);
      } else if StartsWith(arg, Prefix(FuzzyEdits)) {
        ParseIntFlag(arg[|Prefix(FuzzyEdits)|..], FuzzyEdits, 0, 2);
      } else if StartsWith(arg, Prefix(MinOccur)) {
        ParseIntFlag(arg[|Prefix(MinOccur)|..], MinOccur, 0, 100000);
      } else if arg == "--rebuildSpellIndex" {
        rebuildSpellIndex := true;
      } else if StartsWith(arg, Prefix(SpellSuggestionsPerTerm)) {
        ParseIntFlag(arg[|Prefix(SpellSuggestionsPerTerm)|..], SpellSuggestionsPerTerm, 1, 10);
      } else if StartsWith(arg, Prefix(MaxSuggestionCombos)) {
        ParseIntFlag(arg[|Prefix(MaxSuggestionCombos)|..], MaxSuggestionCombos, 1, 100);
      }
    }

    /** One search step of `main`: run the search, merge its map, add its hits. */
    method SearchAndMerge(finalResults: ScoreMap, search: SearchCall, query: string) returns (outcome: SearchOutcome)
      requires finalResults.Valid()
      modifies this, finalResults
      ensures outcome == Run(search, query)
      ensures finalResults.Valid() && finalResults.entries == MergeInto(old(finalResults.entries), outcome.bookmarksByTag)
      ensures totalHits == old(totalHits) + outcome.totalHits && Settings() == old(Settings())
    {
      outcome := Run(search, query);
      Merge(finalResults, outcome.bookmarksByTag);
      totalHits := totalHits + outcome.totalHits;
    }

    /**
     * The search part of `main`: suggestions first, then the exact and the phonetic search,
     * then, if the total after those two is below `minOccur`, an exact search for every
     * suggestion; the merged map is ranked only when the total ends above `minOccur`.
     */
    method SearchPhrase(phrase: string, tokenize: string -> seq<string>, spellChecker: SpellChecker,
                        exactSearch: SearchCall, phoneticSearch: SearchCall)
      returns (finalResults: ScoreMap, significant: bool)
      requires Valid()
      modifies this
      ensures Settings() == old(Settings())
      ensures fresh(finalResults) && finalResults.Valid()
      ensures var r := Session(old(totalHits), old(Settings()), phrase, tokenize, spellChecker, exactSearch, phoneticSearch);
        finalResults.entries == r.results && totalHits == r.totalHits && significant == r.significant
    {
      var suggestions := BuildPerTermSuggestions(phrase, tokenize, spellChecker,
                                                 spellSuggestionsPerTerm, maxSuggestionCombos);
      finalResults, significant := SearchWith(phrase, suggestions, exactSearch, phoneticSearch);
    }

    /** `main` after the suggestions are built. */
    method SearchWith(phrase: string, suggestions: seq<string>, exactSearch: SearchCall, phoneticSearch: SearchCall)
      returns (finalResults: ScoreMap, significant: bool)
      modifies this
      ensures Settings() == old(Settings())
      ensures fresh(finalResults) && finalResults.Valid()
      ensures var r := SessionWith(old(totalHits), old(minOccur), phrase, suggestions, exactSearch, phoneticSearch);
        finalResults.entries == r.results && totalHits == r.totalHits && significant == r.significant
    {
      finalResults := new ScoreMap();
      var exactOutcome := SearchAndMerge(finalResults, exactSearch, phrase);
      var phoneticOutcome := SearchAndMerge(finalResults, phoneticSearch, phrase);

      ghost var first := [exactOutcome, phoneticOutcome];
      assert first[..1] == [exactOutcome] && [exactOutcome][..0] == [];
      assert MergeAll([], [exactOutcome]) == MergeInto([], exactOutcome.bookmarksByTag);
      assert SumHits([exactOutcome]) == exactOutcome.totalHits;
      assert MergeAll([], first) == MergeInto(MergeInto([], exactOutcome.bookmarksByTag), phoneticOutcome.bookmarksByTag);
      assert SumHits(first) == exactOutcome.totalHits + phoneticOutcome.totalHits;
      ghost var retried: seq<SearchOutcome> := [];
      if |suggestions| > 0 && totalHits < minOccur {
        retried := RetrySuggestions(finalResults, exactSearch, suggestions);
      }
      MergeAllAppend([], first, retried);
      SumHitsAppend(first, retried);
      assert first + retried == Outcomes(old(totalHits), minOccur, phrase, suggestions, exactSearch, phoneticSearch);

      significant := totalHits > minOccur;
      if significant {
        finalResults := SortByValue(finalResults);
      }
    }

    /** The retry loop of `main`: one exact search per suggestion, each merged in turn. */
    method RetrySuggestions(finalResults: ScoreMap, exactSearch: SearchCall, suggestions: seq<string>)
      returns (ghost outcomes: seq<SearchOutcome>)
      requires finalResults.Valid()
      modifies this, finalResults
      ensures outcomes == Retried(exactSearch, suggestions)
      ensures finalResults.Valid() && finalResults.entries == MergeAll(old(finalResults.entries), outcomes)
      ensures totalHits == old(totalHits) + SumHits(outcomes) && Settings() == old(Settings())
    {
      outcomes := [];
      for i := 0 to |suggestions|
        invariant finalResults.Valid()
        invariant outcomes == Retried(exactSearch, suggestions[..i])
        invariant finalResults.entries == MergeAll(old(finalResults.entries), outcomes)
        invariant totalHits == old(totalHits) + SumHits(outcomes) && Settings() == old(Settings())
      {
        var suggestionOutcome := SearchAndMerge(finalResults, exactSearch, suggestions[i]);
        assert Retried(exactSearch, suggestions[..i + 1]) == outcomes + [suggestionOutcome];
        ghost var next := outcomes + [suggestionOutcome];
        assert next[..|outcomes|] == outcomes;
        outcomes := next;
      }
      assert suggestions[..|suggestions|] == suggestions;
    }
  }

  // ---------------------------------------------------------------------------
  // What a session promises
  // ---------------------------------------------------------------------------

  /** Merging two runs of outcomes one after the other is merging them all. */
  lemma {:induction false} MergeAllAppend(acc: seq<Entry>, xs: seq<SearchOutcome>, ys: seq<SearchOutcome>)
    ensures MergeAll(acc, xs + ys) == MergeAll(MergeAll(acc, xs), ys)
    decreases |ys|
  {
    if ys == [] {
      assert xs + ys == xs;
    } else {
      var ys' := ys[..|ys| - 1];
      assert (xs + ys)[..|xs + ys| - 1] == xs + ys';
      MergeAllAppend(acc, xs, ys');
    }
  }

  lemma {:induction false} SumHitsAppend(xs: seq<SearchOutcome>, ys: seq<SearchOutcome>)
    ensures SumHits(xs + ys) == SumHits(xs) + SumHits(ys)
    decreases |ys|
  {
    if ys == [] {
      assert xs + ys == xs;
    } else {
      var ys' := ys[..|ys| - 1];
      assert (xs + ys)[..|xs + ys| - 1] == xs + ys';
      SumHitsAppend(xs, ys');
    }
  }

  lemma {:induction false} MergeAllDistinct(acc: seq<Entry>, outcomes: seq<SearchOutcome>)
    requires DistinctKeys(acc)
    ensures DistinctKeys(MergeAll(acc, outcomes))
    decreases |outcomes|
  {
    if outcomes != [] {
      MergeAllDistinct(acc, outcomes[..|outcomes| - 1]);
      MergeKeepsDistinct(MergeAll(acc, outcomes[..|outcomes| - 1]), outcomes[|outcomes| - 1].bookmarksByTag);
    }
  }

  /** Every tag's merged score is the sum of the scores the searches gave it. */
  lemma {:induction false} MergeAllScores(acc: seq<Entry>, outcomes: seq<SearchOutcome>, k: string)
    requires DistinctKeys(acc)
    ensures ScoreOf(MergeAll(acc, outcomes), k) == ScoreOf(acc, k) + SumScores(outcomes, k)
    ensures HasKey(MergeAll(acc, outcomes), k) <==>
            HasKey(acc, k) || exists i :: 0 <= i < |outcomes| && HasKey(outcomes[i].bookmarksByTag, k)
    decreases |outcomes|
  {
    if outcomes != [] {
      var init, last := outcomes[..|outcomes| - 1], outcomes[|outcomes| - 1];
      MergeAllScores(acc, init, k);
      MergeAllDistinct(acc, init);
      MergeScores(MergeAll(acc, init), last.bookmarksByTag, k);
      if exists i :: 0 <= i < |outcomes| && HasKey(outcomes[i].bookmarksByTag, k) {
        var i :| 0 <= i < |outcomes| && HasKey(outcomes[i].bookmarksByTag, k);
        if i < |init| {
          assert init[i] == outcomes[i];
        }
      }
      if exists i :: 0 <= i < |init| && HasKey(init[i].bookmarksByTag, k) {
        var i :| 0 <= i < |init| && HasKey(init[i].bookmarksByTag, k);
        assert outcomes[i] == init[i];
      }
    }
  }

  /**
   * The final report of a session: a map (distinct tags) whose every tag carries the sum of
   * the scores the searches gave it; ranked by descending score, as a permutation of the
   * merged map, exactly when the total is above `minOccur`; otherwise the merged map as is.
   */
  lemma SessionReport(hits0: int, config: Config, phrase: string, tokenize: string -> seq<string>,
                      spellChecker: SpellChecker, exact: SearchCall, phonetic: SearchCall)
    requires config.maxSuggestionCombos >= 0
    ensures var r := Session(hits0, config, phrase, tokenize, spellChecker, exact, phonetic);
      var suggestions := SuggestionsFor(spellChecker, phrase, tokenize(phrase),
                                        config.spellSuggestionsPerTerm, config.maxSuggestionCombos);
      var outcomes := Outcomes(hits0, config.minOccur, phrase, suggestions, exact, phonetic);
      var merged := MergeAll([], outcomes);
      && DistinctKeys(r.results)
      && (forall k :: ScoreOf(merged, k) == SumScores(outcomes, k))
      && r.totalHits == hits0 + SumHits(outcomes)
      && (r.significant <==> r.totalHits > config.minOccur)
      && (r.significant ==> SortedDesc(r.results) && multiset(r.results) == multiset(merged))
      && (!r.significant ==> r.results == merged)
  {
    var suggestions := SuggestionsFor(spellChecker, phrase, tokenize(phrase),
                                      config.spellSuggestionsPerTerm, config.maxSuggestionCombos);
    var outcomes := Outcomes(hits0, config.minOccur, phrase, suggestions, exact, phonetic);
    var merged := MergeAll([], outcomes);
    MergeAllDistinct([], outcomes);
    SortDescKeepsDistinct(merged);
    SortDescIsSortedPermutation(merged);
    forall k ensures ScoreOf(merged, k) == SumScores(outcomes, k) {
      MergeAllScores([], outcomes, k);
    }
  }

  /**
   * The searches a session runs: the exact and the phonetic search of the phrase, then,
   * only when there are suggestions and the running total is below `minOccur`, one exact
   * search per suggestion in order.
   */
  lemma SessionSearches(hits0: int, minOccur: int, phrase: string, suggestions: seq<string>,
                        exact: SearchCall, phonetic: SearchCall)
    ensures var outcomes := Outcomes(hits0, minOccur, phrase, suggestions, exact, phonetic);
      var running := hits0 + Run(exact, phrase).totalHits + Run(phonetic, phrase).totalHits;
      && outcomes[..2] == [Run(exact, phrase), Run(phonetic, phrase)]
      && (|suggestions| == 0 || running >= minOccur ==> |outcomes| == 2)
      && (|suggestions| > 0 && running < minOccur ==>
            |outcomes| == 2 + |suggestions|
            && forall i :: 0 <= i < |suggestions| ==> outcomes[2 + i] == Run(exact, suggestions[i]))
  {
  }

  /**
   * A running total of exactly `minOccur` after the first two searches triggers no
   * suggestion retries and is still not significant.
   */
  lemma ThresholdGap(hits0: int, config: Config, phrase: string, tokenize: string -> seq<string>,
                     spellChecker: SpellChecker, exact: SearchCall, phonetic: SearchCall)
    requires config.maxSuggestionCombos >= 0
    requires hits0 + Run(exact, phrase).totalHits + Run(phonetic, phrase).totalHits == config.minOccur
    ensures var r := Session(hits0, config, phrase, tokenize, spellChecker, exact, phonetic);
      !r.significant && r.totalHits == config.minOccur
  {
    var outcomes := Outcomes(hits0, config.minOccur, phrase,
                             SuggestionsFor(spellChecker, phrase, tokenize(phrase),
                                            config.spellSuggestionsPerTerm, config.maxSuggestionCombos),
                             exact, phonetic);
    var e, p := Run(exact, phrase), Run(phonetic, phrase);
    assert outcomes == [e, p];
    assert outcomes[..1] == [e] && [e][..0] == [];
    assert SumHits([e]) == e.totalHits;
    assert SumHits(outcomes) == e.totalHits + p.totalHits;
  }

  lemma {:induction false} SumHitsNonNegative(outcomes: seq<SearchOutcome>)
    requires forall i :: 0 <= i < |outcomes| ==> outcomes[i].totalHits >= 0
    ensures SumHits(outcomes) >= 0
    decreases |outcomes|
  {
    if outcomes != [] {
      SumHitsNonNegative(outcomes[..|outcomes| - 1]);
    }
  }

  /** Searches that never report negative hit counts give outcomes with non-negative counts. */
  lemma OutcomesHitsNonNegative(hits0: int, minOccur: int, phrase: string, suggestions: seq<string>,
                                exact: SearchCall, phonetic: SearchCall)
    requires forall q :: exact(q).1 >= 0
    requires forall q :: phonetic(q).1 >= 0
    ensures var outcomes := Outcomes(hits0, minOccur, phrase, suggestions, exact, phonetic);
      forall i :: 0 <= i < |outcomes| ==> outcomes[i].totalHits >= 0
  {
    var outcomes := Outcomes(hits0, minOccur, phrase, suggestions, exact, phonetic);
    forall i | 0 <= i < |outcomes| ensures outcomes[i].totalHits >= 0 {
      if i >= 2 {
        assert outcomes[i] == Run(exact, suggestions[i - 2]);
      }
    }
  }

  /** With searches that never report negative hit counts, the running total never drops. */
  lemma TotalNeverDrops(hits0: int, config: Config, phrase: string, tokenize: string -> seq<string>,
                        spellChecker: SpellChecker, exact: SearchCall, phonetic: SearchCall)
    requires config.maxSuggestionCombos >= 0
    requires forall q :: exact(q).1 >= 0
    requires forall q :: phonetic(q).1 >= 0
    ensures Session(hits0, config, phrase, tokenize, spellChecker, exact, phonetic).totalHits >= hits0
  {
    var suggestions := SuggestionsFor(spellChecker, phrase, tokenize(phrase),
                                      config.spellSuggestionsPerTerm, config.maxSuggestionCombos);
    OutcomesHitsNonNegative(hits0, config.minOccur, phrase, suggestions, exact, phonetic);
    SumHitsNonNegative(Outcomes(hits0, config.minOccur, phrase, suggestions, exact, phonetic));
  }
}
