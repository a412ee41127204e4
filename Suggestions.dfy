/**
 * Spelling suggestions for a phrase (`buildPerTermSuggestions`): per-term options from the
 * spelling dictionary, their capped left-to-right combination into phrases, the concatenated
 * and hyphenated whole-phrase variants, then an order-keeping de-duplication, the removal of
 * the phrase itself and a final cap.
 */
module Suggestions {
  import opened Text

  /**
   * The spelling dictionary, an oracle: `exist(w)` says whether `w` is a dictionary word and
   * `suggestSimilar(w, n)` lists its suggestions. A `null` suggestion array is the empty list:
   * both places that read it treat the two alike.
   */
  datatype SpellChecker = SpellChecker(exist: string -> bool, suggestSimilar: (string, int) -> seq<string>)

  /** `s` cut to at most `n` entries (`subList(0, n)` when it is longer). */
  function Take<T>(s: seq<T>, n: nat): (r: seq<T>)
    ensures |r| == if |s| <= n then |s| else n
    ensures r <= s
  {
    if |s| <= n then s else s[..n]
  }

  // ---------------------------------------------------------------------------
  // Per-term options
  // ---------------------------------------------------------------------------

  /** The spellings tried for one term: itself if known, else its suggestions, else itself. */
  function OptionsFor(sc: SpellChecker, term: string, perTerm: int): (opts: seq<string>)
    ensures |opts| > 0
    ensures opts == [term] || (!sc.exist(term) && opts == sc.suggestSimilar(term, perTerm))
    ensures sc.exist(term) ==> opts == [term]
    ensures !sc.exist(term) && |sc.suggestSimilar(term, perTerm)| > 0 ==> opts == sc.suggestSimilar(term, perTerm)
    ensures !sc.exist(term) && |sc.suggestSimilar(term, perTerm)| == 0 ==> opts == [term]
  {
    if sc.exist(term) then [term]
    else
      var sugg := sc.suggestSimilar(term, perTerm);
      if |sugg| > 0 then sugg else [term]
  }

  function PerTermOptions(sc: SpellChecker, terms: seq<string>, perTerm: int): (r: seq<seq<string>>)
    ensures |r| == |terms|
  {
    seq(|terms|, i requires 0 <= i < |terms| => OptionsFor(sc, terms[i], perTerm))
  }

  // ---------------------------------------------------------------------------
  // Capped combination
  // ---------------------------------------------------------------------------

  /** `prefix + sep + opt`, where the separator is dropped after an empty prefix. */
  function Join(prefix: string, opt: string): string {
    prefix + (if prefix == "" then "" else " ") + opt
  }

  /** One prefix extended by every option, in option order. */
  function Row(prefix: string, opts: seq<string>): (r: seq<string>)
    ensures |r| == |opts|
  {
    seq(|opts|, j requires 0 <= j < |opts| => Join(prefix, opts[j]))
  }

  /** Every prefix extended by every option: prefixes outer, options inner. */
  function Product(prefixes: seq<string>, opts: seq<string>): seq<string>
    decreases |prefixes|
  {
    if prefixes == [] then []
    else Product(prefixes[..|prefixes| - 1], opts) + Row(prefixes[|prefixes| - 1], opts)
  }

  /** The full, uncapped left-to-right cross product of the option lists. */
  function CrossProduct(options: seq<seq<string>>): seq<string>
    decreases |options|
  {
    if options == [] then [""]
    else Product(CrossProduct(options[..|options| - 1]), options[|options| - 1])
  }

  /** The number of combinations: the product of the option counts. */
  function CountCombinations(options: seq<seq<string>>): nat
    decreases |options|
  {
    if options == [] then 1
    else CountCombinations(options[..|options| - 1]) * |options[|options| - 1]|
  }

  lemma {:induction false} ProductLength(prefixes: seq<string>, opts: seq<string>)
    ensures |Product(prefixes, opts)| == |prefixes| * |opts|
    decreases |prefixes|
  {
    if prefixes != [] {
      var init := prefixes[..|prefixes| - 1];
      ProductLength(init, opts);
      assert |Row(prefixes[|prefixes| - 1], opts)| == |opts|;
      assert |prefixes| * |opts| == |init| * |opts| + |opts|;
    }
  }

  /** The products of a prefix of the prefixes are prefixes of the product. */
  lemma {:induction false} ProductPrefix(prefixes: seq<string>, n: nat, opts: seq<string>)
    requires n <= |prefixes|
    ensures Product(prefixes[..n], opts) <= Product(prefixes, opts)
    decreases |prefixes|
  {
    if n < |prefixes| {
      var init := prefixes[..|prefixes| - 1];
      assert init[..n] == prefixes[..n];
      ProductPrefix(init, n, opts);
    } else {
      assert prefixes[..n] == prefixes;
    }
  }

  /** With at least one option, each prefix contributes at least one entry. */
  lemma {:induction false} ProductAtLeast(prefixes: seq<string>, opts: seq<string>)
    requires |opts| > 0
    ensures |Product(prefixes, opts)| >= |prefixes|
    decreases |prefixes|
  {
    if prefixes != [] {
      ProductAtLeast(prefixes[..|prefixes| - 1], opts);
    }
  }

  /** Capping the prefixes before extending them does not change the capped result. */
  lemma ExpandAfterCap(prefixes: seq<string>, opts: seq<string>, cap: nat)
    ensures Take(Product(Take(prefixes, cap), opts), cap) == Take(Product(prefixes, opts), cap)
  {
    if |prefixes| > cap {
      ProductPrefix(prefixes, cap, opts);
      if |opts| > 0 {
        ProductAtLeast(prefixes[..cap], opts);
      } else {
        ProductLength(prefixes, opts);
        ProductLength(prefixes[..cap], opts);
      }
    }
  }

  /**
   * The inner two loops of the combination step: extend every prefix by every option, in
   * order, and stop as soon as `maxCombos` candidates are collected.
   */
  method Expand(combined: seq<string>, opts: seq<string>, maxCombos: nat) returns (next: seq<string>)
    ensures next == Take(Product(combined, opts), maxCombos)
  {
    next := [];
    var p := 0;
    while p < |combined|
      invariant 0 <= p <= |combined|
      invariant next == Product(combined[..p], opts)
      invariant |next| <= maxCombos
    {
      var q := 0;
      while q < |opts|
        invariant 0 <= q <= |opts|
        invariant next == Product(combined[..p], opts) + Row(combined[p], opts)[..q]
        invariant |next| <= maxCombos
      {
        if |next| >= maxCombos {
          break;
        }
        next := next + [Join(combined[p], opts[q])];
        assert Row(combined[p], opts)[..q + 1] == Row(combined[p], opts)[..q] + [Join(combined[p], opts[q])];
        q := q + 1;
      }
      assert combined[..p + 1][..p] == combined[..p];
      assert Product(combined[..p + 1], opts) == Product(combined[..p], opts) + Row(combined[p], opts);
      if |next| >= maxCombos {
        ProductPrefix(combined, p + 1, opts);
        assert next <= Product(combined, opts);
        break;
      }
      assert Row(combined[p], opts)[..q] == Row(combined[p], opts);
      p := p + 1;
    }
    assert p == |combined| ==> combined[..p] == combined;
  }

  /** Once the capped combination is empty, every later one is empty too. */
  lemma {:induction false} EmptyCombinationStaysEmpty(options: seq<seq<string>>, t: nat, cap: nat)
    requires t <= |options| && Take(CrossProduct(options[..t]), cap) == []
    ensures Take(CrossProduct(options), cap) == []
    decreases |options| - t
  {
    if t < |options| {
      var o := options[..t + 1];
      assert o[..t] == options[..t];
      ExpandAfterCap(CrossProduct(options[..t]), options[t], cap);
      EmptyCombinationStaysEmpty(options, t + 1, cap);
    } else {
      assert options[..t] == options;
    }
  }

  /**
   * The combination loop: starting from the single empty prefix, extend by each term's
   * options in turn, keeping at most `maxCombos` candidates at every step.
   */
  method CombineCapped(perTermOptions: seq<seq<string>>, maxCombos: nat) returns (combined: seq<string>)
    ensures perTermOptions == [] ==> combined == [""]
    ensures perTermOptions != [] ==> combined == Take(CrossProduct(perTermOptions), maxCombos)
  {
    combined := [""];
    var t := 0;
    while t < |perTermOptions|
      invariant 0 <= t <= |perTermOptions|
      invariant t == 0 ==> combined == [""]
      invariant t > 0 ==> combined == Take(CrossProduct(perTermOptions[..t]), maxCombos)
    {
      var next := Expand(combined, perTermOptions[t], maxCombos);
      assert perTermOptions[..t + 1][..t] == perTermOptions[..t];
      if t > 0 {
        ExpandAfterCap(CrossProduct(perTermOptions[..t]), perTermOptions[t], maxCombos);
      }
      combined := next;
      t := t + 1;
      if combined == [] {
        EmptyCombinationStaysEmpty(perTermOptions, t, maxCombos);
        break;
      }
    }
    assert perTermOptions[..|perTermOptions|] == perTermOptions;
  }

  // ---------------------------------------------------------------------------
  // What the combinations are
  // ---------------------------------------------------------------------------

  /** `c` picks one option for every term. */
  predicate IsChoice(c: seq<string>, options: seq<seq<string>>) {
    |c| == |options| && forall i :: 0 <= i < |c| ==> c[i] in options[i]
  }

  /** No option is the empty string (the analyzer and the dictionary yield only words). */
  predicate NonEmptyOptions(options: seq<seq<string>>) {
    forall i, j :: 0 <= i < |options| && 0 <= j < |options[i]| ==> options[i][j] != ""
  }

  lemma ProductMember(prefixes: seq<string>, opts: seq<string>, r: string)
    requires r in Product(prefixes, opts)
    ensures exists p, x :: p in prefixes && x in opts && r == Join(p, x)
    decreases |prefixes|
  {
    var init := prefixes[..|prefixes| - 1];
    var last := prefixes[|prefixes| - 1];
    if r in Product(init, opts) {
      ProductMember(init, opts, r);
      var p, x :| p in init && x in opts && r == Join(p, x);
      assert p in prefixes;
    } else {
      assert r in Row(last, opts);
      var j :| 0 <= j < |opts| && Row(last, opts)[j] == r;
      assert opts[j] in opts && last in prefixes;
    }
  }

  lemma ProductHas(prefixes: seq<string>, opts: seq<string>, p: string, x: string)
    requires p in prefixes && x in opts
    ensures Join(p, x) in Product(prefixes, opts)
    decreases |prefixes|
  {
    var init := prefixes[..|prefixes| - 1];
    var last := prefixes[|prefixes| - 1];
    if p in init {
      ProductHas(init, opts, p, x);
    } else {
      var j :| 0 <= j < |opts| && opts[j] == x;
      assert Row(last, opts)[j] == Join(p, x);
    }
  }

  /** Joining a non-empty word onto a choice adds one space, or none to an empty choice. */
  lemma JoinChoice(c: seq<string>, x: string)
    requires forall i :: 0 <= i < |c| ==> c[i] != ""
    ensures Join(JoinWith(" ", c), x) == JoinWith(" ", c + [x])
  {
    var cx := c + [x];
    assert cx[..|cx| - 1] == c;
    if c != [] {
      assert JoinWith(" ", c) != "" by {
        if |c| > 1 {
          assert |JoinWith(" ", c)| >= |c[|c| - 1]| > 0;
        }
      }
    }
  }

  /** Every option picked by a choice is a non-empty word. */
  lemma ChoiceWords(c: seq<string>, options: seq<seq<string>>)
    requires NonEmptyOptions(options) && IsChoice(c, options)
    ensures forall i :: 0 <= i < |c| ==> c[i] != ""
  {
    forall i | 0 <= i < |c| ensures c[i] != "" {
      var j :| 0 <= j < |options[i]| && options[i][j] == c[i];
    }
  }

  lemma NonEmptyInit(options: seq<seq<string>>)
    requires NonEmptyOptions(options) && options != []
    ensures NonEmptyOptions(options[..|options| - 1])
  {
  }

  /** A choice for all but the last term, plus an option of the last term, is a choice. */
  lemma ChoiceSnoc(c: seq<string>, options: seq<seq<string>>, x: string)
    requires options != [] && IsChoice(c, options[..|options| - 1]) && x in options[|options| - 1]
    ensures IsChoice(c + [x], options)
  {
  }

  /** Each combination spells a choice. */
  lemma {:induction false} CrossProductChoice(options: seq<seq<string>>, r: string)
    requires NonEmptyOptions(options) && r in CrossProduct(options)
    ensures exists c :: IsChoice(c, options) && r == JoinWith(" ", c)
    decreases |options|
  {
    if options == [] {
      assert IsChoice([], options) && r == JoinWith(" ", []);
    } else {
      var init, o := options[..|options| - 1], options[|options| - 1];
      NonEmptyInit(options);
      assert CrossProduct(options) == Product(CrossProduct(init), o);
      ProductMember(CrossProduct(init), o, r);
      var p, x :| p in CrossProduct(init) && x in o && r == Join(p, x);
      CrossProductChoice(init, p);
      var c :| IsChoice(c, init) && p == JoinWith(" ", c);
      ChoiceWords(c, init);
      JoinChoice(c, x);
      ChoiceSnoc(c, options, x);
    }
  }

  /** Each choice is spelled by a combination. */
  lemma {:induction false} ChoiceInCrossProduct(options: seq<seq<string>>, c: seq<string>)
    requires NonEmptyOptions(options) && IsChoice(c, options)
    ensures JoinWith(" ", c) in CrossProduct(options)
    decreases |options|
  {
    if options != [] {
      var init, o := options[..|options| - 1], options[|options| - 1];
      NonEmptyInit(options);
      var c', x := c[..|c| - 1], c[|c| - 1];
      assert c == c' + [x];
      assert IsChoice(c', init);
      ChoiceInCrossProduct(init, c');
      ChoiceWords(c', init);
      JoinChoice(c', x);
      ProductHas(CrossProduct(init), o, JoinWith(" ", c'), x);
    }
  }

  /**
   * The cross product holds exactly the phrases that pick one option per term, in term
   * order, joined by single spaces.
   */
  lemma CrossProductIsChoices(options: seq<seq<string>>, r: string)
    requires NonEmptyOptions(options)
    ensures r in CrossProduct(options) <==> exists c :: IsChoice(c, options) && r == JoinWith(" ", c)
  {
    if r in CrossProduct(options) {
      CrossProductChoice(options, r);
    }
    if exists c :: IsChoice(c, options) && r == JoinWith(" ", c) {
      var c :| IsChoice(c, options) && r == JoinWith(" ", c);
      ChoiceInCrossProduct(options, c);
    }
  }

  /** There are as many combinations as the product of the option counts. */
  lemma {:induction false} CrossProductLength(options: seq<seq<string>>)
    ensures |CrossProduct(options)| == CountCombinations(options)
    decreases |options|
  {
    if options != [] {
      CrossProductLength(options[..|options| - 1]);
      ProductLength(CrossProduct(options[..|options| - 1]), options[|options| - 1]);
    }
  }

  // ---------------------------------------------------------------------------
  // De-duplication and the final list
  // ---------------------------------------------------------------------------

  predicate NoDuplicates(s: seq<string>) {
    forall i, j :: 0 <= i < j < |s| ==> s[i] != s[j]
  }

  /** `new LinkedHashSet<>(s)`: each value once, at its first occurrence. */
  function Distinct(s: seq<string>): seq<string>
    decreases |s|
  {
    if s == [] then []
    else
      var r := Distinct(s[..|s| - 1]);
      if s[|s| - 1] in r then r else r + [s[|s| - 1]]
  }

  /** `remove(x)`: every occurrence of `x` dropped, order kept. */
  function Without(s: seq<string>, x: string): (r: seq<string>)
    ensures forall y :: y in r <==> y in s && y != x
    decreases |s|
  {
    if s == [] then []
    else
      var r := Without(s[..|s| - 1], x);
      assert forall y :: y in s <==> y in s[..|s| - 1] || y == s[|s| - 1];
      if s[|s| - 1] == x then r else r + [s[|s| - 1]]
  }

  /** The position of the first occurrence of `x` in `s`. */
  function FirstIndex(s: seq<string>, x: string): (i: nat)
    requires x in s
    ensures i < |s| && s[i] == x && x !in s[..i]
  {
    if s[0] == x then 0
    else
      assert s == [s[0]] + s[1..];
      var j := FirstIndex(s[1..], x);
      assert s[..j + 1] == [s[0]] + s[1..][..j];
      j + 1
  }

  /** `r` lists values of `s` in the order of their first occurrences in `s`. */
  predicate InFirstOccurrenceOrder(r: seq<string>, s: seq<string>) {
    (forall i :: 0 <= i < |r| ==> r[i] in s)
    && forall i, j :: 0 <= i < j < |r| && r[i] in s && r[j] in s ==> FirstIndex(s, r[i]) < FirstIndex(s, r[j])
  }

  lemma FirstIndexPrefix(s: seq<string>, t: seq<string>, x: string)
    requires x in s
    ensures x in s + t && FirstIndex(s + t, x) == FirstIndex(s, x)
  {
    var i := FirstIndex(s, x);
    assert (s + t)[i] == x;
    assert (s + t)[..i] == s[..i];
  }

  /** `Distinct(s)` holds exactly the values of `s`. */
  lemma {:induction false} DistinctMembers(s: seq<string>)
    ensures forall y :: y in Distinct(s) <==> y in s
    decreases |s|
  {
    if s != [] {
      var s' := s[..|s| - 1];
      assert s == s' + [s[|s| - 1]];
      DistinctMembers(s');
    }
  }

  /** `Distinct(s)` holds no value twice. */
  lemma {:induction false} DistinctNoDuplicates(s: seq<string>)
    ensures NoDuplicates(Distinct(s))
    decreases |s|
  {
    if s != [] {
      DistinctNoDuplicates(s[..|s| - 1]);
    }
  }

  /** `Distinct(s)` lists its values in the order of their first occurrence in `s`. */
  lemma {:induction false} DistinctOrder(s: seq<string>)
    ensures InFirstOccurrenceOrder(Distinct(s), s)
    decreases |s|
  {
    if s != [] {
      var s', x := s[..|s| - 1], s[|s| - 1];
      assert s == s' + [x];
      DistinctOrder(s');
      DistinctMembers(s');
      var r' := Distinct(s');
      forall y | y in s' ensures y in s && FirstIndex(s, y) == FirstIndex(s', y) {
        FirstIndexPrefix(s', [x], y);
      }
      if x !in r' {
        var r := r' + [x];
        assert x !in s[..|s'|];
        assert FirstIndex(s, x) == |s'|;
        forall i, j | 0 <= i < j < |r| && r[i] in s && r[j] in s ensures FirstIndex(s, r[i]) < FirstIndex(s, r[j]) {
          if j < |r'| {
            assert r[i] == r'[i] && r[j] == r'[j];
          } else {
            assert r[i] == r'[i];
          }
        }
      }
    }
  }

  /** Dropping values keeps distinctness and first-occurrence order. */
  lemma {:induction false} WithoutKeepsOrder(r: seq<string>, x: string, s: seq<string>)
    requires NoDuplicates(r) && InFirstOccurrenceOrder(r, s)
    ensures NoDuplicates(Without(r, x)) && InFirstOccurrenceOrder(Without(r, x), s)
    decreases |r|
  {
    if r != [] {
      var r', y := r[..|r| - 1], r[|r| - 1];
      assert NoDuplicates(r') && InFirstOccurrenceOrder(r', s);
      WithoutKeepsOrder(r', x, s);
      if y != x {
        var w := Without(r', x) + [y];
        forall i | 0 <= i < |w| - 1 ensures w[i] != y && FirstIndex(s, w[i]) < FirstIndex(s, y) {
          assert w[i] in r';
          var k :| 0 <= k < |r'| && r'[k] == w[i];
        }
      }
    }
  }

  // ---------------------------------------------------------------------------
  // The whole computation
  // ---------------------------------------------------------------------------

  /**
   * What a whole-phrase variant contributes: nothing when it equals the phrase up to
   * letter case, itself when it is a dictionary word, otherwise its suggestions.
   */
  function VariantOptions(sc: SpellChecker, variant: string, phrase: string, perTerm: int): seq<string> {
    if EqualsIgnoreCase(variant, phrase) then []
    else if sc.exist(variant) then [variant]
    else sc.suggestSimilar(variant, perTerm)
  }

  /** Every candidate, before de-duplication: capped combinations, then the two variants. */
  function Candidates(sc: SpellChecker, phrase: string, terms: seq<string>, perTerm: int, maxCombos: nat): seq<string>
    requires terms != []
  {
    Take(CrossProduct(PerTermOptions(sc, terms, perTerm)), maxCombos)
      + VariantOptions(sc, JoinWith("", terms), phrase, perTerm)
      + VariantOptions(sc, JoinWith("-", terms), phrase, perTerm)
  }

  /** The suggestion list for `phrase` whose analyzed terms are `terms`. */
  function SuggestionsFor(sc: SpellChecker, phrase: string, terms: seq<string>, perTerm: int, maxCombos: nat): seq<string> {
    if terms == [] then []
    else Take(Without(Distinct(Candidates(sc, phrase, terms, perTerm, maxCombos)), phrase), maxCombos)
  }

  /**
   * The promises of the suggestion list: no duplicates, never the phrase itself (exact
   * comparison), at most `maxCombos` entries, only candidates, in first-occurrence order;
   * and nothing at all when the phrase has no terms.
   */
  lemma SuggestionsBounds(sc: SpellChecker, phrase: string, terms: seq<string>, perTerm: int, maxCombos: nat)
    ensures var out := SuggestionsFor(sc, phrase, terms, perTerm, maxCombos);
      && NoDuplicates(out)
      && phrase !in out
      && |out| <= maxCombos
      && (terms == [] ==> out == [])
      && (terms != [] ==> InFirstOccurrenceOrder(out, Candidates(sc, phrase, terms, perTerm, maxCombos)))
  {
    if terms != [] {
      var cands := Candidates(sc, phrase, terms, perTerm, maxCombos);
      DistinctMembers(cands);
      DistinctNoDuplicates(cands);
      DistinctOrder(cands);
      WithoutKeepsOrder(Distinct(cands), phrase, cands);
      var w := Without(Distinct(cands), phrase);
      var out := Take(w, maxCombos);
      assert out == w[..|out|];
      assert forall i :: 0 <= i < |out| ==> out[i] == w[i];
    }
  }

  /** The per-term loop: one option list per term, in term order. */
  method CollectOptions(spellChecker: SpellChecker, terms: seq<string>, perTerm: int)
    returns (perTermOptions: seq<seq<string>>)
    ensures perTermOptions == PerTermOptions(spellChecker, terms, perTerm)
  {
    perTermOptions := [];
    for i := 0 to |terms|
      invariant |perTermOptions| == i
      invariant forall j :: 0 <= j < i ==> perTermOptions[j] == OptionsFor(spellChecker, terms[j], perTerm)
    {
      var options: seq<string> := [];
      if spellChecker.exist(terms[i]) {
        options := options + [terms[i]];
      } else {
        var sugg := spellChecker.suggestSimilar(terms[i], perTerm);
        if |sugg| > 0 {
          options := options + sugg;
        } else {
          options := options + [terms[i]];  // fall back to the original token
        }
      }
      perTermOptions := perTermOptions + [options];
    }
  }

  /** One whole-phrase variant: skipped when it is the phrase up to case, else itself or its suggestions. */
  method AddVariant(combined: seq<string>, spellChecker: SpellChecker, variant: string, phrase: string, perTerm: int)
    returns (extended: seq<string>)
    ensures extended == combined + VariantOptions(spellChecker, variant, phrase, perTerm)
  {
    extended := combined;
    if !EqualsIgnoreCase(variant, phrase) {
      if spellChecker.exist(variant) {
        extended := extended + [variant];
      } else {
        extended := extended + spellChecker.suggestSimilar(variant, perTerm);
      }
    }
  }

  /**
   * `buildPerTermSuggestions(phrase, spellChecker, analyzer, perTerm, maxCombos)`; the
   * analyzer is the tokenizer oracle `tokenize`.
   */
  method BuildPerTermSuggestions(phrase: string, tokenize: string -> seq<string>, spellChecker: SpellChecker,
                                 perTerm: int, maxCombos: nat) returns (out: seq<string>)
    ensures out == SuggestionsFor(spellChecker, phrase, tokenize(phrase), perTerm, maxCombos)
    ensures NoDuplicates(out) && phrase !in out && |out| <= maxCombos
  {
    var terms := tokenize(phrase);
    SuggestionsBounds(spellChecker, phrase, terms, perTerm, maxCombos);
    if terms == [] {
      return [];
    }

    var perTermOptions := CollectOptions(spellChecker, terms, perTerm);
    var combined := CombineCapped(perTermOptions, maxCombos);

    // the concatenated and hyphenated forms of the whole phrase
    var joined := JoinWith("", terms);
    var hyphenated := JoinWith("-", terms);
    combined := AddVariant(combined, spellChecker, joined, phrase, perTerm);
    combined := AddVariant(combined, spellChecker, hyphenated, phrase, perTerm);
    assert combined == Candidates(spellChecker, phrase, terms, perTerm, maxCombos);

    var uniq := Distinct(combined);
    uniq := Without(uniq, phrase);
    out := Take(uniq, maxCombos);
  }
}
