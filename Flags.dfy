/**
 * The command-line configuration of the tester: the integer flags with their bounds, the
 * `--rebuildSpellIndex` switch, and `Integer.parseInt` as the flags use it.
 */
module Flags {
  import opened Wrappers
  import opened Text

  // ---------------------------------------------------------------------------
  // Integer.parseInt and Integer.toString
  // ---------------------------------------------------------------------------

  const Int32Min: int := -0x8000_0000
  const Int32Max: int := 0x7fff_ffff

  predicate IsDigit(c: char) {
    '0' <= c <= '9'
  }

  predicate AllDigits(s: string) {
    forall i :: 0 <= i < |s| ==> IsDigit(s[i])
  }

  /** The value of a run of decimal digits, most significant first. */
  function DigitsValue(s: string): nat
    requires AllDigits(s)
    decreases |s|
  {
    if s == [] then 0
    else DigitsValue(s[..|s| - 1]) * 10 + (s[|s| - 1] as int - '0' as int)
  }

  /**
   * `Integer.parseInt(s)`: an optional `+` or `-`, then at least one decimal digit, with a
   * value inside the 32-bit range; anything else is a `NumberFormatException` (`None`).
   */
  function ParseJavaInt(s: string): (r: Option<int>)
    ensures r.Some? ==> Int32Min <= r.value <= Int32Max
  {
    if s == [] then None
    else if s[0] == '-' || s[0] == '+' then
      if |s| == 1 || !AllDigits(s[1..]) then None
      else
        var magnitude: int := DigitsValue(s[1..]);
        var v := if s[0] == '-' then -magnitude else magnitude;
        if Int32Min <= v <= Int32Max then Some(v) else None
    else if !AllDigits(s) then None
    else if DigitsValue(s) <= Int32Max then Some(DigitsValue(s))
    else None
  }

  /** The decimal digits of `n`, without leading zeros. */
  function NatToString(n: nat): string
    decreases n
  {
    if n < 10 then [('0' as int + n) as char]
    else NatToString(n / 10) + [('0' as int + n % 10) as char]
  }

  /** `Integer.toString(n)`. */
  function IntToString(n: int): string {
    if n < 0 then "-" + NatToString(-n) else NatToString(n)
  }

  lemma {:induction false} NatToStringDigits(n: nat)
    ensures |NatToString(n)| > 0 && AllDigits(NatToString(n)) && DigitsValue(NatToString(n)) == n
    decreases n
  {
    var s := NatToString(n);
    if n >= 10 {
      NatToStringDigits(n / 10);
      assert s[..|s| - 1] == NatToString(n / 10);
    }
  }

  /** Every 32-bit value reads back from its decimal form. */
  lemma ParseIntToString(n: int)
    requires Int32Min <= n <= Int32Max
    ensures ParseJavaInt(IntToString(n)) == Some(n)
  {
    var m := if n < 0 then -n else n;
    NatToStringDigits(m);
    var s := IntToString(n);
    if n < 0 {
      assert s[1..] == NatToString(m);
    } else {
      assert IsDigit(s[0]);
    }
  }

  /** A signless run of digits reads as its value, when that value fits. */
  lemma ParseDigits(s: string)
    requires s != [] && AllDigits(s)
    ensures ParseJavaInt(s) == if DigitsValue(s) <= Int32Max then Some(DigitsValue(s)) else None
  {
    assert IsDigit(s[0]);
  }

  /** A value with a character other than a sign or a digit is rejected. */
  lemma ParseRejectsNonDigit(s: string, i: nat)
    requires i < |s| && !IsDigit(s[i]) && (i > 0 || (s[0] != '-' && s[0] != '+'))
    ensures ParseJavaInt(s) == None
  {
    if i > 0 && (s[0] == '-' || s[0] == '+') {
      assert !IsDigit(s[1..][i - 1]);
    }
  }

  // ---------------------------------------------------------------------------
  // The configuration
  // ---------------------------------------------------------------------------

  /** The integer settings a flag can change. */
  datatype Setting =
    | MaxSearch | PhraseSlop | MinShouldMatch | FuzzyEdits | MinOccur
    | SpellSuggestionsPerTerm | MaxSuggestionCombos

  /** The tester's tunable values (the float boosts are not modelled). */
  datatype Config = Config(
    maxSearch: int, phraseSlop: int, minShouldMatch: int, fuzzyEdits: int, minOccur: int,
    rebuildSpellIndex: bool, spellSuggestionsPerTerm: int, maxSuggestionCombos: int)

  /** `MAX_SEARCH`, `PHRASE_QUERY_SLOP`, `MIN_OCCUR` and the field initialisers. */
  const Defaults := Config(10, 2, 1, 2, 20, false, 2, 5)

  /** The flag text before the value. */
  function Prefix(s: Setting): string {
    match s
    case MaxSearch => "--maxSearch="
    case PhraseSlop => "--slop="
    case MinShouldMatch => "--minShouldMatch="
    case FuzzyEdits => "--fuzzyEdits="
    case MinOccur => "--minOccur="
    case SpellSuggestionsPerTerm => "--spellSuggestionsPerTerm="
    case MaxSuggestionCombos => "--maxSuggestionCombos="
  }

  /** The smallest accepted value. */
  function Lo(s: Setting): int {
    match s
    case MaxSearch => 1
    case PhraseSlop => 0
    case MinShouldMatch => 0
    case FuzzyEdits => 0
    case MinOccur => 0
    case SpellSuggestionsPerTerm => 1
    case MaxSuggestionCombos => 1
  }

  /** The largest accepted value. */
  function Hi(s: Setting): int {
    match s
    case MaxSearch => 100000
    case PhraseSlop => 100
    case MinShouldMatch => 10
    case FuzzyEdits => 2
    case MinOccur => 100000
    case SpellSuggestionsPerTerm => 10
    case MaxSuggestionCombos => 100
  }

  function Field(c: Config, s: Setting): int {
    match s
    case MaxSearch => c.maxSearch
    case PhraseSlop => c.phraseSlop
    case MinShouldMatch => c.minShouldMatch
    case FuzzyEdits => c.fuzzyEdits
    case MinOccur => c.minOccur
    case SpellSuggestionsPerTerm => c.spellSuggestionsPerTerm
    case MaxSuggestionCombos => c.maxSuggestionCombos
  }

  /** The setter a flag hands to `parseInt`: only its own setting changes. */
  function Set(c: Config, s: Setting, v: int): (r: Config)
    ensures Field(r, s) == v
    ensures forall t :: t != s ==> Field(r, t) == Field(c, t)
    ensures r.rebuildSpellIndex == c.rebuildSpellIndex
  {
    match s
    case MaxSearch => c.(maxSearch := v)
    case PhraseSlop => c.(phraseSlop := v)
    case MinShouldMatch => c.(minShouldMatch := v)
    case FuzzyEdits => c.(fuzzyEdits := v)
    case MinOccur => c.(minOccur := v)
    case SpellSuggestionsPerTerm => c.(spellSuggestionsPerTerm := v)
    case MaxSuggestionCombos => c.(maxSuggestionCombos := v)
  }

  /** Every setting within its bounds. */
  predicate InBounds(c: Config) {
    && 1 <= c.maxSearch <= 100000
    && 0 <= c.phraseSlop <= 100
    && 0 <= c.minShouldMatch <= 10
    && 0 <= c.fuzzyEdits <= 2
    && 0 <= c.minOccur <= 100000
    && 1 <= c.spellSuggestionsPerTerm <= 10
    && 1 <= c.maxSuggestionCombos <= 100
  }

  /** `parseInt(value, name, setter, min, max)`: the accepted value, or `None` for the warning. */
  function ParseInt(value: string, min: int, max: int): (r: Option<int>)
    ensures r.Some? <==> ParseJavaInt(value).Some? && min <= ParseJavaInt(value).value <= max
    ensures r.Some? ==> r.value == ParseJavaInt(value).value
  {
    match ParseJavaInt(value)
    case None => None
    case Some(i) => if i < min || i > max then None else Some(i)
  }

  /** One integer flag: parse the text after its prefix and apply it when accepted. */
  function ApplyInt(c: Config, s: Setting, arg: string): (r: Config)
    requires StartsWith(arg, Prefix(s))
    ensures InBounds(c) ==> InBounds(r)
    ensures r == c || exists v :: Lo(s) <= v <= Hi(s) && r == Set(c, s, v)
  {
    match ParseInt(arg[|Prefix(s)|..], Lo(s), Hi(s))
    case Some(v) => Set(c, s, v)
    case None => c
  }

  predicate IsBoostFlag(arg: string) {
    StartsWith(arg, "--boostExact=") || StartsWith(arg, "--boostPhonetic=")
    || StartsWith(arg, "--boostWildcard=") || StartsWith(arg, "--boostFuzzy=")
  }

  /** One pass of the flag chain in `main`, in its order; unknown arguments are ignored. */
  function ApplyFlag(c: Config, arg: string): (r: Config)
    ensures InBounds(c) ==> InBounds(r)
  {
    if IsBoostFlag(arg) then c
    else if StartsWith(arg, Prefix(MaxSearch)) then ApplyInt(c, MaxSearch, arg)
    else if StartsWith(arg, Prefix(PhraseSlop)) then ApplyInt(c, PhraseSlop, arg)
    else if StartsWith(arg, Prefix(MinShouldMatch)) then ApplyInt(c, MinShouldMatch, arg)
    else if StartsWith(arg, Prefix(FuzzyEdits)) then ApplyInt(c, FuzzyEdits, arg)
    else if StartsWith(arg, Prefix(MinOccur)) then ApplyInt(c, MinOccur, arg)
    else if arg == "--rebuildSpellIndex" then c.(rebuildSpellIndex := true)
    else if StartsWith(arg, Prefix(SpellSuggestionsPerTerm)) then ApplyInt(c, SpellSuggestionsPerTerm, arg)
    else if StartsWith(arg, Prefix(MaxSuggestionCombos)) then ApplyInt(c, MaxSuggestionCombos, arg)
    else c
  }

  /** All arguments, left to right; a later flag overrides an earlier one. */
  function ApplyFlags(c: Config, args: seq<string>): (r: Config)
    ensures InBounds(c) ==> InBounds(r)
    decreases |args|
  {
    if args == [] then c
    else ApplyFlag(ApplyFlags(c, args[..|args| - 1]), args[|args| - 1])
  }

  // ---------------------------------------------------------------------------
  // What the flags do
  // ---------------------------------------------------------------------------

  /** The bounds are exactly the ones each flag enforces. */
  lemma InBoundsIsFlagBounds(c: Config)
    ensures InBounds(c) <==> forall s: Setting :: Lo(s) <= Field(c, s) <= Hi(s)
  {
    if forall s: Setting :: Lo(s) <= Field(c, s) <= Hi(s) {
      assert Lo(MaxSearch) <= Field(c, MaxSearch) <= Hi(MaxSearch);
      assert Lo(PhraseSlop) <= Field(c, PhraseSlop) <= Hi(PhraseSlop);
      assert Lo(MinShouldMatch) <= Field(c, MinShouldMatch) <= Hi(MinShouldMatch);
      assert Lo(FuzzyEdits) <= Field(c, FuzzyEdits) <= Hi(FuzzyEdits);
      assert Lo(MinOccur) <= Field(c, MinOccur) <= Hi(MinOccur);
      assert Lo(SpellSuggestionsPerTerm) <= Field(c, SpellSuggestionsPerTerm) <= Hi(SpellSuggestionsPerTerm);
      assert Lo(MaxSuggestionCombos) <= Field(c, MaxSuggestionCombos) <= Hi(MaxSuggestionCombos);
    }
  }

  lemma NotPrefix(arg: string, p: string, q: string, i: nat)
    requires StartsWith(arg, p) && i < |p| && i < |q| && p[i] != q[i]
    ensures !StartsWith(arg, q)
  {
    assert arg[i] == p[i];
  }

  /** An argument carrying a setting's prefix is neither a boost flag nor `--rebuildSpellIndex`. */
  lemma NotBoostFlag(s: Setting, arg: string)
    requires StartsWith(arg, Prefix(s))
    ensures !IsBoostFlag(arg) && arg != "--rebuildSpellIndex"
  {
    var p := Prefix(s);
    NotPrefix(arg, p, "--boostExact=", 2);
    NotPrefix(arg, p, "--boostPhonetic=", 2);
    NotPrefix(arg, p, "--boostWildcard=", 2);
    NotPrefix(arg, p, "--boostFuzzy=", 2);
    assert arg != "--rebuildSpellIndex" by { assert arg[2] == p[2]; }
  }

  /** The position of a setting's test in the flag chain of `main`. */
  function Order(s: Setting): nat {
    match s
    case MaxSearch => 0
    case PhraseSlop => 1
    case MinShouldMatch => 2
    case FuzzyEdits => 3
    case MinOccur => 4
    case SpellSuggestionsPerTerm => 5
    case MaxSuggestionCombos => 6
  }

  /** No prefix tested earlier in the chain matches an argument that starts with `Prefix(s)`. */
  lemma EarlierPrefixesFail(s: Setting, arg: string)
    requires StartsWith(arg, Prefix(s))
    ensures forall t :: Order(t) < Order(s) ==> !StartsWith(arg, Prefix(t))
  {
    var p := Prefix(s);
    match s
    case MaxSearch =>
    case PhraseSlop =>
      NotPrefix(arg, p, Prefix(MaxSearch), 2);
    case MinShouldMatch =>
      NotPrefix(arg, p, Prefix(MaxSearch), 3);
      NotPrefix(arg, p, Prefix(PhraseSlop), 2);
    case FuzzyEdits =>
      NotPrefix(arg, p, Prefix(MaxSearch), 2);
      NotPrefix(arg, p, Prefix(PhraseSlop), 2);
      NotPrefix(arg, p, Prefix(MinShouldMatch), 2);
    case MinOccur =>
      NotPrefix(arg, p, Prefix(MaxSearch), 3);
      NotPrefix(arg, p, Prefix(PhraseSlop), 2);
      NotPrefix(arg, p, Prefix(MinShouldMatch), 5);
      NotPrefix(arg, p, Prefix(FuzzyEdits), 2);
    case SpellSuggestionsPerTerm =>
      NotPrefix(arg, p, Prefix(MaxSearch), 2);
      NotPrefix(arg, p, Prefix(PhraseSlop), 3);
      NotPrefix(arg, p, Prefix(MinShouldMatch), 2);
      NotPrefix(arg, p, Prefix(FuzzyEdits), 2);
      NotPrefix(arg, p, Prefix(MinOccur), 2);
    case MaxSuggestionCombos =>
      NotPrefix(arg, p, Prefix(MaxSearch), 6);
      NotPrefix(arg, p, Prefix(PhraseSlop), 2);
      NotPrefix(arg, p, Prefix(MinShouldMatch), 3);
      NotPrefix(arg, p, Prefix(FuzzyEdits), 2);
      NotPrefix(arg, p, Prefix(MinOccur), 3);
      NotPrefix(arg, p, Prefix(SpellSuggestionsPerTerm), 2);
  }

  /** An argument that starts with `Prefix(s)` reaches the branch of `s` in the flag chain. */
  lemma PrefixSelects(c: Config, s: Setting, arg: string)
    requires StartsWith(arg, Prefix(s))
    ensures ApplyFlag(c, arg) == ApplyInt(c, s, arg)
  {
    NotBoostFlag(s, arg);
    EarlierPrefixesFail(s, arg);
    assert Order(MaxSearch) == 0 && Order(PhraseSlop) == 1 && Order(MinShouldMatch) == 2 && Order(FuzzyEdits) == 3;
    assert Order(MinOccur) == 4 && Order(SpellSuggestionsPerTerm) == 5 && Order(MaxSuggestionCombos) == 6;
  }

  /**
   * A flag `Prefix(s) + value` sets setting `s` to the parsed value when it is a 32-bit
   * integer within the setting's bounds, and otherwise leaves the whole configuration as it was.
   */
  lemma FlagEffect(c: Config, s: Setting, value: string)
    ensures var r := ApplyFlag(c, Prefix(s) + value);
      && (ParseInt(value, Lo(s), Hi(s)).Some? ==> r == Set(c, s, ParseJavaInt(value).value))
      && (ParseInt(value, Lo(s), Hi(s)).None? ==> r == c)
  {
    var arg := Prefix(s) + value;
    assert arg[..|Prefix(s)|] == Prefix(s) && arg[|Prefix(s)|..] == value;
    PrefixSelects(c, s, arg);
  }

  /** The decimal form of an in-bounds value sets exactly that setting to that value. */
  lemma FlagSetsValue(c: Config, s: Setting, v: int)
    requires Lo(s) <= v <= Hi(s)
    ensures Field(ApplyFlag(c, Prefix(s) + IntToString(v)), s) == v
    ensures forall t :: t != s ==> Field(ApplyFlag(c, Prefix(s) + IntToString(v)), t) == Field(c, t)
    ensures ApplyFlag(c, Prefix(s) + IntToString(v)) == Set(c, s, v)
  {
    assert Int32Min <= v <= Int32Max by {
      match s
      case MaxSearch =>
      case PhraseSlop =>
      case MinShouldMatch =>
      case FuzzyEdits =>
      case MinOccur =>
      case SpellSuggestionsPerTerm =>
      case MaxSuggestionCombos =>
    }
    ParseIntToString(v);
    FlagEffect(c, s, IntToString(v));
  }

  /** An out-of-bounds value is ignored, as is an unparsable one. */
  lemma FlagOutOfBoundsIgnored(c: Config, s: Setting, v: int)
    requires Int32Min <= v <= Int32Max && (v < Lo(s) || v > Hi(s))
    ensures ApplyFlag(c, Prefix(s) + IntToString(v)) == c
  {
    ParseIntToString(v);
    FlagEffect(c, s, IntToString(v));
  }

  /** `--rebuildSpellIndex` switches the rebuild on and changes nothing else. */
  lemma RebuildFlag(c: Config)
    ensures ApplyFlag(c, "--rebuildSpellIndex") == c.(rebuildSpellIndex := true)
  {
    var arg := "--rebuildSpellIndex";
    NotPrefix(arg, arg, "--boostExact=", 2);
    NotPrefix(arg, arg, "--boostPhonetic=", 2);
    NotPrefix(arg, arg, "--boostWildcard=", 2);
    NotPrefix(arg, arg, "--boostFuzzy=", 2);
    NotPrefix(arg, arg, Prefix(MaxSearch), 2);
    NotPrefix(arg, arg, Prefix(PhraseSlop), 2);
    NotPrefix(arg, arg, Prefix(MinShouldMatch), 2);
    NotPrefix(arg, arg, Prefix(FuzzyEdits), 2);
    NotPrefix(arg, arg, Prefix(MinOccur), 2);
  }

  /** Boost flags and arguments that match no flag leave the modelled configuration alone. */
  lemma UnknownFlagIgnored(c: Config, arg: string)
    requires forall s :: !StartsWith(arg, Prefix(s))
    requires arg != "--rebuildSpellIndex"
    ensures ApplyFlag(c, arg) == c
  {
    assert !StartsWith(arg, Prefix(MaxSearch)) && !StartsWith(arg, Prefix(PhraseSlop));
    assert !StartsWith(arg, Prefix(MinShouldMatch)) && !StartsWith(arg, Prefix(FuzzyEdits));
    assert !StartsWith(arg, Prefix(MinOccur)) && !StartsWith(arg, Prefix(SpellSuggestionsPerTerm));
    assert !StartsWith(arg, Prefix(MaxSuggestionCombos));
  }

  /** The last flag for a setting wins: later arguments for other settings do not disturb it. */
  lemma LaterFlagWins(c: Config, args: seq<string>, s: Setting, v: int)
    requires Lo(s) <= v <= Hi(s)
    requires forall i :: 0 <= i < |args| ==> !StartsWith(args[i], Prefix(s))
    ensures Field(ApplyFlags(c, [Prefix(s) + IntToString(v)] + args), s) == v
    decreases |args|
  {
    var all := [Prefix(s) + IntToString(v)] + args;
    if args == [] {
      assert all[..0] == [];
      FlagSetsValue(c, s, v);
    } else {
      assert all[..|all| - 1] == [Prefix(s) + IntToString(v)] + args[..|args| - 1];
      LaterFlagWins(c, args[..|args| - 1], s, v);
      FlagLeavesOthers(ApplyFlags(c, all[..|all| - 1]), args[|args| - 1], s);
    }
  }

  /** An argument that does not start with `Prefix(s)` does not change setting `s`. */
  lemma FlagLeavesOthers(c: Config, arg: string, s: Setting)
    requires !StartsWith(arg, Prefix(s))
    ensures Field(ApplyFlag(c, arg), s) == Field(c, s)
  {
    if t :| StartsWith(arg, Prefix(t)) {
      PrefixSelects(c, t, arg);
    }
  }
}
