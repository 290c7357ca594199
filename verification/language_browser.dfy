/** The pure helpers of the language pages: the recording clock, the name search and the
  * category filter of the languages page, and the stats lookup with its zero default. */
module LanguageBrowser {
  import opened Wrappers
  import opened Text
  import opened Seqs

  /** `formatTime(seconds)`: whole minutes, a colon, then the remaining seconds padded to two
    * digits. The recording clock only counts up from zero, so `seconds` is a `nat`. */
  function FormatTime(seconds: nat): (r: string)
    ensures |r| >= 4 && r[|r| - 3] == ':'
    ensures r[..|r| - 3] == NatToString(seconds / 60)
    ensures AllDigits(r[|r| - 2..])
  {
    NatToString(seconds / 60) + ":" + PadStart2(NatToString(seconds % 60))
  }

  /** Reads a clock written as digits, a colon and two digits back into seconds: the inverse of
    * `FormatTime` that states its round trip. */
  function ParseClock(s: string): (r: Option<nat>)
    ensures r.Some? <==> |s| >= 4 && s[|s| - 3] == ':' && AllDigits(s[..|s| - 3]) && AllDigits(s[|s| - 2..])
  {
    if |s| >= 4 && s[|s| - 3] == ':' && AllDigits(s[..|s| - 3]) && AllDigits(s[|s| - 2..]) then
      Some(ParseNat(s[..|s| - 3]) * 60 + ParseNat(s[|s| - 2..]))
    else None
  }

  /** A number below 60 comes back from its padded two-digit form. */
  lemma PaddedSecondsRoundTrip(secs: nat)
    requires secs < 60
    ensures AllDigits(PadStart2(NatToString(secs)))
    ensures ParseNat(PadStart2(NatToString(secs))) == secs
  {
    var s := NatToString(secs);
    ParseNatToString(secs);
    if secs < 10 {
      var p := PadStart2(s);
      assert p == ['0', s[0]];
      assert p[..1] == ['0'];
      assert p[..1][..0] == [];
    }
  }

  /** The clock's minutes and seconds recombine to the elapsed time: `mins * 60 + secs`. */
  lemma FormatTimeRoundTrip(seconds: nat)
    ensures ParseClock(FormatTime(seconds)) == Some(seconds)
  {
    var r := FormatTime(seconds);
    var mins, secs := NatToString(seconds / 60), PadStart2(NatToString(seconds % 60));
    PaddedSecondsRoundTrip(seconds % 60);
    ParseNatToString(seconds / 60);
    assert r[..|r| - 3] == mins;
    assert r[|r| - 2..] == secs;
  }

  /** A language as the pages receive it from the API. */
  datatype LanguageCard = LanguageCard(code: string, name: string)

  /** The search test of both pages: the lowercased name contains the lowercased term. */
  predicate NameMatches(name: string, term: string)
  {
    Contains(ToLower(name), ToLower(term))
  }

  /** The filter of the language selection page (`LanguageSelection`). */
  function SearchLanguages(languages: seq<LanguageCard>, term: string): (r: seq<LanguageCard>)
    ensures forall l :: l in r <==> l in languages && NameMatches(l.name, term)
    ensures IsSubsequence(r, languages)
    // every copy of a matching card is kept, and none of the others
    ensures forall l :: multiset(r)[l] == if NameMatches(l.name, term) then multiset(languages)[l] else 0
  {
    FilterIsSubsequence(languages, (l: LanguageCard) => NameMatches(l.name, term));
    FilterCounts(languages, (l: LanguageCard) => NameMatches(l.name, term));
    Filter(languages, (l: LanguageCard) => NameMatches(l.name, term))
  }

  /** An empty search term keeps every language, in order. */
  lemma EmptySearchKeepsAll(languages: seq<LanguageCard>)
    ensures SearchLanguages(languages, "") == languages
  {
    forall l | l in languages
      ensures NameMatches(l.name, "")
    {
      ContainsEmpty(ToLower(l.name));
    }
    FilterAll(languages, (l: LanguageCard) => NameMatches(l.name, ""));
  }

  /** The code lists `languagesByCategory` assigns to each language family; any other
    * category has none. */
  function CategoryCodes(category: string): (r: Option<seq<string>>)
    ensures r.Some? <==> category in {"bantu", "nilotic", "cushitic", "other"}
  {
    if category == "bantu" then Some(["sw", "kik", "kam", "luy", "mer"])
    else if category == "nilotic" then Some(["luo", "kal", "tec"])
    else if category == "cushitic" then Some(["som"])
    else if category == "other" then Some(["mas"])
    else None
  }

  /** Whether `getFilteredLanguages` keeps a language with this code for the category. */
  predicate InCategory(category: string, code: string)
  {
    category == "all" || (CategoryCodes(category).Some? && code in CategoryCodes(category).value)
  }

  /** The search step of `getFilteredLanguages`: applied only for a non-empty term, and only
    * languages with a non-empty name can match. */
  predicate PassesSearch(term: string, l: LanguageCard)
  {
    term == "" || (l.name != "" && NameMatches(l.name, term))
  }

  /** The category step of `getFilteredLanguages`. */
  function ByCategory(languages: seq<LanguageCard>, category: string): seq<LanguageCard>
  {
    if category == "all" then languages
    else match CategoryCodes(category)
      case Some(codes) => Filter(languages, (l: LanguageCard) => l.code in codes)
      case None => []
  }

  /** `getFilteredLanguages` of the languages page. */
  function GetFilteredLanguages(languages: seq<LanguageCard>, category: string, term: string): seq<LanguageCard>
  {
    var byCategory := ByCategory(languages, category);
    if term != "" then Filter(byCategory, (l: LanguageCard) => l.name != "" && NameMatches(l.name, term))
    else byCategory
  }

  /** Whether `getFilteredLanguages` lists language `l`. */
  predicate Listed(category: string, term: string, l: LanguageCard)
  {
    InCategory(category, l.code) && PassesSearch(term, l)
  }

  /** The category step is a filter by `InCategory`. */
  lemma ByCategoryIsFilter(languages: seq<LanguageCard>, category: string)
    ensures ByCategory(languages, category) == Filter(languages, (l: LanguageCard) => InCategory(category, l.code))
  {
    var inCategory := (l: LanguageCard) => InCategory(category, l.code);
    if category == "all" {
      FilterAll(languages, inCategory);
    } else if CategoryCodes(category).None? {
      FilterNone(languages, inCategory);
    } else {
      var codes := CategoryCodes(category).value;
      FilterSame(languages, (l: LanguageCard) => l.code in codes, inCategory);
    }
  }

  /** `getFilteredLanguages` is one filter of the fetched list by `Listed`: it lists a language
    * exactly when it belongs to the category and passes the search, in the order of the list. */
  lemma FilteredLanguagesListed(languages: seq<LanguageCard>, category: string, term: string)
    ensures GetFilteredLanguages(languages, category, term) == Filter(languages, (l: LanguageCard) => Listed(category, term, l))
    ensures forall l :: l in GetFilteredLanguages(languages, category, term) <==>
      l in languages && InCategory(category, l.code) && PassesSearch(term, l)
    ensures IsSubsequence(GetFilteredLanguages(languages, category, term), languages)
    // an unknown category lists nothing, whatever the search
    ensures category != "all" && CategoryCodes(category).None? ==> GetFilteredLanguages(languages, category, term) == []
  {
    var inCategory := (l: LanguageCard) => InCategory(category, l.code);
    var listed := (l: LanguageCard) => Listed(category, term, l);
    ByCategoryIsFilter(languages, category);
    if term != "" {
      FilterFilter(languages, inCategory, (l: LanguageCard) => l.name != "" && NameMatches(l.name, term), listed);
    } else {
      FilterSame(languages, inCategory, listed);
    }
    FilterIsSubsequence(languages, listed);
  }

  /** The figures shown on a language card. */
  datatype CardStats = CardStats(contributors: int, words: int, sentences: int)

  /** The fetched figures of a language as the stats endpoint sent them: `None` stands for a
    * value `Number` cannot read as a number (missing, or not numeric). */
  datatype FetchedStats = FetchedStats(contributors: Option<int>, words: Option<int>, sentences: Option<int>)

  /** `Number(v) || 0` */
  function NumberOrZero(v: Option<int>): int
  {
    if v.Some? then v.value else 0
  }

  /** `getLanguageStats(code)`: the fetched figures, each one read as a number or else zero, and
    * all zeros for a language without fetched figures. */
  function GetLanguageStats(stats: map<string, FetchedStats>, code: string): (r: CardStats)
    ensures code !in stats ==> r == CardStats(0, 0, 0)
    ensures code in stats && stats[code].contributors.Some? ==> r.contributors == stats[code].contributors.value
    ensures code in stats && stats[code].words.Some? ==> r.words == stats[code].words.value
    ensures code in stats && stats[code].sentences.Some? ==> r.sentences == stats[code].sentences.value
    ensures code in stats && stats[code].contributors.None? ==> r.contributors == 0
    ensures code in stats && stats[code].words.None? ==> r.words == 0
    ensures code in stats && stats[code].sentences.None? ==> r.sentences == 0
  {
    var fetched := if code in stats then stats[code] else FetchedStats(Some(0), Some(0), Some(0));
    CardStats(NumberOrZero(fetched.contributors), NumberOrZero(fetched.words), NumberOrZero(fetched.sentences))
  }
}
