/** The backend's database tables as one object whose fields the views, the model `save`
  * methods and the management commands update in place. */
module Tables {
  import opened ContributionModel

  type ContributionId = nat

  /** The counters of the `User` model that the core updates. */
  datatype User = User(username: string, totalContributions: nat, totalValidations: nat)

  datatype Category = Bantu | Nilotic | Cushitic | Other

  /** A row of the languages table; the table is keyed by the unique `code`. */
  datatype Language = Language(
    name: string,
    category: Category,
    description: string,
    contributorsCount: nat,
    wordsCount: nat,
    sentencesCount: nat,
    audioCount: nat)

  /** A row of the validations table; its primary key is its position in the table. */
  datatype Validation = Validation(contribution: ContributionId, validator: UserId, isValid: bool, feedback: string)

  /** How many validations of contribution `c` the table holds. */
  function CountFor(vs: seq<Validation>, c: ContributionId): (n: nat)
    ensures n <= |vs|
  {
    if vs == [] then 0
    else CountFor(vs[..|vs| - 1], c) + (if vs[|vs| - 1].contribution == c then 1 else 0)
  }

  /** How many positive validations of contribution `c` the table holds. */
  function PositiveFor(vs: seq<Validation>, c: ContributionId): (n: nat)
    ensures n <= CountFor(vs, c)
  {
    if vs == [] then 0
    else PositiveFor(vs[..|vs| - 1], c)
         + (if vs[|vs| - 1].contribution == c && vs[|vs| - 1].isValid then 1 else 0)
  }

  lemma CountForAppend(vs: seq<Validation>, v: Validation, c: ContributionId)
    ensures CountFor(vs + [v], c) == CountFor(vs, c) + (if v.contribution == c then 1 else 0)
    ensures PositiveFor(vs + [v], c) == PositiveFor(vs, c) + (if v.contribution == c && v.isValid then 1 else 0)
  {
    assert (vs + [v])[..|vs|] == vs;
  }

  /** `Validation.objects.filter(contribution=c, validator=u).exists()` */
  predicate HasValidation(vs: seq<Validation>, c: ContributionId, u: UserId)
  {
    exists i | 0 <= i < |vs| :: vs[i].contribution == c && vs[i].validator == u
  }

  /** The `unique_together = ('contribution', 'validator')` constraint. */
  ghost predicate UniquePairs(vs: seq<Validation>)
  {
    forall i, j | 0 <= i < j < |vs| ::
      vs[i].contribution != vs[j].contribution || vs[i].validator != vs[j].validator
  }

  /** How many validations the table holds whose validator is `u`. */
  function ValidationsBy(vs: seq<Validation>, u: UserId): (n: nat)
    ensures n <= |vs|
  {
    if vs == [] then 0
    else ValidationsBy(vs[..|vs| - 1], u) + (if vs[|vs| - 1].validator == u then 1 else 0)
  }

  lemma ValidationsByAppend(vs: seq<Validation>, v: Validation, u: UserId)
    ensures ValidationsBy(vs + [v], u) == ValidationsBy(vs, u) + (if v.validator == u then 1 else 0)
  {
    assert (vs + [v])[..|vs|] == vs;
  }

  /** The ids of the contributions that satisfy `p`: a `Contribution.objects.filter(...)`. */
  ghost function Select(cs: map<ContributionId, Contribution>, p: Contribution -> bool): set<ContributionId>
  {
    set id | id in cs && p(cs[id])
  }

  /** Inserting a row under a fresh id adds it to exactly the selections it satisfies. */
  lemma SelectInsert(cs: map<ContributionId, Contribution>, n: ContributionId, c: Contribution,
                     p: Contribution -> bool)
    requires n !in cs
    ensures |Select(cs[n := c], p)| == |Select(cs, p)| + (if p(c) then 1 else 0)
  {
    assert Select(cs[n := c], p) == Select(cs, p) + (if p(c) then {n} else {});
  }

  /** Rewriting a row in a way `p` does not see leaves the selection as it was. */
  lemma SelectUpdate(cs: map<ContributionId, Contribution>, n: ContributionId, c: Contribution,
                     p: Contribution -> bool)
    requires n in cs && p(c) == p(cs[n])
    ensures Select(cs[n := c], p) == Select(cs, p)
  {
  }

  /** A selection that no row satisfies is empty. */
  lemma SelectNone(cs: map<ContributionId, Contribution>, p: Contribution -> bool)
    requires forall id | id in cs :: !p(cs[id])
    ensures |Select(cs, p)| == 0
  {
    assert Select(cs, p) == {};
  }

  ghost function OfLanguage(code: string): Contribution -> bool
  {
    (c: Contribution) => c.language == code
  }

  ghost function WordsOf(code: string): Contribution -> bool
  {
    (c: Contribution) => c.language == code && c.kind == Text && c.contentType == Word
  }

  ghost function SentencesOf(code: string): Contribution -> bool
  {
    (c: Contribution) => c.language == code && c.kind == Text && c.contentType == Sentence
  }

  ghost function AudioOf(code: string): Contribution -> bool
  {
    (c: Contribution) => c.language == code && c.kind == Audio
  }

  ghost function ByUser(u: UserId): Contribution -> bool
  {
    (c: Contribution) => c.user == u
  }

  /** Two rows agree on everything the counter selections look at. */
  ghost predicate SameCategory(c: Contribution, d: Contribution)
  {
    c.user == d.user && c.language == d.language && c.kind == d.kind && c.contentType == d.contentType
  }

  /** Referential integrity, the uniqueness constraint and the counter bound. */
  ghost predicate Integrity(users: map<UserId, User>, languages: map<string, Language>,
                            cs: map<ContributionId, Contribution>, vs: seq<Validation>,
                            next: ContributionId)
  {
    && (forall id | id in cs ::
          && id < next
          && cs[id].user in users
          && cs[id].language in languages
          && cs[id].positiveValidations <= cs[id].validationsCount)
    && (forall i | 0 <= i < |vs| :: vs[i].contribution in cs && vs[i].validator in users)
    && UniquePairs(vs)
  }

  /** Every contribution's counters agree with the validations table. */
  ghost predicate CountersHold(cs: map<ContributionId, Contribution>, vs: seq<Validation>)
  {
    forall id | id in cs ::
      && cs[id].validationsCount == CountFor(vs, id)
      && cs[id].positiveValidations == PositiveFor(vs, id)
  }

  /** A language's counters agree with the contributions table: it counts each of its
    * contributions as a contributor, and its text words, its text sentences and its audio. */
  ghost predicate LanguageStatsHold(l: Language, code: string, cs: map<ContributionId, Contribution>)
  {
    && l.contributorsCount == |Select(cs, OfLanguage(code))|
    && l.wordsCount == |Select(cs, WordsOf(code))|
    && l.sentencesCount == |Select(cs, SentencesOf(code))|
    && l.audioCount == |Select(cs, AudioOf(code))|
  }

  /** A user's counters agree with the tables: the contributions they wrote and the validations
    * they made. */
  ghost predicate UserStatsHold(user: User, u: UserId, cs: map<ContributionId, Contribution>, vs: seq<Validation>)
  {
    && user.totalContributions == |Select(cs, ByUser(u))|
    && user.totalValidations == ValidationsBy(vs, u)
  }

  /** The stored counters of every language and user agree with the tables. */
  ghost predicate StatsHold(users: map<UserId, User>, languages: map<string, Language>,
                            cs: map<ContributionId, Contribution>, vs: seq<Validation>)
  {
    && (forall code | code in languages :: LanguageStatsHold(languages[code], code, cs))
    && (forall u | u in users :: UserStatsHold(users[u], u, cs, vs))
  }

  class Database {
    var users: map<UserId, User>
    var languages: map<string, Language>
    var contributions: map<ContributionId, Contribution>
    var validations: seq<Validation>
    /** Stands for the uuid4 default: every id below it is taken or was taken. */
    var nextContributionId: ContributionId

    /** Referential integrity, the uniqueness constraint and the counter bound. */
    ghost predicate Valid()
      reads this
    {
      Integrity(users, languages, contributions, validations, nextContributionId)
    }

    /** Every contribution's counters agree with the validations table. */
    ghost predicate CountersMatch()
      reads this
    {
      CountersHold(contributions, validations)
    }

    /** The stored counters of every language and user agree with the tables. */
    ghost predicate StatsMatch()
      reads this
    {
      StatsHold(users, languages, contributions, validations)
    }

    constructor ()
      ensures Valid() && CountersMatch() && StatsMatch()
      ensures users == map[] && languages == map[] && contributions == map[] && validations == []
    {
      users, languages, contributions, validations := map[], map[], map[], [];
      nextContributionId := 0;
    }
  }
}
