/** The contribution endpoints: the list filters, and the language and user counters the two
  * create views bump after saving a contribution. */
module ContributionViews {
  import opened Wrappers
  import opened Text
  import opened ContributionModel
  import opened Tables
  import opened ValidationViews

  /** A query parameter takes effect when it is present and not empty. */
  predicate Given(p: Option<string>)
  {
    p.Some? && p.value != ""
  }

  /** A flag parameter is on when it reads "true" in any letter case. */
  predicate IsOn(p: Option<string>)
  {
    Given(p) && ToLower(p.value) == "true"
  }

  /** The query parameters `language_code`, `my_contributions` and `to_validate`. */
  datatype ListParams = ListParams(languageCode: Option<string>, myContributions: Option<string>,
                                   toValidate: Option<string>)

  /** `ContributionListView.get_queryset`, as the set of ids it selects: the filters narrow the
    * table one after the other, so a contribution is listed iff it passes every filter asked for. */
  function ContributionQuery(cs: map<ContributionId, Contribution>, vs: seq<Validation>, user: UserId,
                             params: ListParams): (r: set<ContributionId>)
    ensures forall id :: id in r <==>
      && id in cs
      && (Given(params.languageCode) ==> cs[id].language == params.languageCode.value)
      && (IsOn(params.myContributions) ==> cs[id].user == user)
      && (IsOn(params.toValidate) ==> cs[id].status == Pending && !HasValidation(vs, id, user))
  {
    var all := cs.Keys;
    var ofLanguage :=
      if Given(params.languageCode) then set id | id in all && cs[id].language == params.languageCode.value
      else all;
    var ofUser :=
      if IsOn(params.myContributions) then set id | id in ofLanguage && cs[id].user == user
      else ofLanguage;
    if IsOn(params.toValidate) then set id | id in ofUser && cs[id].status == Pending && !HasValidation(vs, id, user)
    else ofUser
  }

  /** Once a user has validated a contribution it leaves their `to_validate` list, whatever
    * else changes in the table. */
  lemma ValidatedLeavesQueue(cs: map<ContributionId, Contribution>, vs: seq<Validation>, user: UserId,
                             params: ListParams, v: Validation)
    requires IsOn(params.toValidate) && v.validator == user
    ensures v.contribution !in ContributionQuery(cs, vs + [v], user, params)
  {
    assert (vs + [v])[|vs|] == v;
  }

  /** The user's own pending contributions stay in their `to_validate` list: nothing excludes
    * the author. */
  lemma OwnPendingInQueue(cs: map<ContributionId, Contribution>, vs: seq<Validation>, user: UserId, id: ContributionId)
    requires id in cs && cs[id].user == user && cs[id].status == Pending && !HasValidation(vs, id, user)
    ensures id in ContributionQuery(cs, vs, user, ListParams(None, None, Some("TRUE")))
  {
    assert ToLower("TRUE") == "true";
  }

  /** The language counters after a text contribution of content type `t`. */
  function TextCounted(l: Language, t: ContentType): (r: Language)
    ensures r.wordsCount == l.wordsCount + (if t == Word then 1 else 0)
    ensures r.sentencesCount == l.sentencesCount + (if t == Sentence then 1 else 0)
    ensures r.contributorsCount == l.contributorsCount + 1
    ensures r.audioCount == l.audioCount
    ensures r.name == l.name && r.category == l.category && r.description == l.description
  {
    l.(wordsCount := l.wordsCount + (if t == Word then 1 else 0),
       sentencesCount := l.sentencesCount + (if t == Sentence then 1 else 0),
       contributorsCount := l.contributorsCount + 1)
  }

  /** The language counters after an audio contribution. */
  function AudioCounted(l: Language): (r: Language)
    ensures r.audioCount == l.audioCount + 1 && r.contributorsCount == l.contributorsCount + 1
    ensures r.wordsCount == l.wordsCount && r.sentencesCount == l.sentencesCount
    ensures r.name == l.name && r.category == l.category && r.description == l.description
  {
    l.(audioCount := l.audioCount + 1, contributorsCount := l.contributorsCount + 1)
  }

  /** Inserting a new contribution `c` under the next id, with its author's contribution count
    * bumped and its language's row replaced by `l'`, keeps the tables consistent. */
  lemma InsertKeepsIntegrity(users: map<UserId, User>, languages: map<string, Language>,
                             cs: map<ContributionId, Contribution>, vs: seq<Validation>, next: ContributionId,
                             c: Contribution, l': Language,
                             users': map<UserId, User>, languages': map<string, Language>,
                             cs': map<ContributionId, Contribution>)
    requires Integrity(users, languages, cs, vs, next)
    requires c.user in users && c.language in languages
    requires c.positiveValidations <= c.validationsCount
    requires users' == users[c.user := users[c.user].(totalContributions := users[c.user].totalContributions + 1)]
    requires languages' == languages[c.language := l']
    requires cs' == cs[next := c]
    ensures Integrity(users', languages', cs', vs, next + 1)
  {
  }

  /** The new contribution starts without votes, and no validation names its fresh id, so every
    * contribution's counters still equal its validations. */
  lemma InsertKeepsCounters(users: map<UserId, User>, languages: map<string, Language>,
                            cs: map<ContributionId, Contribution>, vs: seq<Validation>, next: ContributionId,
                            c: Contribution, cs': map<ContributionId, Contribution>)
    requires Integrity(users, languages, cs, vs, next)
    requires c.validationsCount == 0 && c.positiveValidations == 0
    requires cs' == cs[next := c]
    ensures CountersHold(cs, vs) ==> CountersHold(cs', vs)
  {
    if CountersHold(cs, vs) {
      forall i | 0 <= i < |vs|
        ensures vs[i].contribution != next
      {
      }
      CountForAbsent(vs, next);
    }
  }

  /** One language row after inserting `c` under a fresh id: each counter grows by one exactly
    * when `c` belongs to what it counts. */
  lemma InsertLanguageStats(l: Language, l': Language, code: string,
                            cs: map<ContributionId, Contribution>, next: ContributionId, c: Contribution)
    requires next !in cs && LanguageStatsHold(l, code, cs)
    requires l'.contributorsCount == l.contributorsCount + (if OfLanguage(code)(c) then 1 else 0)
    requires l'.wordsCount == l.wordsCount + (if WordsOf(code)(c) then 1 else 0)
    requires l'.sentencesCount == l.sentencesCount + (if SentencesOf(code)(c) then 1 else 0)
    requires l'.audioCount == l.audioCount + (if AudioOf(code)(c) then 1 else 0)
    ensures LanguageStatsHold(l', code, cs[next := c])
  {
    SelectInsert(cs, next, c, OfLanguage(code));
    SelectInsert(cs, next, c, WordsOf(code));
    SelectInsert(cs, next, c, SentencesOf(code));
    SelectInsert(cs, next, c, AudioOf(code));
  }

  /** Counting the new contribution for its language (the row becomes `l'`) and its author keeps
    * every counter in agreement with the tables. */
  lemma InsertKeepsStats(users: map<UserId, User>, languages: map<string, Language>,
                         cs: map<ContributionId, Contribution>, vs: seq<Validation>, next: ContributionId,
                         c: Contribution, l': Language,
                         users': map<UserId, User>, languages': map<string, Language>,
                         cs': map<ContributionId, Contribution>)
    requires next !in cs
    requires c.user in users && c.language in languages
    requires users' == users[c.user := users[c.user].(totalContributions := users[c.user].totalContributions + 1)]
    requires languages' == languages[c.language := l']
    requires cs' == cs[next := c]
    requires l'.contributorsCount == languages[c.language].contributorsCount + 1
    requires l'.wordsCount == languages[c.language].wordsCount + (if WordsOf(c.language)(c) then 1 else 0)
    requires l'.sentencesCount == languages[c.language].sentencesCount + (if SentencesOf(c.language)(c) then 1 else 0)
    requires l'.audioCount == languages[c.language].audioCount + (if AudioOf(c.language)(c) then 1 else 0)
    ensures StatsHold(users, languages, cs, vs) ==> StatsHold(users', languages', cs', vs)
  {
    if StatsHold(users, languages, cs, vs) {
      forall code | code in languages'
        ensures LanguageStatsHold(languages'[code], code, cs')
      {
        InsertLanguageStats(languages[code], languages'[code], code, cs, next, c);
      }
      forall u | u in users'
        ensures UserStatsHold(users'[u], u, cs', vs)
      {
        SelectInsert(cs, next, c, ByUser(u));
      }
    }
  }

  /** A new contribution has no validations, so none of them is by its author. */
  lemma InsertKeepsNoSelf(users: map<UserId, User>, languages: map<string, Language>,
                          cs: map<ContributionId, Contribution>, vs: seq<Validation>, next: ContributionId,
                          c: Contribution, cs': map<ContributionId, Contribution>)
    requires Integrity(users, languages, cs, vs, next)
    requires cs' == cs[next := c]
    ensures NoSelfValidation(cs, vs) ==> NoSelfValidation(cs', vs)
  {
    if NoSelfValidation(cs, vs) {
      forall i | 0 <= i < |vs| && vs[i].contribution in cs'
        ensures vs[i].validator != cs'[vs[i].contribution].user
      {
        assert vs[i].contribution in cs;
      }
    }
  }

  /** Storing a new contribution `c` under the next id, counted for its language (the row becomes
    * `l'`) and for its author, keeps integrity, the vote counters, the stats counters and
    * `NoSelfValidation`. */
  lemma InsertKeepsTables(users: map<UserId, User>, languages: map<string, Language>,
                          cs: map<ContributionId, Contribution>, vs: seq<Validation>, next: ContributionId,
                          c: Contribution, l': Language,
                          users': map<UserId, User>, languages': map<string, Language>,
                          cs': map<ContributionId, Contribution>)
    requires Integrity(users, languages, cs, vs, next)
    requires c.user in users && c.language in languages
    requires c.validationsCount == 0 && c.positiveValidations == 0
    requires c.kind == Text ==> l' == TextCounted(languages[c.language], c.contentType)
    requires c.kind == Audio ==> l' == AudioCounted(languages[c.language])
    requires users' == users[c.user := users[c.user].(totalContributions := users[c.user].totalContributions + 1)]
    requires languages' == languages[c.language := l']
    requires cs' == cs[next := c]
    ensures Integrity(users', languages', cs', vs, next + 1)
    ensures CountersHold(cs, vs) ==> CountersHold(cs', vs)
    ensures StatsHold(users, languages, cs, vs) ==> StatsHold(users', languages', cs', vs)
    ensures NoSelfValidation(cs, vs) ==> NoSelfValidation(cs', vs)
  {
    InsertKeepsIntegrity(users, languages, cs, vs, next, c, l', users', languages', cs');
    InsertKeepsCounters(users, languages, cs, vs, next, c, cs');
    InsertKeepsStats(users, languages, cs, vs, next, c, l', users', languages', cs');
    InsertKeepsNoSelf(users, languages, cs, vs, next, c, cs');
  }

  /** No validation names a contribution id that nothing in the table refers to. */
  lemma {:induction false} CountForAbsent(vs: seq<Validation>, c: ContributionId)
    requires forall i | 0 <= i < |vs| :: vs[i].contribution != c
    ensures CountFor(vs, c) == 0 && PositiveFor(vs, c) == 0
  {
    if vs != [] {
      CountForAbsent(vs[..|vs| - 1], c);
    }
  }

  /** `TextContributionCreateView.perform_create`: save the contribution as the requesting
    * user's, then count it for its language and for the user. */
  method CreateTextContribution(db: Database, user: UserId, language: string, contentType: ContentType,
                                originalText: string, translatedText: string, context: string, anonymous: bool)
    returns (id: ContributionId)
    requires db.Valid()
    requires user in db.users && language in db.languages
    modifies db
    ensures db.Valid()
    ensures id == old(db.nextContributionId) && id !in old(db.contributions)
    ensures db.contributions == old(db.contributions)[id := NewContribution(user, language, Text, contentType,
                                                                            originalText, translatedText, context, anonymous)]
    ensures db.languages == old(db.languages)[language := TextCounted(old(db.languages)[language], contentType)]
    ensures db.users == old(db.users)[user := old(db.users)[user].(totalContributions := old(db.users)[user].totalContributions + 1)]
    ensures db.validations == old(db.validations) && db.nextContributionId == id + 1
    ensures old(db.CountersMatch()) ==> db.CountersMatch()
    ensures old(db.StatsMatch()) ==> db.StatsMatch()
    ensures old(NoSelfValidation(db.contributions, db.validations)) ==> NoSelfValidation(db.contributions, db.validations)
  {
    id := db.nextContributionId;
    var c := NewContribution(user, language, Text, contentType, originalText, translatedText, context, anonymous);
    var counted := TextCounted(db.languages[language], contentType);
    var users := db.users[user := db.users[user].(totalContributions := db.users[user].totalContributions + 1)];
    var languages := db.languages[language := counted];
    var rows := db.contributions[id := c];
    ghost var users0, languages0, cs0 := db.users, db.languages, db.contributions;
    db.contributions, db.languages, db.users, db.nextContributionId := rows, languages, users, id + 1;
    InsertKeepsTables(users0, languages0, cs0, db.validations, id, c, counted,
                      db.users, db.languages, db.contributions);
  }

  /** `AudioContributionCreateView.perform_create`: save the contribution, then count it as
    * audio for its language and as a contribution of the user. */
  method CreateAudioContribution(db: Database, user: UserId, language: string, contentType: ContentType,
                                 originalText: string, translatedText: string, context: string, anonymous: bool)
    returns (id: ContributionId)
    requires db.Valid()
    requires user in db.users && language in db.languages
    modifies db
    ensures db.Valid()
    ensures id == old(db.nextContributionId) && id !in old(db.contributions)
    ensures db.contributions == old(db.contributions)[id := NewContribution(user, language, Audio, contentType,
                                                                            originalText, translatedText, context, anonymous)]
    ensures db.languages == old(db.languages)[language := AudioCounted(old(db.languages)[language])]
    ensures db.users == old(db.users)[user := old(db.users)[user].(totalContributions := old(db.users)[user].totalContributions + 1)]
    ensures db.validations == old(db.validations) && db.nextContributionId == id + 1
    ensures old(db.CountersMatch()) ==> db.CountersMatch()
    ensures old(db.StatsMatch()) ==> db.StatsMatch()
    ensures old(NoSelfValidation(db.contributions, db.validations)) ==> NoSelfValidation(db.contributions, db.validations)
  {
    id := db.nextContributionId;
    var c := NewContribution(user, language, Audio, contentType, originalText, translatedText, context, anonymous);
    var counted := AudioCounted(db.languages[language]);
    var users := db.users[user := db.users[user].(totalContributions := db.users[user].totalContributions + 1)];
    var languages := db.languages[language := counted];
    var rows := db.contributions[id := c];
    ghost var users0, languages0, cs0 := db.users, db.languages, db.contributions;
    db.contributions, db.languages, db.users, db.nextContributionId := rows, languages, users, id + 1;
    InsertKeepsTables(users0, languages0, cs0, db.validations, id, c, counted,
                      db.users, db.languages, db.contributions);
  }
}
