/** `Validation.save`: a first save inserts the row, counts the vote on the contribution, moves
  * its status on the 3-vote, 70%/30% rule, and counts the validation for the validator. */
module ValidationModel {
  import opened Wrappers
  import opened ContributionModel
  import opened Tables

  const MinValidations := 3

  /** What a new validation does to its contribution (the `if is_new:` block); the thresholds
    * are the cross-multiplied forms of the ratio comparisons (see `ApplyVoteStatus`). */
  function ApplyVote(c: Contribution, isValid: bool): (r: Contribution)
    ensures r.validationsCount == c.validationsCount + 1
    ensures r.positiveValidations == c.positiveValidations + (if isValid then 1 else 0)
    ensures c.positiveValidations <= c.validationsCount ==> r.positiveValidations <= r.validationsCount
    // only the two counters and the status change
    ensures r == c.(validationsCount := r.validationsCount, positiveValidations := r.positiveValidations,
                    status := r.status)
  {
    var counted := c.(validationsCount := c.validationsCount + 1,
                      positiveValidations := c.positiveValidations + if isValid then 1 else 0);
    if counted.validationsCount >= MinValidations then
      if MeetsAcceptance(counted) then counted.(status := Validated)
      else if MeetsRejection(counted) then counted.(status := Rejected)
      else counted
    else counted
  }

  /** The status rule of `save`, in terms of the ratio: unchanged below three votes, validated at
    * 70% or more, rejected at 30% or less, unchanged strictly between. */
  lemma ApplyVoteStatus(c: Contribution, isValid: bool)
    ensures var r := ApplyVote(c, isValid);
      && (r.validationsCount < MinValidations ==> r.status == c.status)
      && (r.validationsCount >= MinValidations && ValidationRatio(r) >= 0.7 ==> r.status == Validated)
      && (r.validationsCount >= MinValidations && ValidationRatio(r) <= 0.3 ==> r.status == Rejected)
      && (r.validationsCount >= MinValidations && 0.3 < ValidationRatio(r) < 0.7 ==> r.status == c.status)
  {
    ThresholdsMatchRatio(ApplyVote(c, isValid));
  }

  /** The status a contribution has when every vote it holds went through `ApplyVote`, starting
    * from a new one: pending below three votes, and decided by the thresholds when one is met. */
  ghost predicate StatusConsistent(c: Contribution)
  {
    && (c.validationsCount < MinValidations ==> c.status == Pending)
    && (c.validationsCount >= MinValidations && MeetsAcceptance(c) ==> c.status == Validated)
    && (c.validationsCount >= MinValidations && MeetsRejection(c) ==> c.status == Rejected)
  }

  lemma NewContributionConsistent(user: UserId, language: string, kind: Kind, contentType: ContentType,
                                  originalText: string, translatedText: string, context: string, anonymous: bool)
    ensures StatusConsistent(NewContribution(user, language, kind, contentType, originalText,
                                             translatedText, context, anonymous))
  {
  }

  /** Both thresholds cannot hold at once once there are votes, so a status is never ambiguous. */
  lemma ThresholdsExclusive(c: Contribution)
    requires c.validationsCount > 0
    ensures !(MeetsAcceptance(c) && MeetsRejection(c))
  {
  }

  lemma ApplyVoteConsistent(c: Contribution, isValid: bool)
    requires StatusConsistent(c)
    ensures StatusConsistent(ApplyVote(c, isValid))
  {
  }

  /** The votes of a sequence applied in order. */
  function ApplyVotes(c: Contribution, votes: seq<bool>): (r: Contribution)
    decreases |votes|
  {
    if votes == [] then c else ApplyVotes(ApplyVote(c, votes[0]), votes[1..])
  }

  function CountTrue(votes: seq<bool>): (n: nat)
    ensures n <= |votes|
  {
    if votes == [] then 0 else (if votes[0] then 1 else 0) + CountTrue(votes[1..])
  }

  /** After any sequence of votes the counters hold exactly the votes, the status is consistent
    * with them, and nothing but counters and status has changed. */
  lemma {:induction false} ApplyVotesSummary(c: Contribution, votes: seq<bool>)
    requires StatusConsistent(c)
    ensures var r := ApplyVotes(c, votes);
      && r.validationsCount == c.validationsCount + |votes|
      && r.positiveValidations == c.positiveValidations + CountTrue(votes)
      && StatusConsistent(r)
      && r == c.(validationsCount := r.validationsCount, positiveValidations := r.positiveValidations,
                 status := r.status)
    decreases |votes|
  {
    if votes != [] {
      ApplyVoteConsistent(c, votes[0]);
      ApplyVotesSummary(ApplyVote(c, votes[0]), votes[1..]);
    }
  }

  /** `validated` is not final: three approvals validate a new contribution, and seven
    * rejections after them reject it. */
  lemma ValidatedIsNotTerminal(c: Contribution)
    requires c.validationsCount == 0 && c.positiveValidations == 0 && c.status == Pending
    ensures ApplyVotes(c, [true, true, true]).status == Validated
    ensures ApplyVotes(ApplyVotes(c, [true, true, true]), [false, false, false, false, false, false, false]).status == Rejected
  {
    var approvals := [true, true, true];
    var rejections := [false, false, false, false, false, false, false];
    assert CountTrue(approvals) == 3 by {
      assert approvals[1..] == [true, true] && approvals[1..][1..] == [true];
    }
    ApplyVotesSummary(c, approvals);
    var validated := ApplyVotes(c, approvals);
    assert CountTrue(rejections) == 0 by {
      CountTrueNone(rejections);
    }
    ApplyVotesSummary(validated, rejections);
  }

  lemma {:induction false} CountTrueNone(votes: seq<bool>)
    requires forall i | 0 <= i < |votes| :: !votes[i]
    ensures CountTrue(votes) == 0
  {
    if votes != [] {
      CountTrueNone(votes[1..]);
    }
  }

  datatype SaveError = IntegrityError

  /** `Validation.save()` for a validation without a primary key: the insert (refused by the
    * unique constraint for a second validation of the same pair), then the counter updates. */
  method SaveNewValidation(db: Database, contribution: ContributionId, validator: UserId,
                           isValid: bool, feedback: string)
    returns (r: Result<nat, SaveError>)
    requires db.Valid()
    requires contribution in db.contributions && validator in db.users
    modifies db
    ensures db.Valid()
    ensures HasValidation(old(db.validations), contribution, validator) ==>
      r == Failure(IntegrityError) && unchanged(db)
    ensures !HasValidation(old(db.validations), contribution, validator) ==>
      && r == Success(|old(db.validations)|)
      && db.validations == old(db.validations) + [Validation(contribution, validator, isValid, feedback)]
      && db.contributions == old(db.contributions)[contribution := ApplyVote(old(db.contributions)[contribution], isValid)]
      && db.users == old(db.users)[validator := old(db.users)[validator].(totalValidations := old(db.users)[validator].totalValidations + 1)]
      && db.languages == old(db.languages) && db.nextContributionId == old(db.nextContributionId)
    ensures old(db.CountersMatch()) ==> db.CountersMatch()
    ensures old(db.StatsMatch()) ==> db.StatsMatch()
  {
    if HasValidation(db.validations, contribution, validator) {
      return Failure(IntegrityError);
    }
    var v := Validation(contribution, validator, isValid, feedback);
    var users := db.users[validator := db.users[validator].(totalValidations := db.users[validator].totalValidations + 1)];
    var rows := db.contributions[contribution := ApplyVote(db.contributions[contribution], isValid)];
    var vs := db.validations + [v];
    VoteKeepsIntegrity(db.users, db.languages, db.contributions, db.validations, v, db.nextContributionId,
                       users, rows, vs);
    VoteKeepsCounters(db.users, db.languages, db.contributions, db.validations, v, users, rows, vs);
    VoteKeepsStats(db.users, db.languages, db.contributions, db.validations, v, users, rows, vs);
    r := Success(|db.validations|);
    db.validations, db.contributions, db.users := vs, rows, users;
  }

  /** Counting a new vote `v`, after which the tables are `users'`, `cs'` and `vs'`, keeps the
    * tables consistent. */
  lemma VoteKeepsIntegrity(users: map<UserId, User>, languages: map<string, Language>,
                        cs: map<ContributionId, Contribution>, vs: seq<Validation>, v: Validation, next: ContributionId,
                        users': map<UserId, User>, cs': map<ContributionId, Contribution>, vs': seq<Validation>)
    requires v.contribution in cs && v.validator in users
    requires users' == users[v.validator := users[v.validator].(totalValidations := users[v.validator].totalValidations + 1)]
    requires cs' == cs[v.contribution := ApplyVote(cs[v.contribution], v.isValid)]
    requires vs' == vs + [v]
    ensures Integrity(users, languages, cs, vs, next) && !HasValidation(vs, v.contribution, v.validator) ==>
      Integrity(users', languages, cs', vs', next)
  {
    if Integrity(users, languages, cs, vs, next) && !HasValidation(vs, v.contribution, v.validator) {
      forall i, j | 0 <= i < j < |vs'|
        ensures vs'[i].contribution != vs'[j].contribution || vs'[i].validator != vs'[j].validator
      {
        if j == |vs| {
          assert vs'[i] == vs[i];
        }
      }
    }
  }

  /** Counting a new vote keeps every contribution's counters equal to its validations. */
  lemma VoteKeepsCounters(users: map<UserId, User>, languages: map<string, Language>,
                        cs: map<ContributionId, Contribution>, vs: seq<Validation>, v: Validation,
                        users': map<UserId, User>, cs': map<ContributionId, Contribution>, vs': seq<Validation>)
    requires v.contribution in cs && v.validator in users
    requires users' == users[v.validator := users[v.validator].(totalValidations := users[v.validator].totalValidations + 1)]
    requires cs' == cs[v.contribution := ApplyVote(cs[v.contribution], v.isValid)]
    requires vs' == vs + [v]
    ensures CountersHold(cs, vs) ==> CountersHold(cs', vs')
  {
    forall id | id in cs
      ensures CountFor(vs', id) == CountFor(vs, id) + (if id == v.contribution then 1 else 0)
      ensures PositiveFor(vs', id) == PositiveFor(vs, id) + (if id == v.contribution && v.isValid then 1 else 0)
    {
      CountForAppend(vs, v, id);
    }
  }

  /** Counting a new vote keeps every language and user counter in agreement with the tables. */
  lemma VoteKeepsStats(users: map<UserId, User>, languages: map<string, Language>,
                        cs: map<ContributionId, Contribution>, vs: seq<Validation>, v: Validation,
                        users': map<UserId, User>, cs': map<ContributionId, Contribution>, vs': seq<Validation>)
    requires v.contribution in cs && v.validator in users
    requires users' == users[v.validator := users[v.validator].(totalValidations := users[v.validator].totalValidations + 1)]
    requires cs' == cs[v.contribution := ApplyVote(cs[v.contribution], v.isValid)]
    requires vs' == vs + [v]
    ensures StatsHold(users, languages, cs, vs) ==> StatsHold(users', languages, cs', vs')
  {
    var voted := ApplyVote(cs[v.contribution], v.isValid);
    assert SameCategory(voted, cs[v.contribution]);
    forall code | code in languages
      ensures Select(cs', OfLanguage(code)) == Select(cs, OfLanguage(code))
      ensures Select(cs', WordsOf(code)) == Select(cs, WordsOf(code))
      ensures Select(cs', SentencesOf(code)) == Select(cs, SentencesOf(code))
      ensures Select(cs', AudioOf(code)) == Select(cs, AudioOf(code))
    {
      SelectUpdate(cs, v.contribution, voted, OfLanguage(code));
      SelectUpdate(cs, v.contribution, voted, WordsOf(code));
      SelectUpdate(cs, v.contribution, voted, SentencesOf(code));
      SelectUpdate(cs, v.contribution, voted, AudioOf(code));
    }
    forall u | u in users
      ensures Select(cs', ByUser(u)) == Select(cs, ByUser(u))
      ensures ValidationsBy(vs', u) == ValidationsBy(vs, u) + (if u == v.validator then 1 else 0)
    {
      SelectUpdate(cs, v.contribution, voted, ByUser(u));
      ValidationsByAppend(vs, v, u);
    }
  }

  /** `Validation.save()` for a validation that already has a primary key: the row is updated and
    * nothing else changes. */
  method ResaveValidation(db: Database, pk: nat, isValid: bool, feedback: string)
    requires db.Valid() && pk < |db.validations|
    modifies db
    ensures db.Valid()
    ensures db.validations == old(db.validations)[pk := old(db.validations)[pk].(isValid := isValid, feedback := feedback)]
    ensures db.contributions == old(db.contributions) && db.users == old(db.users)
    ensures db.languages == old(db.languages) && db.nextContributionId == old(db.nextContributionId)
  {
    db.validations := db.validations[pk := db.validations[pk].(isValid := isValid, feedback := feedback)];
  }
}
