/** The management command that fills the validations table with test data: for every
  * contribution it picks one to three other users at random and has each of them validate it,
  * skipping pairs that already exist. The random choices are left open (`:|`). */
module TestValidations {
  import opened Wrappers
  import opened ContributionModel
  import opened Tables
  import opened ValidationModel
  import opened ValidationViews

  /** The feedback texts the command picks from; the empty one stands for no feedback. */
  const FeedbackOptions: seq<string> := [
    "Looks correct!",
    "Good translation.",
    "This is accurate.",
    "Well done.",
    "Perfect match.",
    "Could be improved but acceptable.",
    "Not quite right.",
    "Needs improvement.",
    ""
  ]

  /** The two conditions under which the command stops before creating anything. */
  datatype GenerateError = TooFewUsers | NoContributions

  /** Whether the table holds some validation of contribution `c`. */
  predicate Validated(vs: seq<Validation>, c: ContributionId)
  {
    exists i | 0 <= i < |vs| :: vs[i].contribution == c
  }

  /** The validations from position `from` on are about contributions of `cs` and were made by
    * someone other than their author. */
  ghost predicate NotByAuthorFrom(cs: map<ContributionId, Contribution>, vs: seq<Validation>, from: nat)
  {
    forall i | from <= i < |vs| :: vs[i].contribution in cs && vs[i].validator != cs[vs[i].contribution].user
  }

  /** What `Validation.save` adds to the contribution row for vote `v`. */
  ghost function Tally(cs: map<ContributionId, Contribution>, v: Validation): map<ContributionId, Contribution>
  {
    if v.contribution in cs then cs[v.contribution := ApplyVote(cs[v.contribution], v.isValid)] else cs
  }

  /** What `Validation.save` adds to the validator's row for vote `v`. */
  ghost function Credit(users: map<UserId, User>, v: Validation): map<UserId, User>
  {
    if v.validator in users then users[v.validator := users[v.validator].(totalValidations := users[v.validator].totalValidations + 1)]
    else users
  }

  /** The contribution rows after saving the validations `added`, in order. The saves change only
    * counters and status: every row keeps its author, language and kind. */
  ghost function TallyAll(cs: map<ContributionId, Contribution>, added: seq<Validation>): (r: map<ContributionId, Contribution>)
    ensures r.Keys == cs.Keys
    ensures forall id | id in r :: SameCategory(r[id], cs[id])
  {
    if added == [] then cs
    else
      var before := TallyAll(cs, added[..|added| - 1]);
      assert forall id | id in before :: SameCategory(before[id], cs[id]);
      Tally(before, added[|added| - 1])
  }

  /** The user rows after saving the validations `added`, in order. */
  ghost function CreditAll(users: map<UserId, User>, added: seq<Validation>): (r: map<UserId, User>)
    ensures r.Keys == users.Keys
  {
    if added == [] then users else Credit(CreditAll(users, added[..|added| - 1]), added[|added| - 1])
  }

  /** Saving a run of validations of existing contributions by existing users keeps every
    * counter in agreement with the tables, as saving each one does. */
  lemma {:induction false} SavesKeepCounters(users: map<UserId, User>, languages: map<string, Language>,
                                             cs: map<ContributionId, Contribution>, vs: seq<Validation>,
                                             added: seq<Validation>)
    requires forall i | 0 <= i < |added| :: added[i].contribution in cs && added[i].validator in users
    ensures CountersHold(cs, vs) ==> CountersHold(TallyAll(cs, added), vs + added)
    ensures StatsHold(users, languages, cs, vs) ==>
      StatsHold(CreditAll(users, added), languages, TallyAll(cs, added), vs + added)
    decreases |added|
  {
    if added == [] {
      assert vs + added == vs;
    } else {
      var init, v := added[..|added| - 1], added[|added| - 1];
      assert vs + added == (vs + init) + [v];
      assert v.contribution in cs && v.validator in users;
      SavesKeepCounters(users, languages, cs, vs, init);
      SaveKeepsCounters(CreditAll(users, init), languages, TallyAll(cs, init), vs + init, v);
    }
  }

  /** One save keeps the counters and the statistics in agreement with the tables. */
  lemma SaveKeepsCounters(users: map<UserId, User>, languages: map<string, Language>,
                          cs: map<ContributionId, Contribution>, vs: seq<Validation>, v: Validation)
    requires v.contribution in cs && v.validator in users
    ensures CountersHold(cs, vs) ==> CountersHold(Tally(cs, v), vs + [v])
    ensures StatsHold(users, languages, cs, vs) ==> StatsHold(Credit(users, v), languages, Tally(cs, v), vs + [v])
  {
    VoteKeepsCounters(users, languages, cs, vs, v, Credit(users, v), Tally(cs, v), vs + [v]);
    VoteKeepsStats(users, languages, cs, vs, v, Credit(users, v), Tally(cs, v), vs + [v]);
  }

  /** Saving validations made by people other than the author keeps `NoSelfValidation`. */
  lemma SavesKeepNoSelf(cs: map<ContributionId, Contribution>, vs: seq<Validation>, added: seq<Validation>)
    requires NotByAuthorFrom(cs, vs + added, |vs|)
    ensures NoSelfValidation(cs, vs) ==> NoSelfValidation(TallyAll(cs, added), vs + added)
  {
    var cs' := TallyAll(cs, added);
    if NoSelfValidation(cs, vs) {
      forall i | 0 <= i < |vs + added| && (vs + added)[i].contribution in cs'
        ensures (vs + added)[i].validator != cs'[(vs + added)[i].contribution].user
      {
        var c := (vs + added)[i].contribution;
        assert SameCategory(cs'[c], cs[c]);
        if i < |vs| {
          assert (vs + added)[i] == vs[i];
        }
      }
    }
  }

  /** The tables `vs`, `cs`, `users` are `vs0`, `cs0`, `users0` after saving the validations
    * appended to `vs0`. */
  ghost predicate Recorded(vs0: seq<Validation>, cs0: map<ContributionId, Contribution>, users0: map<UserId, User>,
                           vs: seq<Validation>, cs: map<ContributionId, Contribution>, users: map<UserId, User>)
  {
    && |vs0| <= |vs| && vs[..|vs0|] == vs0
    && cs == TallyAll(cs0, vs[|vs0|..])
    && users == CreditAll(users0, vs[|vs0|..])
  }

  /** Saving one more validation extends `Recorded`. */
  lemma RecordedStep(vs0: seq<Validation>, cs0: map<ContributionId, Contribution>, users0: map<UserId, User>,
                     vs: seq<Validation>, cs: map<ContributionId, Contribution>, users: map<UserId, User>,
                     v: Validation)
    requires Recorded(vs0, cs0, users0, vs, cs, users)
    ensures Recorded(vs0, cs0, users0, vs + [v], Tally(cs, v), Credit(users, v))
  {
    var added := (vs + [v])[|vs0|..];
    assert added[..|added| - 1] == vs[|vs0|..] && added[|added| - 1] == v;
    assert (vs + [v])[..|vs0|] == vs[..|vs0|];
  }

  lemma {:induction false} TallyAllAppend(cs: map<ContributionId, Contribution>, users: map<UserId, User>,
                                          a: seq<Validation>, b: seq<Validation>)
    ensures TallyAll(cs, a + b) == TallyAll(TallyAll(cs, a), b)
    ensures CreditAll(users, a + b) == CreditAll(CreditAll(users, a), b)
    decreases |b|
  {
    if b == [] {
      assert a + b == a;
    } else {
      assert (a + b)[..|a + b| - 1] == a + b[..|b| - 1];
      TallyAllAppend(cs, users, a, b[..|b| - 1]);
    }
  }

  /** `Recorded` composes. */
  lemma RecordedTrans(vs0: seq<Validation>, cs0: map<ContributionId, Contribution>, users0: map<UserId, User>,
                      vs1: seq<Validation>, cs1: map<ContributionId, Contribution>, users1: map<UserId, User>,
                      vs2: seq<Validation>, cs2: map<ContributionId, Contribution>, users2: map<UserId, User>)
    requires Recorded(vs0, cs0, users0, vs1, cs1, users1) && Recorded(vs1, cs1, users1, vs2, cs2, users2)
    ensures Recorded(vs0, cs0, users0, vs2, cs2, users2)
  {
    assert vs2[..|vs0|] == vs2[..|vs1|][..|vs0|];
    assert vs2[|vs0|..] == vs1[|vs0|..] + vs2[|vs1|..];
    TallyAllAppend(cs0, users0, vs1[|vs0|..], vs2[|vs1|..]);
  }

  /** One chosen validator: create the validation unless the pair exists. */
  method ValidateOnce(db: Database, contribution: ContributionId, validator: UserId, isValid: bool, feedback: string)
    returns (created: bool)
    requires db.Valid()
    requires contribution in db.contributions && validator in db.users
    modifies db
    ensures db.Valid()
    ensures created <==> !HasValidation(old(db.validations), contribution, validator)
    ensures !created ==> unchanged(db)
    ensures created ==>
      var v := Validation(contribution, validator, isValid, feedback);
      && db.validations == old(db.validations) + [v]
      && db.contributions == Tally(old(db.contributions), v)
      && db.users == Credit(old(db.users), v)
    ensures db.languages == old(db.languages) && db.nextContributionId == old(db.nextContributionId)
  {
    if HasValidation(db.validations, contribution, validator) {
      return false;
    }
    var saved := SaveNewValidation(db, contribution, validator, isValid, feedback);
    created := true;
  }

  /** `vs` is `vs0` followed by validations of contribution `id` made by members of `voters`. */
  ghost predicate GrownBy(vs0: seq<Validation>, vs: seq<Validation>, id: ContributionId, voters: seq<UserId>)
  {
    && |vs0| <= |vs| && vs[..|vs0|] == vs0
    && forall i | |vs0| <= i < |vs| :: vs[i].contribution == id && vs[i].validator in voters
  }

  /** One more validator's turn keeps `GrownBy`, with that validator added to `voters`. */
  lemma GrownByStep(vs0: seq<Validation>, vs: seq<Validation>, vs': seq<Validation>, id: ContributionId,
                    selected: seq<UserId>, j: nat, isValid: bool, feedback: string)
    requires j < |selected| && GrownBy(vs0, vs, id, selected[..j])
    requires vs' == vs || vs' == vs + [Validation(id, selected[j], isValid, feedback)]
    ensures GrownBy(vs0, vs', id, selected[..j + 1])
  {
    forall i | |vs0| <= i < |vs'|
      ensures vs'[i].contribution == id && vs'[i].validator in selected[..j + 1]
    {
      if i < |vs| {
        assert vs'[i] == vs[i] && vs[i].validator in selected[..j];
      } else {
        assert vs'[i].validator == selected[..j + 1][j];
      }
    }
    assert vs'[..|vs0|] == vs[..|vs0|];
  }

  /** Validator `selected[j]`'s turn in the loop over the chosen validators: a random result and feedback
    * text, and a validation unless the pair exists. */
  method ValidatorTurn(db: Database, id: ContributionId, selected: seq<UserId>, j: nat,
                       ghost vs0: seq<Validation>, ghost cs0: map<ContributionId, Contribution>,
                       ghost users0: map<UserId, User>)
    returns (created: bool)
    requires db.Valid() && id in db.contributions && j < |selected| && selected[j] in db.users
    requires GrownBy(vs0, db.validations, id, selected[..j])
    requires Recorded(vs0, cs0, users0, db.validations, db.contributions, db.users)
    modifies db
    ensures db.Valid()
    ensures db.languages == old(db.languages) && db.nextContributionId == old(db.nextContributionId)
    ensures GrownBy(vs0, db.validations, id, selected[..j + 1])
    ensures Recorded(vs0, cs0, users0, db.validations, db.contributions, db.users)
    ensures |db.validations| == |old(db.validations)| + (if created then 1 else 0)
    ensures Validated(db.validations, id)
  {
    var validator := selected[j];
    var isValid: bool :| true;
    assert FeedbackOptions[8] == "";
    var feedback :| feedback in FeedbackOptions;
    ghost var vs, cs, users := db.validations, db.contributions, db.users;
    created := ValidateOnce(db, id, validator, isValid, feedback);
    if created {
      assert db.validations[|vs|].contribution == id;
      RecordedStep(vs0, cs0, users0, vs, cs, users, Validation(id, validator, isValid, feedback));
    } else {
      ghost var k :| 0 <= k < |vs| && vs[k].contribution == id && vs[k].validator == validator;
    }
    GrownByStep(vs0, vs, db.validations, id, selected, j, isValid, feedback);
  }

  /** The loop over the chosen validators: each one validates contribution `id`; returns how many
    * validations this created. */
  method ValidateContribution(db: Database, id: ContributionId, selected: seq<UserId>) returns (n: nat)
    requires db.Valid() && id in db.contributions
    requires forall j | 0 <= j < |selected| :: selected[j] in db.users
    modifies db
    ensures db.Valid()
    ensures db.languages == old(db.languages) && db.nextContributionId == old(db.nextContributionId)
    // the table only grows, by validations of `id` by the selected users, saved one by one
    ensures GrownBy(old(db.validations), db.validations, id, selected)
    ensures Recorded(old(db.validations), old(db.contributions), old(db.users), db.validations, db.contributions, db.users)
    ensures n == |db.validations| - |old(db.validations)| && n <= |selected|
    // with at least one validator chosen, the contribution ends up validated
    ensures |selected| > 0 ==> Validated(db.validations, id)
  {
    n := 0;
    ghost var vs0, cs0, users0 := db.validations, db.contributions, db.users;
    assert vs0[..|vs0|] == vs0 && vs0[|vs0|..] == [];
    for j := 0 to |selected|
      invariant db.Valid() && id in db.contributions && db.users.Keys == users0.Keys
      invariant db.languages == old(db.languages) && db.nextContributionId == old(db.nextContributionId)
      invariant GrownBy(vs0, db.validations, id, selected[..j])
      invariant Recorded(vs0, cs0, users0, db.validations, db.contributions, db.users)
      invariant n == |db.validations| - |vs0| && n <= j
      invariant j > 0 ==> Validated(db.validations, id)
    {
      var created := ValidatorTurn(db, id, selected, j, vs0, cs0, users0);
      n := n + if created then 1 else 0;
    }
    assert selected[..|selected|] == selected;
  }

  /** Appending validations of `id` changes no other contribution's count, and `id`'s by at most
    * the number appended. */
  lemma {:induction false} CountForGrown(vs: seq<Validation>, vs': seq<Validation>, id: ContributionId,
                                         selected: seq<UserId>, c: ContributionId)
    requires GrownBy(vs, vs', id, selected)
    ensures c != id ==> CountFor(vs', c) == CountFor(vs, c)
    ensures CountFor(vs', c) <= CountFor(vs, c) + (|vs'| - |vs|)
    decreases |vs'|
  {
    if |vs'| == |vs| {
      assert vs' == vs'[..|vs|] == vs;
    } else {
      var init := vs'[..|vs'| - 1];
      assert init[..|vs|] == vs'[..|vs|];
      assert GrownBy(vs, init, id, selected) by {
        forall i | |vs| <= i < |init|
          ensures init[i].contribution == id && init[i].validator in selected
        {
          assert init[i] == vs'[i];
        }
      }
      CountForGrown(vs, init, id, selected, c);
    }
  }

  /** How far the command has got: the old table is a prefix of the new one, every contribution
    * in `done` has a validation, at most three new ones each, and the others have no new one. */
  ghost predicate Progress(vs0: seq<Validation>, vs: seq<Validation>, done: set<ContributionId>,
                           all: set<ContributionId>)
  {
    && |vs0| <= |vs| && vs[..|vs0|] == vs0
    && (forall c | c in done :: Validated(vs, c))
    && (forall c | c in all :: CountFor(vs, c) <= CountFor(vs0, c) + 3)
    && (forall c | c in all && c !in done :: CountFor(vs, c) == CountFor(vs0, c))
  }

  /** Handling one more contribution, with at most three new validations by people other than
    * its author, keeps `Progress` and `NotByAuthorFrom`. */
  lemma ProgressStep(cs0: map<ContributionId, Contribution>, vs0: seq<Validation>, vs: seq<Validation>,
                     vs': seq<Validation>, done: set<ContributionId>, id: ContributionId, selected: seq<UserId>)
    requires Progress(vs0, vs, done, cs0.Keys) && NotByAuthorFrom(cs0, vs, |vs0|)
    requires id in cs0 && id !in done
    requires GrownBy(vs, vs', id, selected) && |vs'| - |vs| <= 3 && Validated(vs', id)
    requires forall j | 0 <= j < |selected| :: selected[j] != cs0[id].user
    ensures Progress(vs0, vs', done + {id}, cs0.Keys) && NotByAuthorFrom(cs0, vs', |vs0|)
  {
    assert vs'[..|vs0|] == vs'[..|vs|][..|vs0|];
    forall c | c in done
      ensures Validated(vs', c)
    {
      var i :| 0 <= i < |vs| && vs[i].contribution == c;
      assert vs'[i] == vs'[..|vs|][i];
    }
    forall c | c in cs0.Keys
      ensures CountFor(vs', c) <= CountFor(vs0, c) + 3
      ensures c !in done + {id} ==> CountFor(vs', c) == CountFor(vs0, c)
    {
      CountForGrown(vs, vs', id, selected, c);
    }
    forall i | |vs0| <= i < |vs'|
      ensures vs'[i].contribution in cs0 && vs'[i].validator != cs0[vs'[i].contribution].user
    {
      if i < |vs| {
        assert vs'[i] == vs'[..|vs|][i];
      }
    }
  }

  /** `random.sample(pool, k)`: `k` distinct members of `pool`, in the order they were drawn. */
  method Sample(pool: set<UserId>, k: nat) returns (selected: seq<UserId>)
    requires k <= |pool|
    ensures |selected| == k
    ensures forall i | 0 <= i < |selected| :: selected[i] in pool
    ensures forall i, j | 0 <= i < j < |selected| :: selected[i] != selected[j]
  {
    selected := [];
    var rest := pool;
    while |selected| < k
      invariant rest <= pool && |rest| == |pool| - |selected| && |selected| <= k
      invariant forall i | 0 <= i < |selected| :: selected[i] in pool && selected[i] !in rest
      invariant forall i, j | 0 <= i < j < |selected| :: selected[i] != selected[j]
      decreases k - |selected|
    {
      var v :| v in rest;
      selected := selected + [v];
      rest := rest - {v};
    }
  }

  function Min(a: nat, b: nat): (m: nat)
    ensures m <= a && m <= b && (m == a || m == b)
  {
    if a <= b then a else b
  }

  /** What holds while the loop over the contributions runs, `done` being the contributions handled. */
  ghost predicate Generating(users: map<UserId, User>, cs: map<ContributionId, Contribution>, vs: seq<Validation>,
                             vs0: seq<Validation>, cs0: map<ContributionId, Contribution>,
                             users0: map<UserId, User>, done: set<ContributionId>)
  {
    && Recorded(vs0, cs0, users0, vs, cs, users)
    && Progress(vs0, vs, done, cs0.Keys)
    && NotByAuthorFrom(cs0, vs, |vs0|)
  }

  /** One pass of the loop over the contributions: draw one to three validators other than the author
    * and have each of them validate contribution `id`. */
  method ValidateRandomly(db: Database, id: ContributionId, ghost vs0: seq<Validation>,
                          ghost cs0: map<ContributionId, Contribution>, ghost users0: map<UserId, User>,
                          ghost done: set<ContributionId>)
    returns (n: nat)
    requires db.Valid() && id in cs0 && id !in done && |users0| >= 2
    requires Generating(db.users, db.contributions, db.validations, vs0, cs0, users0, done)
    modifies db
    ensures db.Valid()
    ensures Generating(db.users, db.contributions, db.validations, vs0, cs0, users0, done + {id})
    ensures db.languages == old(db.languages) && db.nextContributionId == old(db.nextContributionId)
    ensures n == |db.validations| - |old(db.validations)|
  {
    var author := db.contributions[id].user;
    assert author == cs0[id].user by {
      assert SameCategory(db.contributions[id], cs0[id]);
    }
    var eligible := db.users.Keys - {author};
    assert |eligible| >= 1 by {
      assert |db.users.Keys| == |users0.Keys| == |users0|;
      assert |eligible| == |db.users.Keys| - 1;
    }
    var most := Min(3, |eligible|);
    var k :| 1 <= k <= most;
    var selected := Sample(eligible, k);
    ghost var vs, cs, users := db.validations, db.contributions, db.users;
    n := ValidateContribution(db, id, selected);
    ProgressStep(cs0, vs0, vs, db.validations, done, id, selected);
    RecordedTrans(vs0, cs0, users0, vs, cs, users, db.validations, db.contributions, db.users);
  }

  /** Moving `id` from the contributions still to handle to those handled. */
  lemma Handled(all: set<ContributionId>, remaining: set<ContributionId>, id: ContributionId)
    requires id in remaining && remaining <= all
    ensures all - (remaining - {id}) == (all - remaining) + {id}
    ensures |remaining - {id}| < |remaining|
  {
  }

  /** The loop over every contribution; returns `validations_created`. */
  method ValidateAll(db: Database) returns (created: nat)
    requires db.Valid() && |db.users| >= 2
    modifies db
    ensures db.Valid()
    ensures created == |db.validations| - |old(db.validations)|
    ensures Generating(db.users, db.contributions, db.validations, old(db.validations), old(db.contributions),
                       old(db.users), old(db.contributions).Keys)
    ensures db.languages == old(db.languages) && db.nextContributionId == old(db.nextContributionId)
  {
    ghost var vs0, cs0, users0 := db.validations, db.contributions, db.users;
    created := 0;
    var remaining := db.contributions.Keys;
    assert vs0[..|vs0|] == vs0 && vs0[|vs0|..] == [];
    while remaining != {}
      invariant db.Valid() && remaining <= cs0.Keys
      invariant Generating(db.users, db.contributions, db.validations, vs0, cs0, users0, cs0.Keys - remaining)
      invariant db.languages == old(db.languages) && db.nextContributionId == old(db.nextContributionId)
      invariant created == |db.validations| - |vs0|
      decreases |remaining|
    {
      var id :| id in remaining;
      var n := ValidateRandomly(db, id, vs0, cs0, users0, cs0.Keys - remaining);
      created := created + n;
      Handled(cs0.Keys, remaining, id);
      remaining := remaining - {id};
    }
  }

  /** `Command.handle`: stops with an error when there are fewer than two users or no
    * contributions; otherwise every contribution gets one to three validations by other users
    * (fewer where a chosen pair exists already), each saved as `Validation.save` saves it, and
    * the result is the number created. */
  method GenerateTestValidations(db: Database) returns (r: Result<nat, GenerateError>)
    requires db.Valid()
    modifies db
    ensures db.Valid()
    ensures |old(db.users)| < 2 ==> r == Failure(TooFewUsers) && unchanged(db)
    ensures |old(db.users)| >= 2 && old(db.contributions) == map[] ==> r == Failure(NoContributions) && unchanged(db)
    ensures |old(db.users)| >= 2 && old(db.contributions) != map[] ==>
      && r.Success?
      && r.value == |db.validations| - |old(db.validations)|
      // every contribution is validated, at most three times more than before
      && Progress(old(db.validations), db.validations, old(db.contributions).Keys, old(db.contributions).Keys)
      // and never by its author
      && NotByAuthorFrom(old(db.contributions), db.validations, |old(db.validations)|)
    // the new validations were saved one by one, and nothing else changed
    ensures Recorded(old(db.validations), old(db.contributions), old(db.users), db.validations, db.contributions, db.users)
    ensures db.languages == old(db.languages) && db.nextContributionId == old(db.nextContributionId)
    ensures old(db.CountersMatch()) ==> db.CountersMatch()
    ensures old(db.StatsMatch()) ==> db.StatsMatch()
    ensures old(NoSelfValidation(db.contributions, db.validations)) ==> NoSelfValidation(db.contributions, db.validations)
  {
    if |db.users| < 2 {
      assert db.validations[..|db.validations|] == db.validations && db.validations[|db.validations|..] == [];
      return Failure(TooFewUsers);
    }
    if db.contributions == map[] {
      assert db.validations[..|db.validations|] == db.validations && db.validations[|db.validations|..] == [];
      return Failure(NoContributions);
    }
    ghost var vs0, cs0, users0 := db.validations, db.contributions, db.users;
    var created := ValidateAll(db);
    RecordedKeepsTables(users0, db.languages, cs0, vs0, db.nextContributionId, db.users, db.contributions, db.validations);
    r := Success(created);
  }

  /** Tables reached from `vs0`, `cs0`, `users0` by saving validations made by people other than
    * the author keep every counter in agreement and keep `NoSelfValidation`. */
  lemma RecordedKeepsTables(users0: map<UserId, User>, languages: map<string, Language>,
                            cs0: map<ContributionId, Contribution>, vs0: seq<Validation>, next: ContributionId,
                            users: map<UserId, User>, cs: map<ContributionId, Contribution>, vs: seq<Validation>)
    requires Integrity(users, languages, cs, vs, next)
    requires Recorded(vs0, cs0, users0, vs, cs, users)
    requires NotByAuthorFrom(cs0, vs, |vs0|)
    ensures CountersHold(cs0, vs0) ==> CountersHold(cs, vs)
    ensures StatsHold(users0, languages, cs0, vs0) ==> StatsHold(users, languages, cs, vs)
    ensures NoSelfValidation(cs0, vs0) ==> NoSelfValidation(cs, vs)
  {
    var added := vs[|vs0|..];
    assert vs == vs0 + added;
    forall i | 0 <= i < |added|
      ensures added[i].contribution in cs0 && added[i].validator in users0
    {
      assert added[i] == vs[|vs0| + i];
    }
    SavesKeepCounters(users0, languages, cs0, vs0, added);
    SavesKeepNoSelf(cs0, vs0, added);
  }
}
