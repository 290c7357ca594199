/** The validation endpoints: the guards in front of `Validation.save` when a validation is
  * created, and the querysets the list and detail views return. */
module ValidationViews {
  import opened Wrappers
  import opened ContributionModel
  import opened Tables
  import opened ValidationModel

  /** The two `ValidationError`s `perform_create` raises. */
  datatype CreateError = AlreadyValidated | OwnContribution

  function CreateErrorMessage(e: CreateError): string
  {
    match e
    case AlreadyValidated => "You have already validated this contribution"
    case OwnContribution => "You cannot validate your own contribution"
  }

  /** The guards of `perform_create`, in their order: the duplicate check runs first, so a second
    * validation of one's own contribution reports the duplicate. */
  function CreateGuard(vs: seq<Validation>, owner: UserId, user: UserId, c: ContributionId): (r: Option<CreateError>)
    ensures r == Some(AlreadyValidated) <==> HasValidation(vs, c, user)
    ensures r == Some(OwnContribution) <==> !HasValidation(vs, c, user) && owner == user
    ensures r == None <==> !HasValidation(vs, c, user) && owner != user
  {
    if HasValidation(vs, c, user) then Some(AlreadyValidated)
    else if owner == user then Some(OwnContribution)
    else None
  }

  /** Nobody has validated their own contribution. */
  ghost predicate NoSelfValidation(cs: map<ContributionId, Contribution>, vs: seq<Validation>)
  {
    forall i | 0 <= i < |vs| && vs[i].contribution in cs :: vs[i].validator != cs[vs[i].contribution].user
  }

  /** A vote by someone other than the author, counted into `cs'` and `vs'`, keeps it so. */
  lemma VoteKeepsNoSelf(cs: map<ContributionId, Contribution>, vs: seq<Validation>, v: Validation,
                        cs': map<ContributionId, Contribution>, vs': seq<Validation>)
    requires v.contribution in cs && v.validator != cs[v.contribution].user
    requires cs' == cs[v.contribution := ApplyVote(cs[v.contribution], v.isValid)]
    requires vs' == vs + [v]
    ensures NoSelfValidation(cs, vs) ==> NoSelfValidation(cs', vs')
  {
    if NoSelfValidation(cs, vs) {
      forall i | 0 <= i < |vs'| && vs'[i].contribution in cs'
        ensures vs'[i].validator != cs'[vs'[i].contribution].user
      {
        if i < |vs| {
          assert vs'[i] == vs[i];
        }
      }
    }
  }

  /** `ValidationCreateView.perform_create`: the guards, then `serializer.save(validator=user)`,
    * which is a first save of the validation. */
  method CreateValidation(db: Database, user: UserId, contribution: ContributionId, isValid: bool, feedback: string)
    returns (r: Result<nat, CreateError>)
    requires db.Valid()
    requires contribution in db.contributions && user in db.users
    modifies db
    ensures db.Valid()
    ensures CreateGuard(old(db.validations), old(db.contributions)[contribution].user, user, contribution).Some? ==>
      && r == Failure(CreateGuard(old(db.validations), old(db.contributions)[contribution].user, user, contribution).value)
      && unchanged(db)
    ensures CreateGuard(old(db.validations), old(db.contributions)[contribution].user, user, contribution).None? ==>
      && r == Success(|old(db.validations)|)
      && db.validations == old(db.validations) + [Validation(contribution, user, isValid, feedback)]
      && db.contributions == old(db.contributions)[contribution := ApplyVote(old(db.contributions)[contribution], isValid)]
      && db.users == old(db.users)[user := old(db.users)[user].(totalValidations := old(db.users)[user].totalValidations + 1)]
      && db.languages == old(db.languages) && db.nextContributionId == old(db.nextContributionId)
    ensures old(db.CountersMatch()) ==> db.CountersMatch()
    ensures old(db.StatsMatch()) ==> db.StatsMatch()
    ensures old(NoSelfValidation(db.contributions, db.validations)) ==> NoSelfValidation(db.contributions, db.validations)
  {
    var guard := CreateGuard(db.validations, db.contributions[contribution].user, user, contribution);
    if guard.Some? {
      return Failure(guard.value);
    }
    ghost var cs, vs := db.contributions, db.validations;
    var saved := SaveNewValidation(db, contribution, user, isValid, feedback);
    VoteKeepsNoSelf(cs, vs, Validation(contribution, user, isValid, feedback), db.contributions, db.validations);
    r := Success(saved.value);
  }

  /** `Contribution.objects.get` of an id that is not in the table. */
  datatype ListError = DoesNotExist

  /** `ValidationListView.get_queryset`, as the set of primary keys it selects. */
  function ListValidations(vs: seq<Validation>, cs: map<ContributionId, Contribution>, user: UserId,
                           pendingOnly: bool, contributionId: Option<ContributionId>): (r: Result<set<nat>, ListError>)
    // `pending_only` returns the empty queryset
    ensures pendingOnly ==> r == Success({})
    // an unknown contribution id raises
    ensures !pendingOnly && contributionId.Some? && contributionId.value !in cs ==> r == Failure(DoesNotExist)
    ensures r.Success? ==> forall pk | pk in r.value :: pk < |vs|
    // the owner of the named contribution sees all of its validations
    ensures !pendingOnly && contributionId.Some? && contributionId.value in cs && cs[contributionId.value].user == user ==>
      r.Success? && forall pk | 0 <= pk < |vs| :: pk in r.value <==> vs[pk].contribution == contributionId.value
    // everybody else sees the validations they made
    ensures !pendingOnly && (contributionId.None? || (contributionId.value in cs && cs[contributionId.value].user != user)) ==>
      r.Success? && forall pk | 0 <= pk < |vs| :: pk in r.value <==> vs[pk].validator == user
  {
    var mine := set pk | 0 <= pk < |vs| && vs[pk].validator == user;
    if pendingOnly then Success({})
    else match contributionId
      case None => Success(mine)
      case Some(id) =>
        if id !in cs then Failure(DoesNotExist)
        else if cs[id].user == user then Success(set pk | 0 <= pk < |vs| && vs[pk].contribution == id)
        else Success(mine)
  }

  /** Whether `user` wrote contribution `c`. */
  predicate Owns(cs: map<ContributionId, Contribution>, c: ContributionId, user: UserId)
  {
    c in cs && cs[c].user == user
  }

  /** A queryset of validations as the detail view builds one: the rows one `filter` selects, or
    * the `union` of two filtered querysets. */
  datatype Queryset = Rows(pks: set<nat>) | Union(left: set<nat>, right: set<nat>)

  /** Why a lookup by primary key finds nothing: no such row in the queryset (a 404), or the ORM
    * refusing a filtered `get` on a combined queryset (`NotSupportedError`). */
  datatype LookupError = NotFound | NotSupported

  /** `get_object_or_404(queryset, pk=pk)`, which calls `queryset.get(pk=pk)`. Django allows only
    * slicing, counting, ordering and column selection after `union()`, so a `get` with a filter
    * on a union fails whatever the key. */
  function GetByPk(vs: seq<Validation>, q: Queryset, pk: nat): (r: Result<Validation, LookupError>)
    ensures q.Union? ==> r == Failure(NotSupported)
    ensures q.Rows? ==> (r.Success? <==> pk in q.pks && pk < |vs|)
    ensures r.Success? ==> pk < |vs| && r.value == vs[pk]
  {
    match q
    case Union(_, _) => Failure(NotSupported)
    case Rows(pks) => if pk in pks && pk < |vs| then Success(vs[pk]) else Failure(NotFound)
  }

  /** `Validation.objects.filter(validator=user)` */
  function MadeBy(vs: seq<Validation>, user: UserId): set<nat>
  {
    set pk | 0 <= pk < |vs| && vs[pk].validator == user
  }

  /** `Validation.objects.filter(contribution__user=user)` */
  function OnContributionsOf(vs: seq<Validation>, cs: map<ContributionId, Contribution>, user: UserId): set<nat>
  {
    set pk | 0 <= pk < |vs| && Owns(cs, vs[pk].contribution, user)
  }

  /** `ValidationDetailView` as written: the key lookup runs on the union `get_queryset` returns. */
  function RetrieveAsWritten(vs: seq<Validation>, cs: map<ContributionId, Contribution>, user: UserId, pk: nat)
    : Result<Validation, LookupError>
  {
    GetByPk(vs, Union(MadeBy(vs, user), OnContributionsOf(vs, cs, user)), pk)
  }

  /** As written, the detail view cannot open any validation, not even one the user made, which
    * the intended lookup finds. */
  lemma RetrieveAsWrittenRefusesOwn(vs: seq<Validation>, cs: map<ContributionId, Contribution>, user: UserId, pk: nat)
    requires pk < |vs| && vs[pk].validator == user
    ensures RetrieveAsWritten(vs, cs, user, pk) == Failure(NotSupported)
    ensures RetrieveValidation(vs, cs, user, pk) == Success(vs[pk])
  {
  }

  /** `ValidationDetailView` as intended: one queryset holding the validations the user made and
    * those on the user's contributions (`filter(Q(validator=user) | Q(contribution__user=user))`),
    * then the key lookup. A validation is found exactly when the user made it or owns the
    * contribution it is about. */
  function RetrieveValidation(vs: seq<Validation>, cs: map<ContributionId, Contribution>, user: UserId, pk: nat)
    : (r: Result<Validation, LookupError>)
    ensures r.Success? <==> pk < |vs| && (vs[pk].validator == user || Owns(cs, vs[pk].contribution, user))
    ensures r.Success? ==> r.value == vs[pk]
    ensures r.Failure? ==> r.error == NotFound
  {
    GetByPk(vs, Rows(MadeBy(vs, user) + OnContributionsOf(vs, cs, user)), pk)
  }

  /** Every validation a user can list, they can also open. */
  lemma ListedAreRetrievable(vs: seq<Validation>, cs: map<ContributionId, Contribution>, user: UserId,
                             pendingOnly: bool, contributionId: Option<ContributionId>, pk: nat)
    requires ListValidations(vs, cs, user, pendingOnly, contributionId).Success?
    requires pk in ListValidations(vs, cs, user, pendingOnly, contributionId).value
    ensures RetrieveValidation(vs, cs, user, pk) == Success(vs[pk])
  {
    if contributionId.Some? && contributionId.value in cs && cs[contributionId.value].user == user {
      assert vs[pk].contribution == contributionId.value;
    }
  }

  /** A successful creation is at once in the creator's list and retrievable by them and by the
    * author of the contribution. */
  lemma CreatedIsVisible(vs: seq<Validation>, cs: map<ContributionId, Contribution>, v: Validation)
    requires v.contribution in cs
    ensures var vs' := vs + [v];
      && |vs| in ListValidations(vs', cs, v.validator, false, None).value
      && RetrieveValidation(vs', cs, v.validator, |vs|) == Success(v)
      && RetrieveValidation(vs', cs, cs[v.contribution].user, |vs|) == Success(v)
  {
  }
}
