/** The `add_kenyan_languages` management command: an upsert of a fixed list of Kenyan
  * languages into the languages table, tallying what it created, updated and left unchanged. */
module KenyanLanguages {
  import opened ContributionModel
  import opened Tables

  /** One element of the command's list. */
  datatype Entry = Entry(code: string, name: string, category: Category, description: string)

  const KenyanLanguageList: seq<Entry> := [
      Entry("sw", "Kiswahili", Bantu, "National language of Kenya and lingua franca in East Africa."),
      Entry("kik", "Gikuyu", Bantu, "Language of the Kikuyu people, the largest ethnic group in Kenya."),
      Entry("luo", "Dholuo", Nilotic, "Language of the Luo people, primarily spoken in Western Kenya."),
      Entry("kam", "Kamba", Bantu, "Language of the Kamba people, mainly spoken in Eastern Kenya."),
      Entry("kal", "Kalenjin", Nilotic, "Language cluster spoken by the Kalenjin people in the Rift Valley region."),
      Entry("luy", "Luhya", Bantu, "Language cluster spoken by the Luhya people in Western Kenya."),
      Entry("mer", "Kimeru", Bantu, "Language of the Meru people, spoken around Mount Kenya region."),
      Entry("som", "Somali", Cushitic, "Language spoken by Somali people in North Eastern Kenya."),
      Entry("mas", "Maasai", Nilotic, "Language of the Maasai people in Southern Kenya and Northern Tanzania."),
      Entry("tec", "Terik", Nilotic, "Language spoken by the Terik people in Western Kenya."),
      Entry("guz", "Ekegusii", Bantu, "Language of the Kisii people in southwestern Kenya."),
      Entry("dav", "Taita", Bantu, "Language spoken in the Taita Hills of southeastern Kenya."),
      Entry("ebu", "Kiembu", Bantu, "Language of the Embu people in east-central Kenya."),
      Entry("saq", "Samburu", Nilotic, "Language of the Samburu people in north-central Kenya."),
      Entry("pko", "Pokot", Nilotic, "Language spoken by the Pokot people in northwestern Kenya."),
      Entry("tuv", "Turkana", Nilotic, "Language of the Turkana people in northwestern Kenya."),
      Entry("kln", "Nandi", Nilotic, "Language of the Nandi people, a subgroup of Kalenjin in the Rift Valley."),
      Entry("teo", "Ateso", Nilotic, "Language of the Iteso people in western Kenya."),
      Entry("ksb", "Shambala", Bantu, "Language spoken near the border with Tanzania."),
      Entry("luy-lsm", "Lusamia", Bantu, "Dialect of Luhya spoken in western Kenya."),
      Entry("orm", "Oromo", Cushitic, "Language spoken in parts of northern Kenya, primarily by the Oromo people."),
      Entry("rab", "Rendille", Cushitic, "Language spoken by the Rendille people in northern Kenya."),
      Entry("bsq", "Bassa", Bantu, "Language spoken in small communities in western Kenya."),
      Entry("arr", "Kuria", Bantu, "Language spoken in southwestern Kenya along the Tanzania border."),
      Entry("dsh", "Daasanach", Cushitic, "Language spoken near Lake Turkana in northern Kenya."),
      Entry("gab", "Gabra", Cushitic, "Language spoken by the Gabra people in northern Kenya."),
      Entry("tbt", "Tembo", Bantu, "Language spoken in small communities in western Kenya."),
      Entry("pye", "Kreyol", Other, "Creole language spoken in some urban areas and coastal regions."),
      Entry("niq", "Nandi-Markweta", Nilotic, "Language spoken in the Rift Valley region."),
      Entry("luo-suba", "Suba", Bantu, "Language spoken around Lake Victoria, influenced by Dholuo.")
  ]

  /** The codes an entry list names. */
  function Codes(es: seq<Entry>): set<string>
  {
    if es == [] then {} else Codes(es[..|es| - 1]) + {es[|es| - 1].code}
  }

  /** A code is listed exactly when some entry carries it. */
  lemma {:induction false} CodesMember(es: seq<Entry>, k: string)
    ensures k in Codes(es) <==> exists i | 0 <= i < |es| :: es[i].code == k
  {
    if es != [] {
      var init := es[..|es| - 1];
      CodesMember(init, k);
      if exists i | 0 <= i < |es| :: es[i].code == k {
        var i :| 0 <= i < |es| && es[i].code == k;
        if i < |es| - 1 {
          assert init[i] == es[i];
        }
      }
      if exists i | 0 <= i < |init| :: init[i].code == k {
        var i :| 0 <= i < |init| && init[i].code == k;
        assert es[i] == init[i];
      }
    }
  }

  predicate DistinctCodes(es: seq<Entry>)
  {
    forall i, j | 0 <= i < j < |es| :: es[i].code != es[j].code
  }

  /** The command's list names every code once (checked ten rows against ten at a time). */
  lemma KenyanCodesDistinct()
    ensures DistinctCodes(KenyanLanguageList)
  {
    CodesDistinctFirstFirst();
    CodesDistinctFirstSecond();
    CodesDistinctFirstThird();
    CodesDistinctSecondSecond();
    CodesDistinctSecondThird();
    CodesDistinctThirdThird();
  }

  lemma CodesDistinctFirstFirst()
    ensures forall i, j | 0 <= i < 10 && 0 <= j < 10 && i < j ::
      KenyanLanguageList[i].code != KenyanLanguageList[j].code
  {
  }

  lemma CodesDistinctFirstSecond()
    ensures forall i, j | 0 <= i < 10 && 10 <= j < 20 && i < j ::
      KenyanLanguageList[i].code != KenyanLanguageList[j].code
  {
  }

  lemma CodesDistinctFirstThird()
    ensures forall i, j | 0 <= i < 10 && 20 <= j < 30 && i < j ::
      KenyanLanguageList[i].code != KenyanLanguageList[j].code
  {
  }

  lemma CodesDistinctSecondSecond()
    ensures forall i, j | 10 <= i < 20 && 10 <= j < 20 && i < j ::
      KenyanLanguageList[i].code != KenyanLanguageList[j].code
  {
  }

  lemma CodesDistinctSecondThird()
    ensures forall i, j | 10 <= i < 20 && 20 <= j < 30 && i < j ::
      KenyanLanguageList[i].code != KenyanLanguageList[j].code
  {
  }

  lemma CodesDistinctThirdThird()
    ensures forall i, j | 20 <= i < 30 && 20 <= j < 30 && i < j ::
      KenyanLanguageList[i].code != KenyanLanguageList[j].code
  {
  }

  /** Whether a row already carries the entry's name, category and description. */
  predicate Describes(l: Language, e: Entry)
  {
    l.name == e.name && l.category == e.category && l.description == e.description
  }

  /** `Language.objects.update_or_create(code=..., defaults=...)`: an existing row gets the
    * defaults written over it and keeps its counters; a missing one is created with the
    * defaults and zero counters. */
  function Upsert(m: map<string, Language>, e: Entry): map<string, Language>
  {
    var row :=
      if e.code in m then m[e.code].(name := e.name, category := e.category, description := e.description)
      else Language(e.name, e.category, e.description, 0, 0, 0, 0);
    m[e.code := row]
  }

  /** The table after upserting every entry in order. */
  function UpsertAll(m: map<string, Language>, es: seq<Entry>): map<string, Language>
  {
    if es == [] then m else Upsert(UpsertAll(m, es[..|es| - 1]), es[|es| - 1])
  }

  /** After the upserts every listed code is present, and rows of unlisted codes are as they
    * were. */
  lemma {:induction false} UpsertAllFrame(m: map<string, Language>, es: seq<Entry>)
    ensures UpsertAll(m, es).Keys == m.Keys + Codes(es)
    ensures forall k | k in m && k !in Codes(es) :: UpsertAll(m, es)[k] == m[k]
  {
    if es != [] {
      var init := es[..|es| - 1];
      UpsertAllFrame(m, init);
    }
  }

  /** With distinct codes, every listed code ends up with exactly its entry's fields. */
  lemma {:induction false} UpsertAllWrites(m: map<string, Language>, es: seq<Entry>, i: nat)
    requires DistinctCodes(es) && i < |es|
    ensures es[i].code in UpsertAll(m, es) && Describes(UpsertAll(m, es)[es[i].code], es[i])
  {
    var init := es[..|es| - 1];
    if i < |es| - 1 {
      assert init[i] == es[i];
      UpsertAllWrites(m, init, i);
    }
  }

  /** A second run changes nothing. */
  lemma {:induction false} UpsertAllIdempotent(m: map<string, Language>, es: seq<Entry>)
    requires DistinctCodes(es)
    ensures UpsertAll(UpsertAll(m, es), es) == UpsertAll(m, es)
  {
    var once := UpsertAll(m, es);
    var twice := UpsertAll(once, es);
    UpsertAllFrame(m, es);
    UpsertAllFrame(once, es);
    forall k | k in once
      ensures twice[k] == once[k]
    {
      if k in Codes(es) {
        CodesMember(es, k);
        var i :| 0 <= i < |es| && es[i].code == k;
        UpsertAllWrites(m, es, i);
        UpsertAllWrites(once, es, i);
        UpsertAllKeepsCounters(once, es, k);
      }
    }
  }

  /** The upserts never touch the counters of a row that already exists. */
  lemma {:induction false} UpsertAllKeepsCounters(m: map<string, Language>, es: seq<Entry>, k: string)
    requires k in m
    ensures k in UpsertAll(m, es)
    ensures UpsertAll(m, es)[k].contributorsCount == m[k].contributorsCount
    ensures UpsertAll(m, es)[k].wordsCount == m[k].wordsCount
    ensures UpsertAll(m, es)[k].sentencesCount == m[k].sentencesCount
    ensures UpsertAll(m, es)[k].audioCount == m[k].audioCount
  {
    if es != [] {
      UpsertAllKeepsCounters(m, es[..|es| - 1], k);
    }
  }

  /** Upserting one entry keeps the tables consistent: a created row has no contributions yet,
    * so its zero counters agree with the table, and an updated row keeps its counters. */
  lemma UpsertKeepsTables(users: map<UserId, User>, languages: map<string, Language>,
                          cs: map<ContributionId, Contribution>, vs: seq<Validation>, next: ContributionId,
                          e: Entry, languages': map<string, Language>)
    requires Integrity(users, languages, cs, vs, next)
    requires languages' == Upsert(languages, e)
    ensures Integrity(users, languages', cs, vs, next)
    ensures StatsHold(users, languages, cs, vs) ==> StatsHold(users, languages', cs, vs)
  {
    if StatsHold(users, languages, cs, vs) && e.code !in languages {
      SelectNone(cs, OfLanguage(e.code));
      SelectNone(cs, WordsOf(e.code));
      SelectNone(cs, SentencesOf(e.code));
      SelectNone(cs, AudioOf(e.code));
    }
  }

  /** One step of the loop: the table grows by the upsert of the next entry. */
  lemma UpsertStep(start: map<string, Language>, es: seq<Entry>, i: nat)
    requires i < |es|
    ensures UpsertAll(start, es[..i + 1]) == Upsert(UpsertAll(start, es[..i]), es[i])
  {
    var before, after := es[..i], es[..i + 1];
    assert after[..|after| - 1] == before && after[|after| - 1] == es[i];
  }

  /** The upserts add one row per listed code that was missing. */
  lemma UpsertAllSize(m: map<string, Language>, es: seq<Entry>)
    ensures |UpsertAll(m, es)| == |m| + |Codes(es) - m.Keys|
  {
    var r := UpsertAll(m, es);
    UpsertAllFrame(m, es);
    var missing := Codes(es) - m.Keys;
    assert r.Keys == m.Keys + missing;
    assert m.Keys !! missing;
    assert |r.Keys| == |m.Keys| + |missing|;
  }

  /** One pass of the loop body of `Command.handle`: `update_or_create` for the entry, then
    * the comparison of the row it returned with the entry. */
  method UpsertOne(db: Database, e: Entry) returns (created: bool, updated: bool)
    requires db.Valid()
    modifies db
    ensures db.Valid()
    ensures old(db.StatsMatch()) ==> db.StatsMatch()
    ensures db.languages == Upsert(old(db.languages), e)
    ensures db.users == old(db.users) && db.contributions == old(db.contributions)
    ensures db.validations == old(db.validations) && db.nextContributionId == old(db.nextContributionId)
    ensures created <==> e.code !in old(db.languages)
    // the row already carries the entry's fields, so the comparison never finds a change
    ensures !updated
  {
    created := e.code !in db.languages;
    var languages := Upsert(db.languages, e);
    UpsertKeepsTables(db.users, db.languages, db.contributions, db.validations, db.nextContributionId, e, languages);
    db.languages := languages;
    updated := false;
    if !created {
      var row := db.languages[e.code];
      updated := row.name != e.name || row.category != e.category || row.description != e.description;
    }
  }

  /** The loop of `Command.handle` over any entry list, with its three tallies. */
  method UpsertLanguages(db: Database, es: seq<Entry>) returns (created: nat, updated: nat, kept: nat)
    requires db.Valid()
    modifies db
    ensures db.Valid()
    ensures old(db.StatsMatch()) ==> db.StatsMatch()
    ensures db.languages == UpsertAll(old(db.languages), es)
    ensures db.users == old(db.users) && db.contributions == old(db.contributions)
    ensures db.validations == old(db.validations) && db.nextContributionId == old(db.nextContributionId)
    // every entry lands in exactly one tally
    ensures created + updated + kept == |es|
    ensures updated == 0
    ensures created == |Codes(es) - old(db.languages).Keys|
  {
    created, updated, kept := 0, 0, 0;
    ghost var start := db.languages;
    for i := 0 to |es|
      invariant db.Valid()
      invariant old(db.StatsMatch()) ==> db.StatsMatch()
      invariant db.languages == UpsertAll(start, es[..i])
      invariant db.users == old(db.users) && db.contributions == old(db.contributions)
      invariant db.validations == old(db.validations) && db.nextContributionId == old(db.nextContributionId)
      invariant created + updated + kept == i && updated == 0
      invariant |db.languages| == |start| + created
    {
      UpsertStep(start, es, i);
      var isNew, changed := UpsertOne(db, es[i]);
      if isNew {
        created := created + 1;
      } else {
        updated := updated + (if changed then 1 else 0);
        kept := kept + (if changed then 0 else 1);
      }
    }
    assert es[..|es|] == es;
    UpsertAllSize(start, es);
  }

  /** `Command.handle` itself: the loop over the command's list. */
  method AddKenyanLanguages(db: Database) returns (created: nat, updated: nat, kept: nat)
    requires db.Valid()
    modifies db
    ensures db.Valid()
    ensures old(db.StatsMatch()) ==> db.StatsMatch()
    ensures db.languages == UpsertAll(old(db.languages), KenyanLanguageList)
    ensures db.users == old(db.users) && db.contributions == old(db.contributions)
    ensures db.validations == old(db.validations) && db.nextContributionId == old(db.nextContributionId)
    ensures created + updated + kept == |KenyanLanguageList| && updated == 0
    ensures created == |Codes(KenyanLanguageList) - old(db.languages).Keys|
  {
    created, updated, kept := UpsertLanguages(db, KenyanLanguageList);
  }

  /** Running the command twice leaves the table as the first run left it, and the second run
    * creates nothing. */
  lemma SecondRunCreatesNothing(m: map<string, Language>)
    ensures UpsertAll(UpsertAll(m, KenyanLanguageList), KenyanLanguageList) == UpsertAll(m, KenyanLanguageList)
    ensures |Codes(KenyanLanguageList) - UpsertAll(m, KenyanLanguageList).Keys| == 0
  {
    KenyanCodesDistinct();
    UpsertAllIdempotent(m, KenyanLanguageList);
    UpsertAllFrame(m, KenyanLanguageList);
    assert Codes(KenyanLanguageList) - UpsertAll(m, KenyanLanguageList).Keys == {};
  }

  /** After the command every listed code has its listed name, category and description. */
  lemma ListedLanguagesDescribed(m: map<string, Language>, i: nat)
    requires i < |KenyanLanguageList|
    ensures KenyanLanguageList[i].code in UpsertAll(m, KenyanLanguageList)
    ensures Describes(UpsertAll(m, KenyanLanguageList)[KenyanLanguageList[i].code], KenyanLanguageList[i])
  {
    KenyanCodesDistinct();
    UpsertAllWrites(m, KenyanLanguageList, i);
  }
}
