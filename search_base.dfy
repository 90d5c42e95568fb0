/**
 * The provider-independent part of the search layer: the query and result records every
 * provider exchanges, the surname set a query covers, the citation line of a result, the
 * queries the birth, death and marriage shortcuts build, and the base spelling-variant
 * generator providers inherit.
 */
module SearchBase {
  import opened Wrappers
  import opened Text
  import opened Sorting
  import opened Models
  import opened SurnameVariants

  /** The kinds of record a search can be restricted to. */
  datatype RecordType =
    | Birth | Death | Marriage | Burial | Census | Immigration | Emigration | Military
    | Probate | Land | Church | Civil | Newspaper | Other
  {
    /** The enumeration's string value. */
    function Value(): string
    {
      match this
      case Birth => "birth"
      case Death => "death"
      case Marriage => "marriage"
      case Burial => "burial"
      case Census => "census"
      case Immigration => "immigration"
      case Emigration => "emigration"
      case Military => "military"
      case Probate => "probate"
      case Land => "land"
      case Church => "church"
      case Civil => "civil"
      case Newspaper => "newspaper"
      case Other => "other"
    }
  }

  /** The geographic regions a search can be filtered to. */
  datatype Region =
    | Belgium | Netherlands | Germany | France | Ireland | Scotland | England | Wales
    | ChannelIslands | Usa | Canada | Worldwide

  /** The criteria of one search; `None` is an unset criterion. */
  datatype SearchQuery = SearchQuery(
    givenName: Option<string>,
    surname: Option<string>,
    maidenName: Option<string>,
    surnameVariants: seq<string>,
    birthYear: Option<int>,
    birthYearRange: int,
    deathYear: Option<int>,
    deathYearRange: int,
    eventYear: Option<int>,
    eventYearRange: int,
    birthPlace: Option<string>,
    deathPlace: Option<string>,
    residencePlace: Option<string>,
    eventPlace: Option<string>,
    region: Option<Region>,
    country: Option<string>,
    recordTypes: seq<RecordType>,
    fatherName: Option<string>,
    motherName: Option<string>,
    spouseName: Option<string>,
    page: int,
    pageSize: int)

  /** A query with every criterion at its default: nothing set, year windows of five, the first page of fifty. */
  const DefaultQuery := SearchQuery(
    None, None, None, [], None, 5, None, 5, None, 5, None, None, None, None, None, None, [],
    None, None, None, 1, 50)

  /** `get_all_surname_variants`: the surname, when set, and the listed variants; `list(set(...))` has no fixed order, so the result is a set. */
  function AllSurnameVariants(q: SearchQuery): (r: set<string>)
    ensures forall v :: v in r <==> (StrTruthy(q.surname) && v == q.surname.value) || v in q.surnameVariants
    ensures |r| <= |q.surnameVariants| + 1
  {
    var listed := set v <- q.surnameVariants;
    SetOfSeqSize(q.surnameVariants);
    if StrTruthy(q.surname) then
      assert |listed + {q.surname.value}| <= |listed| + 1;
      listed + {q.surname.value}
    else listed
  }

  /** A set built from a list holds at most as many strings as the list. */
  lemma {:induction false} SetOfSeqSize(s: seq<string>)
    ensures |(set v <- s)| <= |s|
    decreases |s|
  {
    if s != [] {
      var init := s[..|s| - 1];
      SetOfSeqSize(init);
      assert (set v <- s) == (set v <- init) + {s[|s| - 1]} by {
        LastSplit(s);
      }
    }
  }

  /** A record one provider returned, with the fields the citation line and the callers read. */
  datatype SearchResult = SearchResult(
    provider: string,
    recordId: string,
    collectionId: Option<string>,
    filmNumber: Option<string>,
    givenName: string,
    surname: string,
    sex: Option<string>,
    birthDate: Option<GenealogyDate>,
    birthPlace: Option<Place>,
    deathDate: Option<GenealogyDate>,
    deathPlace: Option<Place>,
    eventType: Option<RecordType>,
    eventDate: Option<GenealogyDate>,
    eventPlace: Option<Place>,
    fatherName: Option<string>,
    motherName: Option<string>,
    spouseName: Option<string>,
    recordTitle: string,
    collectionName: Option<string>,
    sourceLevel: SourceLevel,
    hasImage: bool,
    imageUrl: Option<string>,
    recordUrl: Option<string>)

  /** `collection_name or record_title` */
  function CitationHead(r: SearchResult): string
  {
    if StrTruthy(r.collectionName) then r.collectionName.value else r.recordTitle
  }

  /** The pieces `to_citation_text` joins: the head, then the film and the record when set. */
  function CitationParts(r: SearchResult): seq<string>
  {
    var withFilm := [CitationHead(r)] + (if StrTruthy(r.filmNumber) then ["Film " + r.filmNumber.value] else []);
    withFilm + (if r.recordId != "" then ["Record " + r.recordId] else [])
  }

  /** `to_citation_text`: the head, then `; Film <n>` when a film is set, then `; Record <id>` when a record id is set. */
  function CitationText(r: SearchResult): (t: string)
    ensures t == CitationHead(r)
      + (if StrTruthy(r.filmNumber) then "; Film " + r.filmNumber.value else "")
      + (if r.recordId != "" then "; Record " + r.recordId else "")
  {
    var head := CitationHead(r);
    var withFilm := [head] + (if StrTruthy(r.filmNumber) then ["Film " + r.filmNumber.value] else []);
    assert Join("; ", withFilm) == head + (if StrTruthy(r.filmNumber) then "; Film " + r.filmNumber.value else "") by {
      if StrTruthy(r.filmNumber) {
        JoinSnoc("; ", [head], "Film " + r.filmNumber.value);
      }
    }
    if r.recordId != "" then
      JoinSnoc("; ", withFilm, "Record " + r.recordId);
      Join("; ", withFilm + ["Record " + r.recordId])
    else Join("; ", withFilm)
  }

  /** The citation line begins with the collection name, or with the record title when there is none, and names the film and the record exactly when they are set. */
  lemma CitationTextShape(r: SearchResult)
    ensures IsPrefix(CitationHead(r), CitationText(r))
    ensures StrTruthy(r.filmNumber) ==> Contains(CitationText(r), "; Film " + r.filmNumber.value)
    ensures IsSuffix("; Record " + r.recordId, CitationText(r)) || r.recordId == ""
    ensures !StrTruthy(r.filmNumber) && r.recordId == "" ==> CitationText(r) == CitationHead(r)
  {
    var t := CitationText(r);
    var head := CitationHead(r);
    var film := if StrTruthy(r.filmNumber) then "; Film " + r.filmNumber.value else "";
    var rec := if r.recordId != "" then "; Record " + r.recordId else "";
    assert t == head + film + rec;
    assert t[..|head|] == head;
    if StrTruthy(r.filmNumber) {
      ContainsSelf(film);
      ContainsInPrefix(film, rec, film);
      ContainsInSuffix(head, film + rec, film);
      assert head + (film + rec) == t;
    }
    if r.recordId != "" {
      assert t[|t| - |rec|..] == rec;
    }
  }

  /** `search_person`: the surname and given name with the birth year and place, over every record type. */
  function PersonQuery(surname: string, givenName: Option<string>, birthYear: Option<int>, birthPlace: Option<string>): (q: SearchQuery)
    ensures q.recordTypes == []
    ensures q.surname == Some(surname) && q.givenName == givenName
    ensures q.birthYear == birthYear && q.birthPlace == birthPlace
    ensures q.deathYear == None && q.eventYear == None && q.deathPlace == None && q.eventPlace == None && q.spouseName == None
  {
    DefaultQuery.(surname := Some(surname), givenName := givenName, birthYear := birthYear, birthPlace := birthPlace)
  }

  /** A person search is the birth search with the record-type restriction lifted. */
  lemma PersonQueryUnrestricted(surname: string, givenName: Option<string>, year: Option<int>, place: Option<string>)
    ensures PersonQuery(surname, givenName, year, place) == BirthQuery(surname, givenName, year, place).(recordTypes := [])
    ensures PersonQuery(surname, givenName, year, place) != BirthQuery(surname, givenName, year, place)
  {
    assert BirthQuery(surname, givenName, year, place).recordTypes[0] == Birth;
  }

  /** `search_birth`: the surname and given name, the year and place as birth criteria, restricted to birth records. */
  function BirthQuery(surname: string, givenName: Option<string>, year: Option<int>, place: Option<string>): (q: SearchQuery)
    ensures q.recordTypes == [Birth]
    ensures q.surname == Some(surname) && q.givenName == givenName
    ensures q.birthYear == year && q.birthPlace == place
    ensures q.deathYear == None && q.eventYear == None && q.deathPlace == None && q.eventPlace == None && q.spouseName == None
    ensures q == DefaultQuery.(surname := q.surname, givenName := q.givenName, birthYear := q.birthYear, birthPlace := q.birthPlace, recordTypes := q.recordTypes)
  {
    DefaultQuery.(surname := Some(surname), givenName := givenName, birthYear := year, birthPlace := place, recordTypes := [Birth])
  }

  /** `search_death`: the surname and given name, the year and place as death criteria, restricted to death records. */
  function DeathQuery(surname: string, givenName: Option<string>, year: Option<int>, place: Option<string>): (q: SearchQuery)
    ensures q.recordTypes == [Death]
    ensures q.surname == Some(surname) && q.givenName == givenName
    ensures q.deathYear == year && q.deathPlace == place
    ensures q.birthYear == None && q.eventYear == None && q.birthPlace == None && q.eventPlace == None && q.spouseName == None
    ensures q == DefaultQuery.(surname := q.surname, givenName := q.givenName, deathYear := q.deathYear, deathPlace := q.deathPlace, recordTypes := q.recordTypes)
  {
    DefaultQuery.(surname := Some(surname), givenName := givenName, deathYear := year, deathPlace := place, recordTypes := [Death])
  }

  /** `search_marriage`: the surname, the spouse's surname as the spouse name, the year and place as event criteria, restricted to marriage records. */
  function MarriageQuery(surname: string, spouseSurname: Option<string>, year: Option<int>, place: Option<string>): (q: SearchQuery)
    ensures q.recordTypes == [Marriage]
    ensures q.surname == Some(surname) && q.spouseName == spouseSurname && q.givenName == None
    ensures q.eventYear == year && q.eventPlace == place
    ensures q.birthYear == None && q.deathYear == None && q.birthPlace == None && q.deathPlace == None
    ensures q == DefaultQuery.(surname := q.surname, spouseName := q.spouseName, eventYear := q.eventYear, eventPlace := q.eventPlace, recordTypes := q.recordTypes)
  {
    DefaultQuery.(surname := Some(surname), spouseName := spouseSurname, eventYear := year, eventPlace := place, recordTypes := [Marriage])
  }

  /** The three shortcuts never build the same query, and each covers exactly the surname it was given. */
  lemma ShortcutQueriesDiffer(surname: string, other: Option<string>, year: Option<int>, place: Option<string>)
    ensures BirthQuery(surname, other, year, place) != DeathQuery(surname, other, year, place)
    ensures BirthQuery(surname, other, year, place) != MarriageQuery(surname, other, year, place)
    ensures DeathQuery(surname, other, year, place) != MarriageQuery(surname, other, year, place)
    ensures surname != "" ==> AllSurnameVariants(BirthQuery(surname, other, year, place)) == {surname}
    ensures surname == "" ==> AllSurnameVariants(MarriageQuery(surname, other, year, place)) == {}
  {
    var qb := BirthQuery(surname, other, year, place);
    assert qb.recordTypes[0] == Birth;
    if surname != "" {
      var r := AllSurnameVariants(qb);
      assert forall v :: v in r <==> v == surname;
      assert r == {surname};
    }
  }

  /** The substitution pairs of `generate_surname_variants`. */
  const ProviderSubstitutions: seq<(string, string)> := [
    ("ck", "k"), ("ck", "c"), ("x", "cks"), ("x", "ks"), ("ae", "a"), ("oe", "o"), ("ue", "u"),
    ("y", "ij"), ("ij", "y"), ("dt", "t"), ("dt", "d"), ("sch", "sh"), ("sh", "sch"),
    ("ph", "f"), ("f", "ph"), ("gh", "g")]

  /** The variant set before title-casing: the lower-cased surname and what the pairs produce from it. */
  function ProviderVariants(surname: string): seq<string>
  {
    assert NonEmptyPairs(ProviderSubstitutions);
    ApplyPairs([Lower(surname)], Lower(surname), ProviderSubstitutions)
  }

  /** A variant of `surname` for a provider: its lower-cased form, or what a pair produces from that. */
  predicate ProviderVariant(v: string, surname: string)
  {
    assert NonEmptyPairs(ProviderSubstitutions);
    v == Lower(surname) || PairVariant(v, Lower(surname), ProviderSubstitutions)
  }

  /** Growing the lower-cased surname by any pairs, then sorting the title-cased forms, gives exactly the title-cased grown strings, in order. */
  lemma PairTitlesShape(surname: string, pairs: seq<(string, string)>)
    requires NonEmptyPairs(pairs)
    ensures Sorted(SortedTitles(ApplyPairs([Lower(surname)], Lower(surname), pairs)), LessEq)
    ensures forall v :: v == Lower(surname) || PairVariant(v, Lower(surname), pairs) ==>
      Title(v) in SortedTitles(ApplyPairs([Lower(surname)], Lower(surname), pairs))
    ensures forall x :: x in SortedTitles(ApplyPairs([Lower(surname)], Lower(surname), pairs)) ==>
      exists v :: (v == Lower(surname) || PairVariant(v, Lower(surname), pairs)) && x == Title(v)
  {
    var base := Lower(surname);
    var vs := ApplyPairs([base], base, pairs);
    ApplyPairsMembers([base], base, pairs);
    SortedTitlesShape(vs);
    forall x | x in SortedTitles(vs) ensures exists v :: (v == base || PairVariant(v, base, pairs)) && x == Title(v) {
      assert x in multiset(Titles(vs));
      var i :| 0 <= i < |vs| && Titles(vs)[i] == x;
      assert vs[i] in vs;
    }
  }

  /** `generate_surname_variants`: sorted, exactly the title-cased variants, `surname.title()` among them. */
  lemma SurnameVariantsShape(surname: string)
    ensures Sorted(SortedTitles(ProviderVariants(surname)), LessEq)
    ensures forall v :: ProviderVariant(v, surname) ==> Title(v) in SortedTitles(ProviderVariants(surname))
    ensures forall x :: x in SortedTitles(ProviderVariants(surname)) ==> exists v :: ProviderVariant(v, surname) && x == Title(v)
    ensures Title(surname) in SortedTitles(ProviderVariants(surname))
  {
    assert NonEmptyPairs(ProviderSubstitutions);
    PairTitlesShape(surname, ProviderSubstitutions);
    TitleOfLower(surname);
    assert ProviderVariant(Lower(surname), surname);
  }

  /** `generate_surname_variants`: each pair in both directions over the lower-cased surname, then the title-cased variants sorted. */
  method GenerateSurnameVariants(surname: string) returns (r: seq<string>)
    ensures r == SortedTitles(ProviderVariants(surname))
  {
    var base := Lower(surname);
    assert NonEmptyPairs(ProviderSubstitutions);
    var vs := GrowByPairs([base], base, ProviderSubstitutions);
    r := SortedTitles(vs);
  }
}
