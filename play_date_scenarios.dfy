/** The unit-test cases of `GetAverageDogSizeList`, stated as lemmas about
    the resolution and the grouping. Each case holds for every reference
    whose lookups give the sizes the case needs; `TestBreedsLookups` shows
    that the tests' own reference list gives all of them. */
module PlayDateScenarios {
  import opened Wrappers
  import opened Breeds
  import opened Roster
  import opened PlayDate

  /** The reference data the tests set up. */
  const TestBreeds: DogData := DogData([
    Breed("Boston Terrier", Small),
    Breed("Boxer", Large),
    Breed("Black Labrador", Large),
    Breed("Golden Retriever", Large),
    Breed("Jack Russell Terrier", Small),
    Breed("Pembroke Welsh Corgi", Medium),
    Breed("Pug", Small),
    Breed("Shiba Inu", Medium)
  ])

  /** `data` answers every lookup of the tests' breeds as the tests' list does,
      and has no "Puggle". */
  predicate HasTestSizes(data: DogData)
  {
    && Find(data.breeds, "Boston Terrier") == Some(Breed("Boston Terrier", Small))
    && Find(data.breeds, "Boxer") == Some(Breed("Boxer", Large))
    && Find(data.breeds, "Black Labrador") == Some(Breed("Black Labrador", Large))
    && Find(data.breeds, "Golden Retriever") == Some(Breed("Golden Retriever", Large))
    && Find(data.breeds, "Jack Russell Terrier") == Some(Breed("Jack Russell Terrier", Small))
    && Find(data.breeds, "Pembroke Welsh Corgi") == Some(Breed("Pembroke Welsh Corgi", Medium))
    && Find(data.breeds, "Pug") == Some(Breed("Pug", Small))
    && Find(data.breeds, "Shiba Inu") == Some(Breed("Shiba Inu", Medium))
    && Find(data.breeds, "Puggle") == None
  }

  /** Each entry of the tests' list is the first with its name. */
  lemma TestBreedFound(i: nat)
    requires i < |TestBreeds.breeds|
    ensures Find(TestBreeds.breeds, TestBreeds.breeds[i].name) == Some(TestBreeds.breeds[i])
  {
    var b := TestBreeds.breeds;
    assert forall j :: 0 <= j < i ==> b[j].name != b[i].name;
    FindFirstMatch(b, b[i].name, i);
  }

  /** The tests' reference list gives the sizes every case below relies on. */
  lemma TestBreedsLookups()
    ensures HasTestSizes(TestBreeds)
  {
    TestBreedFound(0);
    TestBreedFound(1);
    TestBreedFound(2);
    TestBreedFound(3);
    TestBreedFound(4);
    TestBreedFound(5);
    TestBreedFound(6);
    TestBreedFound(7);
    TestBreedsLackPuggle();
  }

  /** The tests' reference list has no "Puggle". */
  lemma TestBreedsLackPuggle()
    ensures Find(TestBreeds.breeds, "Puggle") == None
  {
    var b := TestBreeds.breeds;
    assert forall i :: 0 <= i < |b| ==> |b[i].name| != |"Puggle"|;
  }

  /** Oliver, Odie and Lexi are mixes listing one breed: each keeps its
      breed's size. */
  lemma SingleBreedMixesKeepTheirSize(data: DogData)
    requires Find(data.breeds, "Jack Russell Terrier") == Some(Breed("Jack Russell Terrier", Small))
    requires Find(data.breeds, "Boxer") == Some(Breed("Boxer", Large))
    requires Find(data.breeds, "Shiba Inu") == Some(Breed("Shiba Inu", Medium))
    ensures ResolveSize(Dog("Oliver", ["Jack Russell Terrier"], true), data) == Success(Small)
    ensures ResolveSize(Dog("Odie", ["Boxer"], true), data) == Success(Large)
    ensures ResolveSize(Dog("Lexi", ["Shiba Inu"], true), data) == Success(Medium)
  {
    MixOfOneBreed(Dog("Oliver", ["Jack Russell Terrier"], true), data, Breed("Jack Russell Terrier", Small));
    MixOfOneBreed(Dog("Odie", ["Boxer"], true), data, Breed("Boxer", Large));
    MixOfOneBreed(Dog("Lexi", ["Shiba Inu"], true), data, Breed("Shiba Inu", Medium));
  }

  /** Coco, Cassie and Oreo are non-mix dogs of one breed: each takes its
      breed's size. */
  lemma NonMixDogsKeepTheirBreedSize(data: DogData)
    requires Find(data.breeds, "Pug") == Some(Breed("Pug", Small))
    requires Find(data.breeds, "Pembroke Welsh Corgi") == Some(Breed("Pembroke Welsh Corgi", Medium))
    requires Find(data.breeds, "Boston Terrier") == Some(Breed("Boston Terrier", Small))
    ensures ResolveSize(Dog("Coco", ["Pug"], false), data) == Success(Small)
    ensures ResolveSize(Dog("Cassie", ["Pembroke Welsh Corgi"], false), data) == Success(Medium)
    ensures ResolveSize(Dog("Oreo", ["Boston Terrier"], false), data) == Success(Small)
  {
  }

  /** Marius, Black Labrador + Golden Retriever (3 and 3), stays large. */
  lemma LabradorGoldenMixIsLarge(data: DogData)
    requires Find(data.breeds, "Black Labrador") == Some(Breed("Black Labrador", Large))
    requires Find(data.breeds, "Golden Retriever") == Some(Breed("Golden Retriever", Large))
    ensures ResolveSize(Dog("Marius", ["Black Labrador", "Golden Retriever"], true), data) == Success(Large)
  {
    MixIsCeilingOfMean(Dog("Marius", ["Black Labrador", "Golden Retriever"], true), data, [Large, Large]);
    MeanRankOfTwo(Large, Large);
  }

  /** Boxapug, Pug + Boxer (1 and 3), averages exactly to medium. */
  lemma PugBoxerMixIsMedium(data: DogData)
    requires Find(data.breeds, "Pug") == Some(Breed("Pug", Small))
    requires Find(data.breeds, "Boxer") == Some(Breed("Boxer", Large))
    ensures ResolveSize(Dog("Boxapug", ["Pug", "Boxer"], true), data) == Success(Medium)
  {
    MixIsCeilingOfMean(Dog("Boxapug", ["Pug", "Boxer"], true), data, [Small, Large]);
    MeanRankOfTwo(Small, Large);
  }

  /** Corgidor, Pembroke Welsh Corgi + Black Labrador (2 and 3), averages to
      2.5 and rounds up to large. */
  lemma CorgiLabradorMixRoundsUpToLarge(data: DogData)
    requires Find(data.breeds, "Pembroke Welsh Corgi") == Some(Breed("Pembroke Welsh Corgi", Medium))
    requires Find(data.breeds, "Black Labrador") == Some(Breed("Black Labrador", Large))
    ensures ResolveSize(Dog("Corgidor", ["Pembroke Welsh Corgi", "Black Labrador"], true), data) == Success(Large)
  {
    MixIsCeilingOfMean(Dog("Corgidor", ["Pembroke Welsh Corgi", "Black Labrador"], true), data, [Medium, Large]);
    MeanRankOfTwo(Medium, Large);
  }

  /** The seven dogs of the tests' default roster, resolved against the
      tests' reference list, get the sizes of the expected buckets. */
  lemma DefaultRosterSizes()
    ensures ResolveSize(Dog("Coco", ["Pug"], false), TestBreeds) == Success(Small)
    ensures ResolveSize(Dog("Oliver", ["Jack Russell Terrier"], true), TestBreeds) == Success(Small)
    ensures ResolveSize(Dog("Cassie", ["Pembroke Welsh Corgi"], false), TestBreeds) == Success(Medium)
    ensures ResolveSize(Dog("Odie", ["Boxer"], true), TestBreeds) == Success(Large)
    ensures ResolveSize(Dog("Lexi", ["Shiba Inu"], true), TestBreeds) == Success(Medium)
    ensures ResolveSize(Dog("Oreo", ["Boston Terrier"], false), TestBreeds) == Success(Small)
    ensures ResolveSize(Dog("Marius", ["Black Labrador", "Golden Retriever"], true), TestBreeds) == Success(Large)
  {
    TestBreedsLookups();
    NonMixDogsKeepTheirBreedSize(TestBreeds);
    SingleBreedMixesKeepTheirSize(TestBreeds);
    LabradorGoldenMixIsLarge(TestBreeds);
  }

  /** A non-mix dog of a breed the reference lacks aborts the call with
      `DogBreedNotFoundException`. */
  lemma BreedMissingFromReference(data: DogData)
    requires Find(data.breeds, "Puggle") == None
    ensures Group([Dog("DogName", ["Puggle"], false)], data) == Failure(DogBreedNotFound("Puggle"))
  {
    GroupFailsAtFirstFailure([Dog("DogName", ["Puggle"], false)], data, 0);
  }

  /** A dog listing two breeds without being flagged as a mix aborts the call
      with `IsMixedBreedException`, whatever the reference holds. */
  lemma TwoBreedsNotMarkedAsMix(data: DogData)
    ensures Group([Dog("DogName", ["Pug", "Beagle"], false)], data) == Failure(IsMixedBreed)
  {
    var dog := Dog("DogName", ["Pug", "Beagle"], false);
    NonMixMalformed(dog, data);
    GroupFailsAtFirstFailure([dog], data, 0);
  }

  /** An empty roster gives all five buckets, each empty. */
  lemma EmptyRoster(data: DogData)
    ensures Group([], data).Success?
    ensures forall s: Size :: Group([], data).value[s] == []
    ensures Group([], data).value.Keys == set s | s in AllSizes
  {
    GroupHasEverySize([], data);
  }
}
