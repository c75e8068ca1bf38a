/** `PlayDateCalculator.GetAverageDogSizeList`: resolve every dog of the
    roster to a size and group the dogs by size. */
module PlayDate {
  import opened Wrappers
  import opened Breeds
  import opened Roster

  /** The ways the grouping aborts. The two unknown-breed failures differ:
      only the single-breed path raises `DogBreedNotFoundException`. */
  datatype SizeListError =
    | DogBreedNotFound(breed: string)   // DogBreedNotFoundException (non-mix dog)
    | IsMixedBreed                      // IsMixedBreedException from Dog.GetBreed
    | NullBreedReference(breed: string) // mix dog: Find gave null and .Size was read
    | EmptyBreedAverage                 // mix dog without breeds: Average of an empty list

  /** The buckets: every size to the dogs placed in it, in placement order. */
  type Buckets = map<Size, seq<Dog>>

  // ---------------------------------------------------------------------------
  // Averaging a mix

  /** The sum of the integer values of the given sizes. */
  function SumRanks(sizes: seq<Size>): nat
  {
    if sizes == [] then 0 else Rank(sizes[0]) + SumRanks(sizes[1..])
  }

  /** The ceiling of `sum / n`; stands for `Math.Ceiling` applied to the
      `double` quotient that `Average` computes from an exact integer sum. */
  function CeilDiv(sum: nat, n: nat): (q: nat)
    requires n > 0
    ensures sum <= q * n
    ensures q == 0 || (q - 1) * n < sum
  {
    (sum + n - 1) / n
  }

  /** A sum of `n` ranks, each in `lo..hi`, lies between `lo * n` and `hi * n`. */
  lemma {:induction false} SumRanksBounds(sizes: seq<Size>, lo: nat, hi: nat)
    requires forall i :: 0 <= i < |sizes| ==> lo <= Rank(sizes[i]) <= hi
    ensures lo * |sizes| <= SumRanks(sizes) <= hi * |sizes|
  {
    if sizes != [] {
      SumRanksBounds(sizes[1..], lo, hi);
      assert lo * |sizes| == lo + lo * |sizes[1..]|;
      assert hi * |sizes| == hi + hi * |sizes[1..]|;
    }
  }

  /** The ceiling of a quotient whose dividend lies in `lo * n .. hi * n`
      lies in `lo .. hi`. */
  lemma CeilDivBounds(sum: nat, n: nat, lo: nat, hi: nat)
    requires n > 0 && lo * n <= sum <= hi * n
    ensures lo <= CeilDiv(sum, n) <= hi
  {
  }

  /** The rank a mix resolves to: the ceiling of the mean of its breeds'
      ranks; always a declared `Size` value. */
  function MeanRank(sizes: seq<Size>): (k: nat)
    requires |sizes| > 0
    ensures k <= MaxRank
  {
    SumRanksBounds(sizes, 0, MaxRank);
    CeilDivBounds(SumRanks(sizes), |sizes|, 0, MaxRank);
    CeilDiv(SumRanks(sizes), |sizes|)
  }

  /** The ceiling of the mean lies between the smallest and the largest rank
      of the mix. */
  lemma MeanRankBetween(sizes: seq<Size>, lo: nat, hi: nat)
    requires |sizes| > 0
    requires forall i :: 0 <= i < |sizes| ==> lo <= Rank(sizes[i]) <= hi
    ensures lo <= MeanRank(sizes) <= hi
  {
    SumRanksBounds(sizes, lo, hi);
    CeilDivBounds(SumRanks(sizes), |sizes|, lo, hi);
  }

  /** A mean that is a whole number is its own ceiling. */
  lemma MeanRankExact(sizes: seq<Size>, q: nat)
    requires |sizes| > 0 && SumRanks(sizes) == q * |sizes|
    ensures MeanRank(sizes) == q
  {
  }

  /** The two-breed case: the ceiling of `(a + b) / 2`. */
  lemma MeanRankOfTwo(a: Size, b: Size)
    ensures MeanRank([a, b]) == (Rank(a) + Rank(b) + 1) / 2
    ensures 2 * MeanRank([a, b]) == Rank(a) + Rank(b) || 2 * MeanRank([a, b]) == Rank(a) + Rank(b) + 1
  {
    assert [a, b][1..] == [b] && [b][1..] == [];
    assert SumRanks([b]) == Rank(b);
    assert SumRanks([a, b]) == Rank(a) + Rank(b);
  }

  /** `(Size)Math.Ceiling(breedsSizes.Average(x => (int)x))`. */
  function MeanSize(sizes: seq<Size>): (s: Size)
    requires |sizes| > 0
    ensures Rank(s) == MeanRank(sizes)
  {
    FromRank(MeanRank(sizes))
  }

  // ---------------------------------------------------------------------------
  // Resolving one dog

  /** The sizes of a mix's breeds, looked up in listed order, failing at the
      first name the reference lacks. */
  function LookupSizes(names: seq<string>, breeds: seq<Breed>): (r: Result<seq<Size>, SizeListError>)
    ensures r.Success? <==> forall i :: 0 <= i < |names| ==> Find(breeds, names[i]).Some?
    ensures r.Success? ==> (|r.value| == |names| &&
      forall i :: 0 <= i < |names| ==> Find(breeds, names[i]) == Some(Breed(names[i], r.value[i])))
    ensures r.Failure? ==> (r.error.NullBreedReference? && r.error.breed in names &&
      Find(breeds, r.error.breed).None?)
    decreases |names|
  {
    if names == [] then Success([])
    else
      match LookupSizes(names[..|names| - 1], breeds)
      case Failure(e) => Failure(e)
      case Success(sizes) =>
        var name := names[|names| - 1];
        match Find(breeds, name)
        case None => Failure(NullBreedReference(name))
        case Some(b) => Success(sizes + [b.size])
  }

  /** A failed lookup of a prefix is the lookup's result for the whole list. */
  lemma {:induction false} LookupFailurePersists(names: seq<string>, breeds: seq<Breed>, k: nat)
    requires k <= |names|
    requires LookupSizes(names[..k], breeds).Failure?
    ensures LookupSizes(names, breeds) == LookupSizes(names[..k], breeds)
    decreases |names|
  {
    if k < |names| {
      assert names[..|names| - 1][..k] == names[..k];
      LookupFailurePersists(names[..|names| - 1], breeds, k);
    } else {
      assert names[..k] == names;
    }
  }

  /** The lookup fails at the first unknown name and reports that name. */
  lemma {:induction false} LookupFailsAtFirstUnknown(names: seq<string>, breeds: seq<Breed>, i: nat)
    requires i < |names| && Find(breeds, names[i]).None?
    requires forall j :: 0 <= j < i ==> Find(breeds, names[j]).Some?
    ensures LookupSizes(names, breeds) == Failure(NullBreedReference(names[i]))
  {
    var prefix := names[..i + 1];
    assert prefix[..i] == names[..i];
    assert LookupSizes(names[..i], breeds).Success?;
    LookupFailurePersists(names, breeds, i + 1);
  }

  /** The size one dog resolves to, with the checks in the order the loop body
      makes them: a mix averages its breeds; any other dog goes through
      `GetBreed` and one lookup. */
  function ResolveSize(dog: Dog, data: DogData): Result<Size, SizeListError>
  {
    if dog.isMix then
      match LookupSizes(dog.breeds, data.breeds)
      case Failure(e) => Failure(e)
      case Success(sizes) =>
        if |sizes| == 0 then Failure(EmptyBreedAverage) else Success(MeanSize(sizes))
    else
      match GetBreed(dog)
      case Failure(_) => Failure(IsMixedBreed)
      case Success(name) =>
        match Find(data.breeds, name)
        case None => Failure(DogBreedNotFound(name))
        case Some(b) => Success(b.size)
  }

  /** A non-mix dog with one breed takes the size of the first reference entry
      of that name. */
  lemma NonMixTakesFirstMatchingSize(dog: Dog, data: DogData, i: nat)
    requires !dog.isMix && |dog.breeds| == 1
    requires i < |data.breeds| && data.breeds[i].name == dog.breeds[0]
    requires forall j :: 0 <= j < i ==> data.breeds[j].name != dog.breeds[0]
    ensures ResolveSize(dog, data) == Success(data.breeds[i].size)
  {
    FindFirstMatch(data.breeds, dog.breeds[0], i);
  }

  /** A non-mix dog whose one breed is missing from the reference fails with
      `DogBreedNotFoundException` naming that breed. */
  lemma NonMixUnknownBreed(dog: Dog, data: DogData)
    requires !dog.isMix && |dog.breeds| == 1
    requires forall i :: 0 <= i < |data.breeds| ==> data.breeds[i].name != dog.breeds[0]
    ensures ResolveSize(dog, data) == Failure(DogBreedNotFound(dog.breeds[0]))
  {
  }

  /** A non-mix dog with zero or several breeds fails in `GetBreed`, before
      any lookup. */
  lemma NonMixMalformed(dog: Dog, data: DogData)
    requires !dog.isMix && |dog.breeds| != 1
    ensures ResolveSize(dog, data) == Failure(IsMixedBreed)
  {
  }

  /** A mix whose breeds are all known resolves to the ceiling of the mean of
      their ranks, duplicates counted. */
  lemma MixIsCeilingOfMean(dog: Dog, data: DogData, sizes: seq<Size>)
    requires dog.isMix && |dog.breeds| > 0 && |sizes| == |dog.breeds|
    requires forall i :: 0 <= i < |dog.breeds| ==> Find(data.breeds, dog.breeds[i]) == Some(Breed(dog.breeds[i], sizes[i]))
    ensures ResolveSize(dog, data).Success?
    ensures Rank(ResolveSize(dog, data).value) == CeilDiv(SumRanks(sizes), |dog.breeds|)
  {
    var r := LookupSizes(dog.breeds, data.breeds);
    assert r.Success?;
    assert r.value == sizes by {
      forall i | 0 <= i < |sizes| ensures r.value[i] == sizes[i] {
        assert Find(data.breeds, dog.breeds[i]) == Some(Breed(dog.breeds[i], r.value[i]));
      }
    }
  }

  /** A mix lands between the sizes of its smallest and largest breed. */
  lemma MixBetweenSmallestAndLargest(dog: Dog, data: DogData, lo: Size, hi: Size)
    requires dog.isMix && ResolveSize(dog, data).Success?
    requires forall i :: 0 <= i < |dog.breeds| ==>
      exists b :: Find(data.breeds, dog.breeds[i]) == Some(b) && Rank(lo) <= Rank(b.size) <= Rank(hi)
    ensures Rank(lo) <= Rank(ResolveSize(dog, data).value) <= Rank(hi)
  {
    var sizes := LookupSizes(dog.breeds, data.breeds).value;
    assert forall i :: 0 <= i < |sizes| ==> Rank(lo) <= Rank(sizes[i]) <= Rank(hi) by {
      forall i | 0 <= i < |sizes| ensures Rank(lo) <= Rank(sizes[i]) <= Rank(hi) {
        var b :| Find(data.breeds, dog.breeds[i]) == Some(b) && Rank(lo) <= Rank(b.size) <= Rank(hi);
        assert b.size == sizes[i];
      }
    }
    MeanRankBetween(sizes, Rank(lo), Rank(hi));
  }

  /** A mix listing a single known breed resolves to that breed's own size. */
  lemma MixOfOneBreed(dog: Dog, data: DogData, b: Breed)
    requires dog.isMix && |dog.breeds| == 1 && Find(data.breeds, dog.breeds[0]) == Some(b)
    ensures ResolveSize(dog, data) == Success(b.size)
  {
    MixIsCeilingOfMean(dog, data, [b.size]);
    assert [b.size][1..] == [];
    RankRoundTrip(b.size);
    RankInjective(ResolveSize(dog, data).value, b.size);
  }

  /** A mix fails at its first unknown breed by dereferencing the null lookup
      result; that is not `DogBreedNotFoundException`. */
  lemma MixUnknownBreed(dog: Dog, data: DogData, i: nat)
    requires dog.isMix && i < |dog.breeds| && Find(data.breeds, dog.breeds[i]).None?
    requires forall j :: 0 <= j < i ==> Find(data.breeds, dog.breeds[j]).Some?
    ensures ResolveSize(dog, data) == Failure(NullBreedReference(dog.breeds[i]))
  {
    LookupFailsAtFirstUnknown(dog.breeds, data.breeds, i);
  }

  /** A mix without breeds fails when averaging the empty list. */
  lemma MixWithoutBreeds(dog: Dog, data: DogData)
    requires dog.isMix && dog.breeds == []
    ensures ResolveSize(dog, data) == Failure(EmptyBreedAverage)
  {
  }

  /** Which failures each path can raise: `DogBreedNotFoundException` and
      `IsMixedBreedException` only for non-mix dogs, the null dereference
      and the empty average only for mixes. */
  lemma FailureKindsByPath(dog: Dog, data: DogData)
    requires ResolveSize(dog, data).Failure?
    ensures dog.isMix <==> (ResolveSize(dog, data).error.NullBreedReference? ||
                            ResolveSize(dog, data).error.EmptyBreedAverage?)
    ensures ResolveSize(dog, data).error.DogBreedNotFound? ==> ResolveSize(dog, data).error.breed in dog.breeds
  {
  }

  // ---------------------------------------------------------------------------
  // Grouping the roster

  /** The dictionary after the first loop: one empty bucket per size. */
  function EmptyBuckets(): (m: Buckets)
    ensures forall s: Size :: s in m && m[s] == []
  {
    AllSizesInRankOrder();
    map s | s in AllSizes :: []
  }

  /** `returnDictionary[s].Add(dog)`: appends the dog to bucket `s` and leaves
      the other buckets alone. */
  function Place(m: Buckets, s: Size, dog: Dog): (m': Buckets)
    requires s in m
    ensures m'.Keys == m.Keys && m'[s] == m[s] + [dog]
    ensures forall t :: t in m && t != s ==> m'[t] == m[t]
  {
    m[s := m[s] + [dog]]
  }

  /** What the loop over the roster has built after the given dogs: either
      the buckets, or the failure of the first dog that cannot be resolved. */
  function Group(dogs: seq<Dog>, data: DogData): (r: Result<Buckets, SizeListError>)
    ensures r.Success? ==> forall s: Size :: s in r.value
    decreases |dogs|
  {
    if dogs == [] then Success(EmptyBuckets())
    else
      match Group(dogs[..|dogs| - 1], data)
      case Failure(e) => Failure(e)
      case Success(m) =>
        var dog := dogs[|dogs| - 1];
        match ResolveSize(dog, data)
        case Failure(e) => Failure(e)
        case Success(s) => Success(Place(m, s, dog))
  }

  /** Reference definition of a bucket: the dogs of the roster that resolve
      to `s`, in roster order. */
  function Bucket(dogs: seq<Dog>, data: DogData, s: Size): seq<Dog>
    decreases |dogs|
  {
    if dogs == [] then []
    else
      var dog := dogs[|dogs| - 1];
      Bucket(dogs[..|dogs| - 1], data, s) + if ResolveSize(dog, data) == Success(s) then [dog] else []
  }

  /** A dog is in bucket `s` exactly when it is in the roster and resolves to `s`. */
  lemma {:induction false} BucketMembers(dogs: seq<Dog>, data: DogData, s: Size, dog: Dog)
    ensures dog in Bucket(dogs, data, s) <==> dog in dogs && ResolveSize(dog, data) == Success(s)
    decreases |dogs|
  {
    if dogs != [] {
      var init := dogs[..|dogs| - 1];
      BucketMembers(init, data, s, dog);
      assert dogs == init + [dogs[|dogs| - 1]];
    }
  }

  /** The buckets of the given sizes, concatenated in that order. */
  function Concat(m: Buckets, sizes: seq<Size>): seq<Dog>
    requires forall t: Size :: t in m
  {
    if sizes == [] then [] else m[sizes[0]] + Concat(m, sizes[1..])
  }

  /** All placed dogs, bucket by bucket in enumeration order. */
  function AllPlaced(m: Buckets): seq<Dog>
    requires forall t: Size :: t in m
  {
    Concat(m, AllSizes)
  }

  /** Placing a dog in bucket `s` adds that dog once to the concatenation of
      distinct sizes that include `s`, and changes nothing if they do not. */
  lemma {:induction false} ConcatPlace(m: Buckets, sizes: seq<Size>, s: Size, dog: Dog)
    requires forall t: Size :: t in m
    requires forall i, j :: 0 <= i < j < |sizes| ==> sizes[i] != sizes[j]
    ensures multiset(Concat(Place(m, s, dog), sizes)) ==
      multiset(Concat(m, sizes)) + if s in sizes then multiset{dog} else multiset{}
  {
    if sizes != [] {
      var m', t, rest := Place(m, s, dog), sizes[0], sizes[1..];
      assert forall i, j :: 0 <= i < j < |rest| ==> rest[i] != rest[j] by {
        forall i, j | 0 <= i < j < |rest| ensures rest[i] != rest[j] {
          assert rest[i] == sizes[i + 1] && rest[j] == sizes[j + 1];
        }
      }
      ConcatPlace(m, rest, s, dog);
      assert multiset(Concat(m', sizes)) == multiset(m'[t]) + multiset(Concat(m', rest));
      assert multiset(Concat(m, sizes)) == multiset(m[t]) + multiset(Concat(m, rest));
      if t == s {
        assert s !in rest by {
          forall j | 0 <= j < |rest| ensures rest[j] != s {
            assert rest[j] == sizes[j + 1];
          }
        }
        assert multiset(m'[t]) == multiset(m[t]) + multiset{dog};
      } else {
        assert s in sizes <==> s in rest;
      }
    }
  }

  /** Placing a dog adds exactly that dog to the placed dogs. */
  lemma PlaceAddsOne(m: Buckets, s: Size, dog: Dog)
    requires forall t: Size :: t in m
    ensures multiset(AllPlaced(Place(m, s, dog))) == multiset(AllPlaced(m)) + multiset{dog}
  {
    AllSizesInRankOrder();
    ConcatPlace(m, AllSizes, s, dog);
  }

  /** One iteration of the roster loop, from a successful prefix. */
  lemma GroupStep(dogs: seq<Dog>, data: DogData, i: nat)
    requires i < |dogs| && Group(dogs[..i], data).Success?
    ensures ResolveSize(dogs[i], data).Failure? ==>
      Group(dogs[..i + 1], data) == Failure(ResolveSize(dogs[i], data).error)
    ensures ResolveSize(dogs[i], data).Success? ==>
      Group(dogs[..i + 1], data) == Success(Place(Group(dogs[..i], data).value, ResolveSize(dogs[i], data).value, dogs[i]))
  {
    assert dogs[..i + 1][..i] == dogs[..i];
  }

  /** Appending a dog that resolves to the roster places it in its bucket. */
  lemma GroupAppend(dogs: seq<Dog>, data: DogData, dog: Dog)
    requires Group(dogs, data).Success? && ResolveSize(dog, data).Success?
    ensures Group(dogs + [dog], data) == Success(Place(Group(dogs, data).value, ResolveSize(dog, data).value, dog))
  {
    assert (dogs + [dog])[..|dogs|] == dogs;
  }

  /** Failure is sticky: once a prefix of the roster fails, the whole
      grouping fails with the same error and yields no buckets. */
  lemma {:induction false} GroupFailurePersists(dogs: seq<Dog>, data: DogData, k: nat)
    requires k <= |dogs|
    requires Group(dogs[..k], data).Failure?
    ensures Group(dogs, data) == Group(dogs[..k], data)
    decreases |dogs|
  {
    if k < |dogs| {
      assert dogs[..|dogs| - 1][..k] == dogs[..k];
      GroupFailurePersists(dogs[..|dogs| - 1], data, k);
    } else {
      assert dogs[..k] == dogs;
    }
  }

  /** The grouping succeeds exactly when every dog of the roster resolves. */
  lemma {:induction false} GroupSucceedsIffAllResolve(dogs: seq<Dog>, data: DogData)
    ensures Group(dogs, data).Success? <==> forall i :: 0 <= i < |dogs| ==> ResolveSize(dogs[i], data).Success?
    decreases |dogs|
  {
    if dogs != [] {
      var init, dog := dogs[..|dogs| - 1], dogs[|dogs| - 1];
      GroupSucceedsIffAllResolve(init, data);
      assert Group(dogs, data).Success? <==> Group(init, data).Success? && ResolveSize(dog, data).Success?;
      if Group(dogs, data).Success? {
        forall i | 0 <= i < |dogs| ensures ResolveSize(dogs[i], data).Success? {
          if i < |init| {
            assert dogs[i] == init[i];
          }
        }
      }
    }
  }

  /** The grouping aborts with the failure of the first dog that does not resolve. */
  lemma GroupFailsAtFirstFailure(dogs: seq<Dog>, data: DogData, i: nat)
    requires i < |dogs| && ResolveSize(dogs[i], data).Failure?
    requires forall j :: 0 <= j < i ==> ResolveSize(dogs[j], data).Success?
    ensures Group(dogs, data) == Failure(ResolveSize(dogs[i], data).error)
  {
    var prefix := dogs[..i + 1];
    assert prefix[..i] == dogs[..i];
    GroupSucceedsIffAllResolve(dogs[..i], data);
    GroupFailurePersists(dogs, data, i + 1);
  }

  /** On success, bucket `s` holds exactly the dogs resolving to `s`, in
      roster order; sizes no dog resolves to keep an empty bucket. */
  lemma {:induction false} GroupBucketsAreFilters(dogs: seq<Dog>, data: DogData)
    requires Group(dogs, data).Success?
    ensures forall s: Size :: Group(dogs, data).value[s] == Bucket(dogs, data, s)
    decreases |dogs|
  {
    if dogs != [] {
      GroupBucketsAreFilters(dogs[..|dogs| - 1], data);
    }
  }

  /** On success, the buckets hold each dog of the roster exactly as often as
      the roster does: nothing is lost, duplicated or invented. */
  lemma {:induction false} GroupConservesDogs(dogs: seq<Dog>, data: DogData)
    requires Group(dogs, data).Success?
    ensures multiset(AllPlaced(Group(dogs, data).value)) == multiset(dogs)
    ensures |AllPlaced(Group(dogs, data).value)| == |dogs|
    decreases |dogs|
  {
    if dogs != [] {
      var init := dogs[..|dogs| - 1];
      var dog := dogs[|dogs| - 1];
      assert dogs == init + [dog];
      GroupConservesDogs(init, data);
      assert ResolveSize(dog, data).Success?;
      GroupAppend(init, data, dog);
      PlaceAddsOne(Group(init, data).value, ResolveSize(dog, data).value, dog);
    }
    var placed := AllPlaced(Group(dogs, data).value);
    assert |multiset(placed)| == |placed| && |multiset(dogs)| == |dogs|;
  }

  /** On success there are exactly the five size keys. */
  lemma GroupHasEverySize(dogs: seq<Dog>, data: DogData)
    requires Group(dogs, data).Success?
    ensures Group(dogs, data).value.Keys == set s | s in AllSizes
  {
    AllSizesInRankOrder();
  }

  // ---------------------------------------------------------------------------
  // The computation

  /** `GetAverageDogSizeList`: creates a bucket per size, then resolves the
      dogs in roster order and appends each to its bucket, aborting at the
      first failure. */
  method GetAverageDogSizeList(dogBreedData: DogData, teamDogs: TeamDogs)
    returns (result: Result<Buckets, SizeListError>)
    ensures result == Group(teamDogs.dogs, dogBreedData)
    ensures result.Success? ==> forall s: Size :: result.value[s] == Bucket(teamDogs.dogs, dogBreedData, s)
  {
    var returnDictionary: Buckets := map[];
    for k := 0 to |AllSizes|
      invariant returnDictionary == map s | s in AllSizes[..k] :: []
    {
      returnDictionary := returnDictionary[AllSizes[k] := []];
    }
    assert AllSizes[..|AllSizes|] == AllSizes;
    assert returnDictionary == EmptyBuckets();

    var dogs := teamDogs.dogs;
    for i := 0 to |dogs|
      invariant Group(dogs[..i], dogBreedData) == Success(returnDictionary)
    {
      var dog := dogs[i];
      if dog.isMix {
        var breedsSizes: seq<Size> := [];
        for j := 0 to |dog.breeds|
          invariant LookupSizes(dog.breeds[..j], dogBreedData.breeds) == Success(breedsSizes)
        {
          assert dog.breeds[..j + 1][..j] == dog.breeds[..j];
          var found := Find(dogBreedData.breeds, dog.breeds[j]);
          if found.None? {
            LookupFailurePersists(dog.breeds, dogBreedData.breeds, j + 1);
            GroupStep(dogs, dogBreedData, i);
            GroupFailurePersists(dogs, dogBreedData, i + 1);
            result := Failure(NullBreedReference(dog.breeds[j]));
            return;
          }
          breedsSizes := breedsSizes + [found.value.size];
        }
        assert dog.breeds[..|dog.breeds|] == dog.breeds;
        if |breedsSizes| == 0 {
          GroupStep(dogs, dogBreedData, i);
          GroupFailurePersists(dogs, dogBreedData, i + 1);
          result := Failure(EmptyBreedAverage);
          return;
        }
        var averageSize := MeanSize(breedsSizes);
        assert ResolveSize(dog, dogBreedData) == Success(averageSize);
        GroupStep(dogs, dogBreedData, i);
        returnDictionary := Place(returnDictionary, averageSize, dog);
      } else {
        var dogBreedToFind := GetBreed(dog);
        if dogBreedToFind.Failure? {
          GroupStep(dogs, dogBreedData, i);
          GroupFailurePersists(dogs, dogBreedData, i + 1);
          result := Failure(IsMixedBreed);
          return;
        }
        var dogBreed := Find(dogBreedData.breeds, dogBreedToFind.value);
        if dogBreed.None? {
          GroupStep(dogs, dogBreedData, i);
          GroupFailurePersists(dogs, dogBreedData, i + 1);
          result := Failure(DogBreedNotFound(dogBreedToFind.value));
          return;
        }
        assert ResolveSize(dog, dogBreedData) == Success(dogBreed.value.size);
        GroupStep(dogs, dogBreedData, i);
        returnDictionary := Place(returnDictionary, dogBreed.value.size, dog);
      }
    }
    assert dogs[..|dogs|] == dogs;
    result := Success(returnDictionary);
    GroupBucketsAreFilters(dogs, dogBreedData);
  }
}
