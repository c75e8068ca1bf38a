# Play-date size grouping (model of `dogs`)

This project models the core of the `dogs` play-date calculator: how
`PlayDateCalculator.GetAverageDogSizeList` gives each dog of the team roster a
size and groups the dogs by size.

- A dog that is not a mix goes through `Dog.GetBreed`. Its one breed is looked
  up by exact name, and the first matching entry of the breed reference wins.
- A mix takes the ceiling of the mean of the integer ranks of all its listed
  breeds. Duplicate breeds count once per listing.
- Every size gets a bucket, even when it stays empty. Dogs are appended in
  roster order, and the first failing dog aborts the whole call.

Modules, one per source file:

- `Breeds` (`dogs/DogData.cs`): the `Size` enumeration with ranks 0..4, the
  `Breed` record, `DogData`, and `Find`, which stands for `List<Breed>.Find`
  (the first match, or `None` for `null`).
- `Roster` (`dogs/TeamDogs.cs`): the `Dog` record, `TeamDogs`, and `GetBreed`,
  which returns a `Result` and uses `IsMixedBreedException` as its failure.
- `PlayDate` (`dogs/PlayDateCalculator.cs`):
  - the method `GetAverageDogSizeList`. It has the source's three loops: bucket
    creation, the loop over the roster, and the inner loop that collects a
    mix's breed sizes. It is proved equal to the function `Group`.
  - `Group`, which folds `ResolveSize` over the roster.
  - `ResolveSize`, which resolves one dog. It has no contract of its own; the
    lemmas below state what it does.
  - `Bucket`, an independent filter definition of each bucket.
  - the lemmas that relate these functions.
- `PlayDateScenarios` (`dogs.test/PlayDateCalculatorTests.cs`): the unit-test
  cases, stated as lemmas.
- `Wrappers`: `Option` and `Result`.

The failure results are kept apart in `SizeListError`:

- `DogBreedNotFound(breed)`: the `DogBreedNotFoundException` a non-mix dog with
  an unknown breed raises.
- `IsMixedBreed`: the `IsMixedBreedException` from `GetBreed`.
- `NullBreedReference(breed)`: a mix with an unknown breed. Here `Find` returns
  `null` and `.Size` is read from it.
- `EmptyBreedAverage`: a mix with no breeds. Here `Average` is called on an
  empty list.

The source works with doubles here: it takes `Average` over the breeds' integer
ranks and then applies `Math.Ceiling`. The model uses exact integer ceiling
division, `(sum + n - 1) / n`, instead. These agree: the average of integers
is an exact integer sum divided by the count. That quotient is either a whole
number or lies strictly between two whole numbers, well clear of any rounding
error.

Two failures on the mix path are not `DogBreedNotFoundException`:

- A mix with an unknown breed does not raise `DogBreedNotFoundException`.
  `dogs/PlayDateCalculator.cs:63` reads `.Size` from the `null` result of
  `Find`, so the model reports `NullBreedReference`.
- A mix with no breeds fails inside `Average` (`dogs/PlayDateCalculator.cs:66`).
  The model reports this as `EmptyBreedAverage`.

## Model

| member | source | states |
|---|---|---|
| Breeds.Rank | dogs/DogData.cs:18-25 | every size's underlying value is at most 4 |
| Breeds.FromRank | dogs/PlayDateCalculator.cs:67 | the cast `(Size)k` on 0..4 gives the size whose rank is `k` |
| Breeds.RankRoundTrip | dogs/DogData.cs:18-25 | casting a size's rank back gives the same size, so rank and cast are inverse bijections |
| Breeds.RankInjective | dogs/DogData.cs:18-25 | two sizes have equal ranks exactly when they are the same size |
| Breeds.RankStrictOrder | dogs/DogData.cs:18-25 | toy < small < medium < large < extraLarge by rank |
| Breeds.AllSizesInRankOrder | dogs/PlayDateCalculator.cs:50-53 | the enumeration of `Size` values has five entries, holds every size, and lists them at the positions of their ranks |
| Breeds.Find | dogs/PlayDateCalculator.cs:74 | the lookup fails exactly when no entry has the name; a found entry is in the list and has that name |
| Breeds.FindFirstMatch | dogs/PlayDateCalculator.cs:74 | the lookup returns the entry at the first index whose name matches |
| Breeds.FindIsFirst | dogs/PlayDateCalculator.cs:63 | a found entry sits at an index before which no name matches |
| Breeds.FindIgnoresLaterEntries | dogs/PlayDateCalculator.cs:74 | once a prefix of the reference holds the name, later entries (duplicates included) cannot change the lookup |
| Roster.GetBreed | dogs/TeamDogs.cs:17-25 | succeeds exactly for a non-mix with exactly one breed, and then the breed list is exactly the returned breed |
| Roster.GetBreedRejectsMix | dogs/TeamDogs.cs:19-24 | a mix always throws `IsMixedBreedException`, even with one breed |
| Roster.GetBreedRejectsBreedCount | dogs/TeamDogs.cs:19-24 | a non-mix with zero or several breeds throws `IsMixedBreedException` |
| PlayDate.SumRanks | dogs/PlayDateCalculator.cs:66 | the exact integer sum of the breeds' ranks that `Average` divides; it has no contract of its own, and `SumRanksBounds` and `MeanRankOfTwo` state its bounds and values |
| PlayDate.CeilDiv | dogs/PlayDateCalculator.cs:66-67 | the result is the least natural `q` with `sum <= q * n`: the ceiling of `sum / n` |
| PlayDate.SumRanksBounds | dogs/PlayDateCalculator.cs:66 | a sum of `n` ranks in `lo..hi` lies in `lo*n..hi*n` |
| PlayDate.CeilDivBounds | dogs/PlayDateCalculator.cs:67 | the ceiling of a quotient whose dividend lies in `lo*n..hi*n` lies in `lo..hi` |
| PlayDate.MeanRank | dogs/PlayDateCalculator.cs:66-67 | the ceiling of the mean rank never exceeds 4, so the cast back to `Size` is always valid |
| PlayDate.MeanRankBetween | dogs/PlayDateCalculator.cs:66-69 | the ceiling of the mean lies between the smallest and the largest rank of the mix |
| PlayDate.MeanRankExact | dogs/PlayDateCalculator.cs:66-67 | when the mean is a whole number, the ceiling is that number |
| PlayDate.MeanRankOfTwo | dogs/PlayDateCalculator.cs:66-67 | for two breeds the result is `ceil((a+b)/2)`: twice it is `a+b` or `a+b+1` |
| PlayDate.MeanSize | dogs/PlayDateCalculator.cs:66-67 | the resolved size has the ceiling of the mean as its rank |
| PlayDate.LookupSizes | dogs/PlayDateCalculator.cs:59-64 | succeeds exactly when every listed breed is found, then gives one size per listing (the found entry's size); on failure it names a listed breed that is missing, as the null dereference |
| PlayDate.LookupFailurePersists | dogs/PlayDateCalculator.cs:61-64 | a failure on a prefix of the breed list is the result for the whole list |
| PlayDate.LookupFailsAtFirstUnknown | dogs/PlayDateCalculator.cs:63 | the lookup aborts at the first unknown breed and reports that breed |
| PlayDate.NonMixTakesFirstMatchingSize | dogs/PlayDateCalculator.cs:73-81 | a non-mix dog with one breed takes the size of the first reference entry with that name |
| PlayDate.NonMixUnknownBreed | dogs/PlayDateCalculator.cs:74-79 | a non-mix dog whose breed is missing fails with `DogBreedNotFoundException` naming that breed |
| PlayDate.NonMixMalformed | dogs/PlayDateCalculator.cs:73 | a non-mix dog with zero or several breeds fails with `IsMixedBreedException` |
| PlayDate.MixIsCeilingOfMean | dogs/PlayDateCalculator.cs:59-69 | a mix whose breeds are all known resolves to the ceiling of the mean of their ranks, duplicates counted |
| PlayDate.MixBetweenSmallestAndLargest | dogs/PlayDateCalculator.cs:66-69 | a resolved mix lies between its smallest and largest breed size |
| PlayDate.MixOfOneBreed | dogs/PlayDateCalculator.cs:61-67 | a mix with a single known breed resolves to that breed's own size |
| PlayDate.MixUnknownBreed | dogs/PlayDateCalculator.cs:63 | a mix fails at its first unknown breed with the null-dereference failure, not `DogBreedNotFoundException` |
| PlayDate.MixWithoutBreeds | dogs/PlayDateCalculator.cs:66 | a mix with an empty breed list fails on averaging the empty list |
| PlayDate.FailureKindsByPath | dogs/PlayDateCalculator.cs:57-82 | a dog fails with the null dereference or the empty average exactly when it is a mix; a reported missing breed is one of its breeds |
| PlayDate.ResolveSize | dogs/PlayDateCalculator.cs:57-82 | the body of the roster loop for one dog; it has no contract of its own, and the `NonMix*`, `Mix*` and `FailureKindsByPath` lemmas state its results and failures |
| PlayDate.EmptyBuckets | dogs/PlayDateCalculator.cs:48-53 | every size is a key and maps to an empty list |
| PlayDate.Place | dogs/PlayDateCalculator.cs:69 | appending to a bucket leaves the keys and the other buckets unchanged |
| PlayDate.Group | dogs/PlayDateCalculator.cs:55-83 | every successful grouping has a bucket for every size |
| PlayDate.BucketMembers | dogs/PlayDateCalculator.cs:55-83 | a dog is in bucket `s` exactly when it is in the roster and resolves to `s` |
| PlayDate.GroupStep | dogs/PlayDateCalculator.cs:55-83 | one iteration of the roster loop either fails with that dog's error or appends the dog to its size's bucket |
| PlayDate.GroupAppend | dogs/PlayDateCalculator.cs:55-83 | adding a resolvable dog at the end of the roster appends it to its bucket |
| PlayDate.ConcatPlace | dogs/PlayDateCalculator.cs:69 | placing a dog adds it once to the buckets of distinct sizes that include its size |
| PlayDate.PlaceAddsOne | dogs/PlayDateCalculator.cs:69 | placing a dog adds exactly that dog to all placed dogs |
| PlayDate.GroupFailurePersists | dogs/PlayDateCalculator.cs:55-83 | once a prefix of the roster fails, the whole call fails with the same error and gives no buckets |
| PlayDate.GroupSucceedsIffAllResolve | dogs/PlayDateCalculator.cs:55-83 | the grouping succeeds exactly when every dog of the roster resolves |
| PlayDate.GroupFailsAtFirstFailure | dogs/PlayDateCalculator.cs:55-83 | the call aborts with the error of the first dog in roster order that does not resolve |
| PlayDate.GroupBucketsAreFilters | dogs/PlayDateCalculator.cs:55-83 | on success, bucket `s` is exactly the roster's dogs resolving to `s`, in roster order |
| PlayDate.GroupConservesDogs | dogs/PlayDateCalculator.cs:55-83 | on success the buckets together hold each roster dog as often as the roster does, so their total size is the roster length |
| PlayDate.GroupHasEverySize | dogs/PlayDateCalculator.cs:48-53 | on success the keys are exactly the five sizes |
| PlayDate.GetAverageDogSizeList | dogs/PlayDateCalculator.cs:46-86 | the loops compute exactly `Group` of the roster; on success every bucket is the in-order filter of the roster |
| PlayDateScenarios.TestBreedFound | dogs.test/PlayDateCalculatorTests.cs:42-55 | each entry of the tests' reference is the first with its name |
| PlayDateScenarios.TestBreedsLackPuggle | dogs.test/PlayDateCalculatorTests.cs:107-117 | the tests' reference has no "Puggle" |
| PlayDateScenarios.TestBreedsLookups | dogs.test/PlayDateCalculatorTests.cs:42-55 | the tests' reference gives every size the scenarios need |
| PlayDateScenarios.NonMixDogsKeepTheirBreedSize | dogs.test/PlayDateCalculatorTests.cs:86-93 | Coco, Cassie and Oreo, non-mix dogs of one breed, resolve to small, medium and small |
| PlayDateScenarios.DefaultRosterSizes | dogs.test/PlayDateCalculatorTests.cs:18 | against the tests' reference list, each of the seven dogs of the default roster resolves to the size of the bucket the test expects it in |
| PlayDateScenarios.SingleBreedMixesKeepTheirSize | dogs.test/PlayDateCalculatorTests.cs:86-100 | Oliver, Odie and Lexi, mixes with one breed, resolve to small, large and medium |
| PlayDateScenarios.LabradorGoldenMixIsLarge | dogs.test/PlayDateCalculatorTests.cs:100 | Black Labrador + Golden Retriever resolves to large |
| PlayDateScenarios.PugBoxerMixIsMedium | dogs.test/PlayDateCalculatorTests.cs:159-165 | Pug + Boxer (1, 3) resolves to medium |
| PlayDateScenarios.CorgiLabradorMixRoundsUpToLarge | dogs.test/PlayDateCalculatorTests.cs:167-173 | Corgi + Labrador (2, 3) rounds up to large |
| PlayDateScenarios.BreedMissingFromReference | dogs.test/PlayDateCalculatorTests.cs:107-117 | a roster whose one non-mix dog is a "Puggle" fails with `DogBreedNotFoundException` |
| PlayDateScenarios.TwoBreedsNotMarkedAsMix | dogs.test/PlayDateCalculatorTests.cs:119-129 | a non-mix dog listing Pug and Beagle fails with `IsMixedBreedException` |
| PlayDateScenarios.EmptyRoster | dogs/PlayDateCalculator.cs:48-53 | an empty roster gives all five buckets, each empty |

## Left out

- JSON deserialisation of the breed file and the roster file (`DogDataJsonDAO.GetDogData`, the `PlayDateCalculator` constructor). This is library code; the model takes both inputs already parsed, as `DogData` and `TeamDogs`.
- File reading through `FileProxy`, and the missing-file failure. This is I/O.
- Console output in `PrintListOfDogsBySize`, command-line parsing and dependency wiring in `Program.cs`, and the test logger and mocks. These are presentation and plumbing.
- Floating point: `Average` followed by `Math.Ceiling` is replaced by exact integer ceiling division. The argument for why the two agree is given above.
- `null` collections: a roster, breed list or reference list that is `null` would raise `NullReferenceException` in the source. Dafny sequences cannot be `null`, so the model has no such case. The mix-path `null` lookup result is modelled, as `NullBreedReference`.
- Out-of-range enum values: a C# `Size` can hold any integer, for instance one deserialised from a number. The model's `Size` has exactly the five declared values.
- Exception messages: `DogBreedNotFound` carries the missing breed, which the source's message names, but not the message text.
- NullBreedReference: records the breed whose lookup gave `null`. The source's `NullReferenceException` names no breed, so this field is extra to the model. `LookupSizes` and `MixUnknownBreed` state which breed it is, which the program does not report.
- Dictionary enumeration order: a Dafny `map` has no order. `AllSizesInRankOrder` states the order in which the buckets are created, but the model does not state the order in which a caller enumerates them.
- Object identity: dogs are values in the model. The source's lists hold references to the roster's `Dog` objects.
- The in-place `Add` calls on the buckets' lists are modelled as map updates (`Place`). No aliasing between buckets exists in the source, so nothing depends on it.
- `Roster.GetBreed`: the model does not state separately that it leaves `Name`, `Breeds` and `IsMix` unchanged. As a pure function it cannot change them.
- The tests' full expected dictionary for the default seven-dog roster is not restated as one lemma. `DefaultRosterSizes` states each of the seven dogs' sizes against the tests' reference, and `GroupBucketsAreFilters` states how resolved dogs are placed.
