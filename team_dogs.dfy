/** The roster: `Dog` records and the single-breed accessor. */
module Roster {
  import opened Wrappers

  /** A dog as listed in the roster: its name, its breed names (in listed
      order, duplicates allowed) and whether it is declared a mix. */
  datatype Dog = Dog(name: string, breeds: seq<string>, isMix: bool)

  /** `TeamDogs.Dogs`: the roster, in listed order. */
  datatype TeamDogs = TeamDogs(dogs: seq<Dog>)

  /** The exception `GetBreed` throws for a mix or a malformed single breed. */
  datatype IsMixedBreedException = IsMixedBreedException

  /** `Dog.GetBreed()`: the dog's one breed, when it is not a mix and lists
      exactly one breed; `IsMixedBreedException` otherwise. */
  function GetBreed(dog: Dog): (r: Result<string, IsMixedBreedException>)
    ensures r.Success? <==> !dog.isMix && |dog.breeds| == 1
    ensures r.Success? ==> dog.breeds == [r.value]
  {
    if !dog.isMix && |dog.breeds| == 1 then Success(dog.breeds[0])
    else Failure(IsMixedBreedException)
  }

  /** A dog flagged as a mix is always rejected, even with a single breed. */
  lemma GetBreedRejectsMix(dog: Dog)
    requires dog.isMix
    ensures GetBreed(dog) == Failure(IsMixedBreedException)
  {
  }

  /** A non-mix dog with no breed or with several is rejected. */
  lemma GetBreedRejectsBreedCount(dog: Dog)
    requires !dog.isMix && |dog.breeds| != 1
    ensures GetBreed(dog) == Failure(IsMixedBreedException)
  {
  }
}
