/** The breed reference data: the ordinal `Size` scale and the `Breed` records. */
module Breeds {
  import opened Wrappers

  /** The five size categories, declared smallest first; their ranks are the
      enumeration's implicit underlying values. */
  datatype Size = Toy | Small | Medium | Large | ExtraLarge

  /** The largest underlying value of `Size`. */
  const MaxRank: nat := 4

  /** The integer value of a size, `(int)size`. */
  function Rank(s: Size): (r: nat)
    ensures r <= MaxRank
  {
    match s
    case Toy => 0
    case Small => 1
    case Medium => 2
    case Large => 3
    case ExtraLarge => 4
  }

  /** The cast `(Size)k` for a value that names a declared member. */
  function FromRank(k: nat): (s: Size)
    requires k <= MaxRank
    ensures Rank(s) == k
  {
    if k == 0 then Toy
    else if k == 1 then Small
    else if k == 2 then Medium
    else if k == 3 then Large
    else ExtraLarge
  }

  /** Casting a size to its rank and back gives the same size, so `Rank` and
      `FromRank` are mutually inverse bijections between `Size` and 0..4. */
  lemma RankRoundTrip(s: Size)
    ensures FromRank(Rank(s)) == s
  {
  }

  /** Distinct sizes have distinct ranks. */
  lemma RankInjective(a: Size, b: Size)
    ensures Rank(a) == Rank(b) <==> a == b
  {
  }

  /** The ranks follow the declaration order strictly. */
  lemma RankStrictOrder()
    ensures Rank(Toy) < Rank(Small) < Rank(Medium) < Rank(Large) < Rank(ExtraLarge)
  {
  }

  /** `Enum.GetValues(typeof(Size))`: every member, in ascending value order. */
  const AllSizes: seq<Size> := [Toy, Small, Medium, Large, ExtraLarge]

  /** `AllSizes` lists each size once, at the position of its rank. */
  lemma AllSizesInRankOrder()
    ensures |AllSizes| == MaxRank + 1
    ensures forall k :: 0 <= k < |AllSizes| ==> Rank(AllSizes[k]) == k
    ensures forall s: Size :: s in AllSizes
  {
    forall s: Size ensures s in AllSizes {
      assert AllSizes[Rank(s)] == s;
    }
  }

  /** One entry of the reference list: a breed name and its one size. */
  datatype Breed = Breed(name: string, size: Size)

  /** The reference data, `DogData.Breeds`, in list order. */
  datatype DogData = DogData(breeds: seq<Breed>)

  /** `breeds.Find(x => x.Name == name)`: the first entry with exactly that
      name, or `None` (the C# `null`) when no entry has it. */
  function Find(breeds: seq<Breed>, name: string): (r: Option<Breed>)
    ensures r.None? <==> forall i :: 0 <= i < |breeds| ==> breeds[i].name != name
    ensures r.Some? ==> r.value in breeds && r.value.name == name
  {
    if breeds == [] then None
    else if breeds[0].name == name then Some(breeds[0])
    else Find(breeds[1..], name)
  }

  /** `Find` returns the entry at the first index whose name matches. */
  lemma {:induction false} FindFirstMatch(breeds: seq<Breed>, name: string, i: nat)
    requires i < |breeds| && breeds[i].name == name
    requires forall j :: 0 <= j < i ==> breeds[j].name != name
    ensures Find(breeds, name) == Some(breeds[i])
  {
    if i > 0 {
      assert breeds[0].name != name;
      FindFirstMatch(breeds[1..], name, i - 1);
    }
  }

  /** Whatever `Find` returns sits at an index before which no name matches. */
  lemma {:induction false} FindIsFirst(breeds: seq<Breed>, name: string)
    requires Find(breeds, name).Some?
    ensures exists i :: 0 <= i < |breeds| && breeds[i] == Find(breeds, name).value &&
                        forall j :: 0 <= j < i ==> breeds[j].name != name
  {
    if breeds[0].name != name {
      FindIsFirst(breeds[1..], name);
      var i :| 0 <= i < |breeds[1..]| && breeds[1..][i] == Find(breeds[1..], name).value &&
               forall j :: 0 <= j < i ==> breeds[1..][j].name != name;
      assert breeds[i + 1] == Find(breeds, name).value;
      assert forall j :: 0 <= j < i + 1 ==> breeds[j].name != name by {
        forall j | 0 < j < i + 1 ensures breeds[j].name != name {
          assert breeds[j] == breeds[1..][j - 1];
        }
      }
    }
  }

  /** Once a prefix of the list contains the name, entries after that prefix
      (later duplicates in particular) cannot change what `Find` returns. */
  lemma {:induction false} FindIgnoresLaterEntries(breeds: seq<Breed>, name: string, k: nat)
    requires k <= |breeds|
    requires Find(breeds[..k], name).Some?
    ensures Find(breeds, name) == Find(breeds[..k], name)
  {
    assert k > 0;
    if breeds[0].name != name {
      assert breeds[..k][1..] == breeds[1..][..k - 1];
      FindIgnoresLaterEntries(breeds[1..], name, k - 1);
    }
  }
}
