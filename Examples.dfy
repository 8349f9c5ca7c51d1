/** The three-item collection the items router's tests load, and what the
    listing, the lookup and the statistics answer over it. */
module Examples {
  import opened Common
  import opened Items
  import opened Stats
  import opened Text

  function Laptop(): Item { Item(1, "Test Laptop", "Electronics", 100000) }
  function Chair(): Item { Item(2, "Test Chair", "Furniture", 50000) }
  function Phone(): Item { Item(3, "Test Phone", "Electronics", 80000) }

  function Sample(): seq<Item> { [Laptop(), Chair(), Phone()] }

  /** `?q=electronics` finds the two electronics items, in order. */
  lemma SearchByCategory()
    ensures ListQuery(Sample(), Some("electronics"), None, None).items == [Laptop(), Phone()]
    ensures ListQuery(Sample(), Some("electronics"), None, None).pagination.total == 2
  {
    assert Matches(Laptop(), "electronics") by {
      assert Lower("Electronics")[..|"electronics"|] == "electronics";
    }
    assert Matches(Phone(), "electronics") by {
      assert Lower("Electronics")[..|"electronics"|] == "electronics";
    }
    assert !Matches(Chair(), "electronics");
    assert Sample()[1..][1..] == [Phone()];
  }

  /** `?limit=2&page=2` answers the third item only. */
  lemma SecondPageOfTwo()
    ensures ListQuery(Sample(), None, Some(2), Some(2)).items == [Phone()]
    ensures ListQuery(Sample(), None, Some(2), Some(2)).pagination.totalPages == 2
  {
  }

  /** Id 999 is not found; id 1 is the laptop. */
  lemma LookupSample()
    ensures FindById(Sample(), Some(999)) == None
    ensures FindById(Sample(), Some(1)) == Some(Laptop())
  {
  }

  lemma SampleCategories()
    ensures CategoryList(Sample()) == ["Electronics", "Furniture"]
  {
    var cats := Categories(Sample());
    assert cats == ["Electronics", "Furniture", "Electronics"];
    assert cats[..2] == ["Electronics", "Furniture"];
    assert cats[..2][..1] == ["Electronics"];
    assert ["Electronics"][..0] == [];
    assert Distinct(["Electronics"]) == ["Electronics"];
    assert Distinct(["Electronics", "Furniture"]) == ["Electronics", "Furniture"];
  }

  lemma SampleBreakdown()
    ensures Breakdown(Sample(), ["Electronics", "Furniture"]) == map["Electronics" := 2, "Furniture" := 1]
  {
    assert Count(Sample(), "Electronics") == 2;
    assert Count(Sample(), "Furniture") == 1;
    assert ["Electronics", "Furniture"][..1] == ["Electronics"];
    assert ["Electronics"][..0] == [];
  }

  /** The statistics of the sample: a mean of 766.67, two categories. */
  lemma SampleStats()
    ensures CalculateStats(Sample()).total == 3
    ensures CalculateStats(Sample()).averagePrice == 76667
    ensures CalculateStats(Sample()).maxPrice == 100000
    ensures CalculateStats(Sample()).minPrice == 50000
    ensures CalculateStats(Sample()).categories == 2
    ensures CalculateStats(Sample()).categoryBreakdown == map["Electronics" := 2, "Furniture" := 1]
  {
    var items := Sample();
    assert PriceSum(items) == 230000;
    assert MaxPrice(items) == 100000;
    assert MinPrice(items) == 50000;
    SampleCategories();
    SampleBreakdown();
  }
}
