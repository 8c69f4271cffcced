/**
  The view statistics kept under the catalog's "stats" entry: a total, a
  view count per category, and a view count per product of each category.
  The view callback updates them in place, creating a missing counter or
  sub-table at zero before incrementing it.
 */
module Stats {

  /** A counter table: a missing key reads as zero, as the callback creates it at 0. */
  function Count(m: map<string, int>, k: string): int
  {
    if k in m then m[k] else 0
  }

  /** The product table of `category`; a missing one reads as empty. */
  function Table(m: map<string, map<string, int>>, category: string): map<string, int>
  {
    if category in m then m[category] else map[]
  }

  /** Some key of a non-empty set; fixes the order in which `Sum` adds. */
  ghost function Pick(keys: set<string>): string
    requires keys != {}
  {
    var k :| k in keys; k
  }

  /** The sum of all counters of a table. */
  ghost function Sum(m: map<string, int>): int
    decreases |m|
  {
    if m == map[] then 0
    else
      var k := Pick(m.Keys);
      assert |m - {k}| < |m| by { assert (m - {k}).Keys < m.Keys; }
      m[k] + Sum(m - {k})
  }

  /** Any counter can be taken out of the sum first. */
  lemma {:induction false} SumRemove(m: map<string, int>, k: string)
    requires k in m
    ensures Sum(m) == m[k] + Sum(m - {k})
    decreases |m|
  {
    var p := Pick(m.Keys);
    if p != k {
      assert (m - {p}).Keys < m.Keys;
      assert (m - {k}).Keys < m.Keys;
      SumRemove(m - {p}, k);
      SumRemove(m - {k}, p);
      assert m - {p} - {k} == m - {k} - {p};
    }
  }

  /** Incrementing one counter, created at zero if missing, adds one to the sum. */
  lemma SumIncrement(m: map<string, int>, k: string)
    ensures Sum(m[k := Count(m, k) + 1]) == Sum(m) + 1
  {
    var m' := m[k := Count(m, k) + 1];
    SumRemove(m', k);
    if k in m {
      SumRemove(m, k);
      assert m' - {k} == m - {k};
    } else {
      assert m' - {k} == m;
    }
  }

  /**
    The product counters after one view of a category listing `names`, in
    order: each name in turn has its counter created at zero if missing and
    then incremented.
   */
  function Tally(counts: map<string, int>, names: seq<string>): (r: map<string, int>)
    ensures counts.Keys <= r.Keys
  {
    if names == [] then counts
    else
      var before := Tally(counts, names[..|names| - 1]);
      var n := names[|names| - 1];
      before[n := Count(before, n) + 1]
  }

  /** One turn of the product loop: counting `names[i]` extends the tally of the names before it. */
  lemma TallyStep(base: map<string, int>, names: seq<string>, i: nat, table: map<string, int>)
    requires i < |names|
    requires names[i] in table && table[names[i]] == Count(Tally(base, names[..i]), names[i])
    requires table == Tally(base, names[..i])[names[i] := table[names[i]]]
    ensures Tally(base, names[..i + 1]) == table[names[i] := table[names[i]] + 1]
  {
    assert names[..i + 1][..i] == names[..i];
  }

  /**
    Each product counter goes up by the number of times the name occurs in
    the list; a name that is not listed keeps its counter.
   */
  lemma {:induction false} TallyCounts(counts: map<string, int>, names: seq<string>, n: string)
    ensures Count(Tally(counts, names), n) == Count(counts, n) + multiset(names)[n]
  {
    if names != [] {
      var init := names[..|names| - 1];
      TallyCounts(counts, init, n);
      assert names == init + [names[|names| - 1]];
    }
  }

  /** A counter exists afterwards exactly when it existed before or its name is listed. */
  lemma {:induction false} TallyKeys(counts: map<string, int>, names: seq<string>, n: string)
    ensures n in Tally(counts, names) <==> n in counts || n in names
  {
    if names != [] {
      var init := names[..|names| - 1];
      TallyKeys(counts, init, n);
      assert names == init + [names[|names| - 1]];
    }
  }

  /** The "stats" entry of the catalog, updated in place by the view callback. */
  class ViewStats {
    /** Whether the catalog has a "stats" entry at all. */
    var present: bool
    var totalViews: int
    var categoryViews: map<string, int>
    var productViews: map<string, map<string, int>>

    /** A catalog without a "stats" entry reads as empty counter tables. */
    ghost predicate Valid()
      reads this
    {
      !present ==> totalViews == 0 && categoryViews == map[] && productViews == map[]
    }

    /** The total is the sum of the per-category counters. */
    ghost predicate Consistent()
      reads this
    {
      totalViews == Sum(categoryViews)
    }

    /** A catalog without a "stats" entry. */
    constructor ()
      ensures Valid() && Consistent()
      ensures !present && totalViews == 0 && categoryViews == map[] && productViews == map[]
    {
      present := false;
      totalViews := 0;
      categoryViews := map[];
      productViews := map[];
    }

    /**
      Counts one view of `category`: the stats table and the category's
      counter are created at zero when missing, then the category counter
      and the total each go up by one. The product table is untouched and
      the total stays the sum of the category counters.
     */
    method RecordCategoryView(category: string)
      requires Valid()
      modifies this
      ensures Valid() && present
      ensures totalViews == old(totalViews) + 1
      ensures categoryViews == old(categoryViews)[category := Count(old(categoryViews), category) + 1]
      ensures productViews == old(productViews)
      ensures old(Consistent()) ==> Consistent()
    {
      if !present {
        // the new entry starts with a zero total and empty sub-tables,
        // which is what Valid() says the missing entry already reads as
        present := true;
      }
      if category !in categoryViews {
        categoryViews := categoryViews[category := 0];
      }
      categoryViews := categoryViews[category := categoryViews[category] + 1];
      totalViews := totalViews + 1;
      SumIncrement(old(categoryViews), category);
    }

    /**
      Counts one view of each listed product of `category`, in order. An
      empty list changes nothing, not even by creating the category's
      product table; otherwise the stats entry and the category's product
      table are created when missing and every listed name's counter rises
      by the number of times it is listed. The other categories' product
      tables and the category counters are untouched.
     */
    method RecordProductViews(category: string, names: seq<string>)
      requires Valid()
      modifies this
      ensures Valid()
      ensures totalViews == old(totalViews) && categoryViews == old(categoryViews)
      ensures names == [] ==> present == old(present) && productViews == old(productViews)
      ensures names != [] ==> present
      ensures names != [] ==>
        productViews == old(productViews)[category := Tally(Table(old(productViews), category), names)]
    {
      if names != [] {
        if !present {
          present := true;
        }
        if category !in productViews {
          productViews := productViews[category := map[]];
        }
        ghost var base := Table(old(productViews), category);
        var i := 0;
        while i < |names|
          invariant 0 <= i <= |names|
          invariant present && totalViews == old(totalViews) && categoryViews == old(categoryViews)
          invariant productViews == old(productViews)[category := Tally(base, names[..i])]
        {
          var table, n := productViews[category], names[i];
          if n !in table {
            table := table[n := 0];
          }
          TallyStep(base, names, i, table);
          productViews := productViews[category := table[n := table[n] + 1]];
          i := i + 1;
        }
        assert names[..|names|] == names;
      }
    }
  }
}
