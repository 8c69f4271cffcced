/**
  The `view_<category>` branch of the bot's callback handler: check that
  the user may open the category, count the view, and show the category's
  products. Chat transport calls, persistence and timestamps are outside
  the model; what remains is a deterministic step over the callback data,
  the user who pressed the button, the groups, the catalog and the
  statistics table, with `delivered` saying whether saving the category
  count and rendering the product list succeeded.
 */
module ViewCallback {
  import opened Text
  import opened Groups
  import opened Catalog
  import opened Stats
  import opened Keyboard

  /** The prefix of the callback data that selects this branch. */
  const ViewPrefix := "view_"

  /**
    The category named by the callback data: `data.replace("view_", "")`,
    which deletes every occurrence of the prefix, not only the leading one.
   */
  function ParseCategory(data: string): (category: string)
    ensures |category| <= |data|
    ensures ViewPrefix <= data ==> |category| + |ViewPrefix| <= |data|
  {
    ReplaceAll(data, ViewPrefix, "")
  }

  /** Callback data built from a category without an inner "view_" names that category. */
  lemma ParseCategoryRoundTrip(category: string)
    requires !Occurs(category, ViewPrefix)
    ensures ParseCategory(ViewPrefix + category) == category
  {
    assert (ViewPrefix + category)[|ViewPrefix|..] == category;
    ReplaceAllAbsent(category, ViewPrefix, "");
  }

  /** A category that contains "view_" is not the one its callback data parses to. */
  lemma ParseCategoryDropsInnerPrefix(category: string)
    requires Occurs(category, ViewPrefix)
    ensures ParseCategory(ViewPrefix + category) != category
  {
    assert (ViewPrefix + category)[|ViewPrefix|..] == category;
    StripChangesIffOccurs(category, ViewPrefix);
  }

  /** What the callback leads to. */
  datatype Outcome =
    | UnknownCategory
    | Denied
    | Shown(text: string, keyboard: seq<seq<Button>>)
    | Aborted

  /**
    Handles `view_<category>` pressed by `user`. An unknown category and a
    denied view leave the statistics untouched. A permitted view counts one
    view of the category. `delivered` is whether saving that count and
    rendering the product list (by editing the message, or else by sending a
    new one) both succeed. When they do, the callback then counts one view
    of each listed product (nothing at all for an empty list) and shows the
    heading with the display name and the product keyboard. When either
    raises, the handler is left with the category counted and the products
    not.
   */
  method HandleView(data: string, user: UserId, groups: seq<Group>, catalog: map<string, seq<Product>>,
                    stats: ViewStats, delivered: bool)
    returns (outcome: Outcome)
    requires ViewPrefix <= data
    requires stats.Valid()
    modifies stats
    ensures stats.Valid()
    ensures ParseCategory(data) !in catalog ==> outcome == UnknownCategory && unchanged(stats)
    ensures ParseCategory(data) in catalog && !CanView(groups, user, ParseCategory(data)) ==>
      outcome == Denied && unchanged(stats)
    ensures ParseCategory(data) in catalog && CanView(groups, user, ParseCategory(data)) ==>
      var category, products := ParseCategory(data), catalog[ParseCategory(data)];
      && stats.present
      && stats.totalViews == old(stats.totalViews) + 1
      && stats.categoryViews == old(stats.categoryViews)[category := Count(old(stats.categoryViews), category) + 1]
      && (!delivered ==> outcome == Aborted && stats.productViews == old(stats.productViews))
      && (delivered ==>
           && outcome.Shown?
           && outcome.text == Heading(DisplayName(groups, user, category))
           && IsProductKeyboard(outcome.keyboard, category, products)
           && stats.productViews ==
                (if products == [] then old(stats.productViews)
                 else old(stats.productViews)[category := Tally(Table(old(stats.productViews), category), Names(products))]))
      && (old(stats.Consistent()) ==> stats.Consistent())
  {
    var category := ParseCategory(data);
    if category !in catalog {
      return UnknownCategory;
    }
    if !CanView(groups, user, category) {
      return Denied;
    }
    stats.RecordCategoryView(category);
    var products := catalog[category];
    var text := Heading(DisplayName(groups, user, category));
    var keyboard := BuildKeyboard(category, products);
    if !delivered {
      return Aborted;
    }
    stats.RecordProductViews(category, Names(products));
    outcome := Shown(text, keyboard);
  }
}
