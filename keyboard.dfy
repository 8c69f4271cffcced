/**
  The screen the view callback shows for a category: a bold heading with
  the display name and an inline keyboard of one row per product followed
  by a row that goes back to the category list.
 */
module Keyboard {
  import opened Catalog

  /**
    What pressing a button does. A product button carries a short id under
    which the session remembers the (category, product) pair it opens; the
    model keeps the pair itself.
   */
  datatype Target = OpenProduct(category: string, name: string) | Callback(data: string)

  datatype Button = Button(text: string, target: Target)

  /** The last row of every product keyboard. */
  const BackButton := Button("\U{1F519} Retour au menu", Callback("show_categories"))

  /** The button of one product, labelled with its name. */
  function ProductButton(category: string, p: Product): Button
  {
    Button(p.name, OpenProduct(category, p.name))
  }

  /** The heading of the product list, in Markdown: the name in bold, then a blank line. */
  function Heading(displayName: string): (h: string)
    ensures |h| == |displayName| + 4
    ensures h[..1] == "*" && h[|h| - 3..] == "*\n\n"
    ensures h[1..|h| - 3] == displayName
  {
    "*" + displayName + "*\n\n"
  }

  /**
    `rows` is the keyboard of `category`: one single-button row per product,
    in catalog order, then the back row.
   */
  ghost predicate IsProductKeyboard(rows: seq<seq<Button>>, category: string, products: seq<Product>)
  {
    && |rows| == |products| + 1
    && (forall i :: 0 <= i < |products| ==> rows[i] == [ProductButton(category, products[i])])
    && rows[|products|] == [BackButton]
  }

  /** Builds the keyboard by appending one row per product, then the back row. */
  method BuildKeyboard(category: string, products: seq<Product>) returns (rows: seq<seq<Button>>)
    ensures IsProductKeyboard(rows, category, products)
  {
    rows := [];
    for i := 0 to |products|
      invariant |rows| == i
      invariant forall j :: 0 <= j < i ==> rows[j] == [ProductButton(category, products[j])]
    {
      rows := rows + [[ProductButton(category, products[i])]];
    }
    rows := rows + [[BackButton]];
  }
}
