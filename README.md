# The `view_` callback of the catalog bot

This project models the branch of the bot's inline-button handler that runs when a user presses `view_<category>`. The handler reads the category name from the callback data and checks that the user may open it. Category names may start with `<group>_`, and such categories are reserved for that group's members. It then counts the view in the catalog's statistics table and shows the category's products as an inline keyboard. The Telegram calls are not part of the model. What remains is a deterministic step over the callback data, the id of the user who pressed the button, the groups registry, the catalog and the statistics table. A last input, `delivered`, says whether saving the category count and rendering the product list succeeded.

Modules:

- `Text`: Python's `str.replace` with a non-empty pattern (`ReplaceAll`). It replaces every non-overlapping occurrence, scanning left to right.
- `Groups`: the group-gated visibility check (`CanView`) and the display name (`DisplayName`). The groups mapping is a Python dict, and its iteration order decides which group matches first. It is therefore an ordered sequence of `(name, members)` pairs. A registry without a `"groups"` entry behaves like the empty sequence.
- `Stats`: the `stats` entry of the catalog as a class, `ViewStats`. Its fields are the total, the per-category counters and the per-category product counters. Two methods update it in place.
- `Catalog`, `Keyboard`: products, the heading text and the product keyboard. `BuildKeyboard` builds the keyboard by appending rows in a loop.
- `ViewCallback`: the category parsing and the whole branch (`HandleView`).

Two behaviours of the code are modelled exactly as written:

- `data.replace("view_", "")` deletes every `view_` in the callback data. A category whose own name contains `view_` therefore parses to a different name (`ParseCategoryDropsInnerPrefix`).
- The display name deletes every occurrence of the group prefix, not only the leading one.

## Model

| member | source | states |
|---|---|---|
| Text.ReplaceAll | admin_features.py:51 | Deleting a pattern never makes the string longer. When the pattern starts the string, the result is shorter by at least the pattern's length. |
| Text.ReplaceAllAbsent | admin_features.py:51 | A string in which the pattern does not occur anywhere is returned unchanged. |
| Text.ReplaceAllShrinks | admin_features.py:51 | Deleting a pattern that occurs at any position makes the string strictly shorter. |
| Text.StripChangesIffOccurs | admin_features.py:51 | Deleting a pattern changes the string if and only if the pattern occurs in it. |
| Groups.CanView | admin_features.py:9-17 | The visibility check. A denied view always has a group whose prefix starts the category and that lacks the user. A user who belongs to every group may view every category. |
| Groups.FirstGatingDecides | admin_features.py:10-17 | When group i is the first, in iteration order, whose `<name>_` starts the category, the view is allowed exactly when the user is a member of group i. |
| Groups.UngatedAlwaysVisible | admin_features.py:6-17 | A category that no group's prefix starts is visible to every user. |
| Groups.DeniedIff | admin_features.py:9-17 | A view is denied exactly when some group is the first gating group and does not contain the user. Both directions are proved. |
| Groups.LaterGroupsIgnored | admin_features.py:10-17 | Replacing every group after the first gating one with any other groups leaves the decision unchanged. |
| Groups.DisplayName | admin_features.py:44-52 | The display name is never longer than the category. |
| Groups.DisplayNameFirstQualifying | admin_features.py:48-52 | Take the first group that contains the user and whose prefix starts the category. The display name is the category with every occurrence of that group's prefix deleted, and it is strictly shorter than the category. |
| Groups.DisplayNameUnqualified | admin_features.py:44-52 | When no group both contains the user and prefixes the category, the display name is the category itself. |
| Groups.DisplayNameOfGatedView | admin_features.py:44-52 | For a gated category the user may view, the prefix stripped for display is the gating group's own prefix. |
| Stats.SumIncrement | admin_features.py:32-37 | Creating a missing category counter at 0 and then incrementing it raises the sum of all category counters by exactly 1. |
| Stats.Tally | admin_features.py:126-129 | The product loop as a function of the old table and the listed names. It never removes a counter. |
| Stats.TallyCounts | admin_features.py:126-129 | After the product loop, every product counter equals its old value (0 if absent) plus the number of times the name is listed. |
| Stats.TallyKeys | admin_features.py:126-129 | After the product loop, a counter exists exactly when it existed before or its name is listed. |
| Stats.ViewStats.RecordCategoryView | admin_features.py:20-37 | Creates the stats entry and the category counter when missing. The total and that category's counter each rise by exactly 1. Every other category counter and the product tables are unchanged. If the total was the sum of the category counters, it stays so. |
| Stats.ViewStats.RecordProductViews | admin_features.py:110-129 | An empty product list changes nothing, and creates no product table for the category. Otherwise the category's product table becomes the tally of the listed names over its old contents. Other categories' tables, the category counters and the total are unchanged. |
| Keyboard.BuildKeyboard | admin_features.py:56-70 | The keyboard has one more row than there are products. Row i holds the single button for product i, labelled with its name. The last row is the `show_categories` back button. |
| Keyboard.Heading | admin_features.py:55 | The heading is the display name wrapped in the Markdown bold markers and followed by a blank line: four characters longer, with the name in the middle. |
| ViewCallback.ParseCategory | admin_features.py:2 | The category read from the callback data is never longer than the data. When the data starts with `view_`, it is shorter by at least those five characters. |
| ViewCallback.ParseCategoryRoundTrip | admin_features.py:2 | Callback data `view_` + c names category c whenever c itself does not contain `view_`. |
| ViewCallback.ParseCategoryDropsInnerPrefix | admin_features.py:2 | When c contains `view_`, callback data `view_` + c parses to a name other than c. |
| ViewCallback.HandleView | admin_features.py:1-131 | An unknown category or a denied view leaves the statistics untouched. A permitted view counts one category view. If the save or the render then fails, the handler aborts with the product counters unchanged. Otherwise it counts the product views and shows the heading with the display name and the product keyboard. |

## Left out

- ViewCallback.HandleView: runs the whole branch as one uninterrupted step. In the code, other handlers may run at the awaits between the category count (lines 36-39) and the product count (lines 110-131), and may change the statistics table in between. The model assumes nothing else changes the table. Whether `save_catalog` at line 39 raises, or both the edit at line 88 and the fallback send at line 101 raise, is an input (`delivered`). The model does not say which of them failed.
- Telegram transport: `query.answer`, deleting the last product message, `edit_text`, and the `send_message` fallback when editing fails. These are calls into the chat API, and `HandleView` returns the text and keyboard to render instead.
- `save_catalog`: a disk write with nothing to model beyond the in-memory table it persists. Only whether the save at line 39 raises is modelled, through `delivered`. The save at line 131 comes after every count and after the render. If it raises, the table is already as the model gives it, and `HandleView` reports `Shown` where the code would leave with an exception.
- The `last_updated` and `last_reset` timestamps: wall-clock formatting in a time zone.
- The short product id `abs(hash(name)) % 1000` and the session (`user_data`) entries. Python's string hash changes from process to process. A product button therefore carries the (category, product name) pair that the session entry would hold. Two products whose ids collide would overwrite each other's entry, and this is not modelled.
- The `print` debugging output.
- Products carry only their name, the one field this branch reads.
- Group members are the list stored in the registry (`seq<int>`). Duplicate group names cannot occur in the dict; the sequence allows them, and the first occurrence decides, as it would.
- A `stats` entry that exists but lacks `category_views` or `product_views` is modelled as having empty sub-tables. The code creates such a missing table empty, so every read behaves the same. A `stats` entry that lacks `total_views` would raise `KeyError` in the code. The model always has a total.
- The catalog's own `"stats"` key shares the category namespace in the code, so `view_stats` would be taken for a category. The model keeps the statistics apart from the category map.
- Access codes, bans, broadcasts, polls and group editing belong to other handlers and are not part of this model.
