# RngFemboyBot roll engine, in Dafny

This project models the roll engine of the RngFemboyBot Discord bot (`main.py`), without the Discord and HTTP plumbing. The engine has three pieces of process-wide state:

- `seen_urls`: the URLs already shown.
- `rng_settings`: per-user settings.
- `inventory`: per-user roll history.

The model is one class, `Engine.RollEngine`, with these three fields and one method per command. The five parts of the engine are:

- **Rarity selection** (`rarity.dfy`). `choose_rarity` walks the ordered five-tier table, adding up the weights. It returns the first tier whose running total reaches the draw, or `"Common"` if none does. It also returns the flavour number. Weights are exact `real`s: 0.70, 0.20, 0.075, 0.024, 0.001. The two random values are parameters.
- **Deduplicating resolver** (`resolver.dfy`, `Engine.RollEngine.FetchFemboy`). `"Legendary"` always gives the fixed Astolfo item. Any other rarity asks the image endpoint up to five times. It keeps the first URL not served before and adds that URL to `seen_urls`. If all five answers were served before, it falls back to Astolfo. A failing answer ends the call with `SourceError`. The endpoint is a sequence of answers, each `Url(u)` or `HttpError`.
- **Roll recording** (`Engine.RollEngine.Roll`). On a fetch error nothing is recorded. Otherwise exactly one `{name, rarity, number}` record is appended to the roller's inventory. That inventory is created empty first if needed.
- **Inventory aggregation** (`inventory.dfy`). The `!inventory` loop counts records per (name, rarity) key, in order of first occurrence.
- **Settings** (`settings.dfy`, `text.dfy`). Settings are created lazily with autoclaim off and an empty autodelete list. `!autoclaim` parses on/off case-insensitively. `!autodelete` title-cases its argument and checks it against the tier names. It then toggles the name in the user's list and reports `Enabled` or `Disabled`.

Two behaviours of the code are easy to miss, and the model keeps both:

- A failed fetch is an error returned to `!roll`, which records nothing (`main.py:117-118`, `main.py:133-136`). It does not fall back to Astolfo.
- When no running total reaches the draw, the result is the literal `"Common"` (`main.py:108`), not the last tier.

## Model

| member | source | states |
|---|---|---|
| `Rarity.ChooseRarity` | main.py:100-108 | The returned name is the tier selected by the cumulative walk over the rarity table, or "Common" when none is reached. The flavour number is returned unchanged and lies in [1, 100000000]. |
| `Rarity.FirstReaching` | main.py:102-105 | The index found is the first tier whose running weight total is at least the draw. Every earlier total is below the draw. No index is found exactly when every total is below the draw. |
| `Rarity.FirstReachingIsFirst` | main.py:103-107 | The index found is the only tier whose running total reaches the draw while every earlier total stays below it. |
| `Rarity.ChosenName` | main.py:100-108 | The selected name belongs to the tier whose total is the first to reach the draw. When every running total is below the draw, the name is "Common". |
| `Rarity.SelectedExactlyOnInterval` | main.py:92-105 | With positive weights, tier i is chosen exactly for draws in (total of tiers before i, total through i]. That interval is as wide as the tier's weight. |
| `Rarity.FallbackIffDrawExceedsTotal` | main.py:103-108 | The "Common" fallback is taken exactly when the draw exceeds the sum of all weights. |
| `Rarity.RarityTableIsDistribution` | main.py:92-98 | The table's weights are positive and sum to exactly 1. Its names are Common, Rare, Elite, Epic, Legendary, in that order. |
| `Rarity.ChosenNameExamples` | main.py:92-108 | Draw 0.699999 gives Common and 0.700001 gives Rare. Draws in (0.999, 1] give Legendary. Draws above 1 give the Common fallback. |
| `Resolver.Attempts` | main.py:116-125 | From attempt i on, at most five answers are consumed in total. Answers before the deciding one are URLs already served. An HttpError ends with SourceError and leaves the set unchanged. An unserved URL is returned as "Femboy" and is the only URL added. Exhausting the attempts gives Astolfo with the set unchanged. |
| `Resolver.Resolve` | main.py:111-125 | "Legendary" gives Astolfo, consumes no answers and leaves the served set unchanged. Any other rarity consumes 1 to 5 answers, and every answer before the last consumed one is a URL served before. The result is SourceError if the last answer failed, "Femboy" with that URL if it was unserved (the set grows by exactly that URL), or Astolfo after five served URLs. The served set never shrinks. |
| `Resolver.AllSeenFallsBack` | main.py:121-125 | If all five answers are URLs already served, the result is Astolfo and the served set is unchanged. |
| `Resolver.FirstDecisiveAnswer` | main.py:116-123 | For a non-Legendary rarity, the first answer that is a failure or an unserved URL decides the result and how many answers are consumed. |
| `Resolver.SessionAcceptsDistinctUrls` | main.py:121-123 | Over any run of fetches sharing `seen_urls`, no URL is accepted twice and none that was served before the run. The final set is the initial set plus exactly the accepted URLs. |
| `Inventory.CountByKey` | main.py:168-171 | The keys come out in first-occurrence order, and the map holds exactly those keys. Each key's count is the number of records with that (name, rarity). |
| `Inventory.FirstKeysMembership` | main.py:168-171 | A key appears in the aggregation exactly when some record carries it, exactly when its count is positive. |
| `Inventory.FirstKeysDistinct` | main.py:168-171 | No key appears twice in the aggregation. |
| `Inventory.FirstKeysOfPrefix` | main.py:169-171 | The keys of any prefix of the inventory are a prefix of the keys of the whole. Keys are only appended as they first occur. |
| `Inventory.CountsSumToLength` | main.py:168-171 | The counts add up to the number of records. |
| `Inventory.AggregationExample` | main.py:168-171 | Three Common and two Rare "Femboy" records aggregate to Common x3 followed by Rare x2. |
| `Text.Lower` | main.py:197-199 | `lower()` keeps the length and lowers each character. |
| `Text.Title` | main.py:211 | `title()` keeps the length and changes only the case of each character. Its first character is never lower case. `Text.TitleAt` gives the rule for each character. |
| `Text.TitleIdempotent` | main.py:211 | Title-casing a title-cased string changes nothing. |
| `Text.TitleAt` | main.py:211 | `s.title()` character by character: the first character, and every character after an uncased one, is upper-cased. A character after a cased one is lowered. |
| `Text.TitleMatchesIff` | main.py:211 | For a name that is its own title case, `s.title()` equals it exactly when `s` equals it ignoring case. |
| `Text.CapitalisedIsTitled` | main.py:92-98 | A capitalised word, like each tier name, is its own title case. |
| `Settings.ParseSwitch` | main.py:197-200 | The argument gives true exactly when it is "on" in any mix of cases. It gives false exactly when it is "off" in any mix of cases. |
| `Settings.ValidNames` | main.py:210 | The accepted names are the rarity table's names, one per tier, in table order. |
| `Settings.ValidNamesAreTitled` | main.py:210-211 | Every tier name is unchanged by title-casing. |
| `Settings.AutodeleteAcceptsAnyCasing` | main.py:210-212 | The argument is accepted exactly when it spells some tier name ignoring case, and it is then normalised to that name. |
| `Settings.IndexOf` | main.py:214 | The position found holds the name, and no earlier position does. |
| `Settings.RemoveFirst` | main.py:214 | On a list holding the name, `list.remove` deletes its first occurrence and keeps the other elements in their order. Python raises `ValueError` on an absent name. The only caller, the toggle, removes a name it has just found. The model returns the list unchanged in that case. |
| `Settings.Toggle` | main.py:213-216 | The toggle reports Disabled exactly when the name was present. An absent name is appended at the end. A present name loses its first occurrence, and the other names keep their order. |
| `Settings.RemoveFirstOfDistinct` | main.py:214 | On a duplicate-free list, removal keeps it duplicate-free and removes the name, and only that name. |
| `Settings.RemoveFirstAppended` | main.py:214-216 | Removing a name just appended to a list without it gives back the list. |
| `Settings.ToggleReportsAction` | main.py:213-216 | The toggle reports Disabled exactly when the name was present. Afterwards the name is present exactly when Enabled was reported. No other name changes membership. |
| `Settings.TogglePreservesWellFormed` | main.py:210-216 | A duplicate-free list of tier names stays one after toggling a tier name. |
| `Settings.ToggleTwice` | main.py:213-216 | Two toggles report opposite actions and restore every name's membership. When the name was absent, they restore the exact list. |
| `Settings.ToggleEpicTwiceExample` | main.py:213-216 | On default settings, toggling "Epic" gives ["Epic"] with Enabled. Toggling it again gives [] with Disabled. |
| `Engine.RollEngine.constructor` | main.py:33-34 | The engine starts with the stored settings and inventory maps and an empty served-URL set. |
| `Engine.RollEngine.UserSettingsFor` | main.py:40-41 | Returns the user's settings, storing the defaults (autoclaim off, no autodelete) first if the user had none. |
| `Engine.RollEngine.UserInventory` | main.py:43-44 | Returns the user's records, storing an empty list first if the user had none. |
| `Engine.RollEngine.FetchFemboy` | main.py:111-125 | The retry loop's result, consumed-answer count and new served set are those of `Resolver.Resolve` on the old set. |
| `Engine.RollEngine.Roll` | main.py:132-156 | The rarity is the one ChooseRarity selects, and the content is what Resolve gives for that rarity. On a fetch error the result is that error and neither map changes. On success exactly one record {name, rarity, number} is appended to the end of the roller's inventory, which is created empty first if needed. Other users' inventories are untouched, and the roller's settings are materialised. The DM and delayed-delete flags are the roller's autoclaim setting and whether the rarity is in their autodelete list. Well-formed settings stay well formed. |
| `Engine.RollEngine.InventoryCounts` | main.py:161-171 | Materialises the user's (possibly empty) inventory. Returns its keys in first-occurrence order, with each key's record count. |
| `Engine.RollEngine.Autoclaim` | main.py:193-202 | On/off in any case overwrites the flag and reports it. Any other argument gives InvalidSettingsArgument and leaves the settings as they were, apart from default settings being created for a new user. |
| `Engine.RollEngine.Autodelete` | main.py:206-216 | A title-cased argument that is not a tier name gives InvalidRarity, with only the default settings materialised. Otherwise the name is toggled in the user's list and the action is reported. Well-formed settings stay well formed. |
| `Engine.AutodeleteTwiceScenario` | main.py:206-216 | On a fresh engine, `!autodelete epic` reports Enabled and `!autodelete EPIC` then reports Disabled, leaving the list empty. |
| `Engine.RepeatedUrlScenario` | main.py:128-147 | With an endpoint that always answers the same URL and a Common draw, the first roll shows that URL as "Femboy". The second roll falls back to Astolfo. |
| `Engine.RollsRecordedInOrder` | main.py:144-146 | After two rolls by one user on a fresh engine, the inventory holds the items of the successful rolls, in roll order. |

## Left out

- The Discord side is not modelled: gateway, channel provisioning (`ensure_rng_channel`, `on_ready`, `on_guild_join`), command routing, embeds, message text and `!rngsettings` (which only displays settings). This includes the `#rng` channel guard of `!roll` (`main.py:130-131`). It also includes a failure of the embed send before recording (`main.py:141`), which would skip the append.
- The image endpoint and its HTTP session are a sequence of answers. `FetchFemboy`, `Roll` and `Resolve` require at least five answers, one per possible attempt. Every kind of request failure (status, body, missing `url` key) is the single answer `HttpError`.
- `random.random` and `random.randint` are parameters. The flavour number is taken as already in [1, 100000000], which is what `randint` guarantees.
- The draw is any real, not only one in [0, 1), so the defensive "Common" fallback is reachable in the model. In the source it is unreachable. The binary floating-point running total ends at 1 - 2^-53, which is the largest value `random.random()` can return, and with exact weights the total is 1.
- `ChooseRarity` uses exact weights and does not model the source's floating-point running totals. Those are 0.7, 0.8999999999999999, 0.9749999999999999, 0.9989999999999999 and 0.9999999999999999. A draw above a float total but not above the corresponding exact total lands one tier higher in the source than in the model. Among the values `random.random()` can return, this happens just below 0.975 and 0.999:
  - the double nearest 0.975 gives Epic in the source and Elite in the model;
  - the double nearest 0.999 gives Legendary in the source and Epic in the model.
- Persistence (`load_json`, `save_json`, `save_all`) is file I/O. Loading is the constructor's two maps; saving is a no-op.
- The autoclaim DM and the delayed autodelete (`main.py:150-159`) are asynchronous, best-effort side effects. A roll only reports whether each would be attempted (`Rolled.notify`, `Rolled.scheduleDelete`).
- `Text.Lower` and `Text.Title` handle ASCII letters only. Python's `str.lower` and `str.title` also map non-ASCII letters; here those are left as they are.
- The aggregation key is the pair (name, rarity), not the rendered string `"name (rarity)"`. The two agree unless a name or rarity contains ` (`. For example, name "A (B" with rarity "C" and name "A" with rarity "B (C" both render as "A (B (C)". The names and rarities the engine produces never contain ` (`.
- There is no concurrency: the engine is single-threaded, as the source runs it, so the check-then-add on the served set is atomic here.
