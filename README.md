# Martian companion rewards and allocation calculator, in Dafny

This project models the two pieces of local logic in the xallet finance
companion app:

- **The companion's reward and wardrobe state machine**
  (`components/MartianCompanion.tsx`), over the static wardrobe catalog
  (`constants.tsx`). The user's `UserStats` hold a credit balance
  (`tokens`), two daily flags (`dailyEarned`, `dailySaved`), an optional
  leaderboard rank, and two id lists: the wardrobe items owned and the items
  worn. Four handlers each turn the current `UserStats` into a new one:
  toggle the figure's gender, claim the daily mystery box, buy an item, and
  toggle an item on or off. Two predicates gate the interface: the T-shirt
  milestone and the daily claim.
- **The allocation calculator** (`components/AllocationCalculator.tsx`).
  It maps an income and a risk tier to three amounts and three whole-number
  percentages. It also works out the converted totals of the logged
  expenses and incomes, the operations budget left, and where the strategy
  slider sits.

Files:

- `types.dfy` (module `Types`): the records of `types.ts`. Optional
  TypeScript fields are `Option` values, except `isSpecial?` of a wardrobe
  item. That field is a plain `bool` where absent means `false`, because
  its only reader, `!i.isSpecial` (components/MartianCompanion.tsx:341),
  treats absent and `false` alike.
- `constants.dfy` (module `Constants`): `WARDROBE_ITEMS` as a constant
  sequence, the exchange rate, the catalog look-up and the two catalog
  filters (the boutique listing and the mystery-box pool), and facts about
  the catalog.
- `martian_companion.dfy` (module `MartianCompanion`):
  - each handler as a pure function from the old `UserStats` to the new one
    (`GenderToggled`, `MysteryBoxClaimed`, `ItemBought`, `EquipToggled`);
  - the class `Companion`, which holds the current `stats`. Its methods
    replace `stats` and are proved equal to those functions;
  - the lemmas about the handlers.
- `allocation_calculator.dfy` (module `AllocationCalculator`): the
  calculator, with exact `real` amounts.

The handler functions, the filters and their lemmas take the catalog as a
parameter `catalog`, and their lemmas add "no two entries share an id"
(`DistinctIds`) where they need it. The component always passes
`WARDROBE_ITEMS`: the methods of `Companion` pass `WardrobeItems`, and
`CatalogIdsDistinct` proves that its ids are distinct.

The state invariant is `Consistent`: credits are never negative, and every
worn id is owned. Every handler keeps it. For equip, this relies on the
interface offering equip only on owned items. Equipping also keeps "at most
one worn catalog item per category" (`OnePerCategory`). Buying does not
keep that property, and the model proves so.

## Model

| member | source | states |
|---|---|---|
| `Constants.CatalogIdsDistinct` | constants.tsx:14-36 | no two catalog entries share an id |
| `Constants.EveryCategoryHasTwoItems` | constants.tsx:16-35 | each of head, body, legs and accessory has at least two catalog items |
| `Constants.SpecialItemsAreS1AndS2` | constants.tsx:34-35 | a catalog item is special exactly when its id is `s1` or `s2`, and special items cost 0 |
| `Constants.NonSpecialItemsCostCredits` | constants.tsx:16-31 | every catalog item that is not special has a price above 0 |
| `Constants.FindIn` | components/MartianCompanion.tsx:96 | `find` returns an entry of the list carrying the id, and returns nothing exactly when no entry carries it |
| `Constants.FindInFirst` | components/MartianCompanion.tsx:96 | `find` returns the first entry carrying the id: an entry preceded by no other entry with that id |
| `Constants.FindItemExact` | components/MartianCompanion.tsx:96 | the look-up returns `item` exactly when `item` is the catalog entry with that id, because ids are distinct |
| `Constants.CategoryIn` | components/MartianCompanion.tsx:100-101 | an id has a category exactly when the list knows it, and that category is the one of an entry carrying the id |
| `Constants.BoutiqueInKeeps` | components/MartianCompanion.tsx:341 | an item is listed exactly when it is in the list and is either not special or owned |
| `Constants.BoutiqueListing` | components/MartianCompanion.tsx:341 | non-special catalog items are always listed, and a special one exactly when it is owned |
| `Constants.BoutiqueInSplits` | components/MartianCompanion.tsx:341 | the listing filter splits over concatenation, so the listing keeps catalog order |
| `Constants.UnownedIn` | components/MartianCompanion.tsx:69 | the mystery-box pool holds exactly the entries of the list whose id is not owned |
| `Constants.UnownedEmptyIffAllOwned` | components/MartianCompanion.tsx:69-70 | the pool is empty exactly when every id of the list is owned |
| `Constants.UnownedShrinksByOne` | components/MartianCompanion.tsx:69-77 | in a list with distinct ids, owning one pool entry's id shrinks the pool by exactly one |
| `MartianCompanion.IsTeeUnlocked` | components/MartianCompanion.tsx:65 | unlocked exactly when tokens are at least 10000 and a rank is present, non-zero and at most 100; absent or 0 counts as 999 |
| `MartianCompanion.CanClaimDaily` | components/MartianCompanion.tsx:66 | claimable exactly when both daily flags are present and true |
| `MartianCompanion.PersonalityColorByTemperament` | components/MartianCompanion.tsx:54-63 | purple exactly for the male figure; otherwise cyan exactly for the NT codes, pink exactly for the SJ codes, and lime for the rest |
| `MartianCompanion.WithoutCategoryKeeps` | components/MartianCompanion.tsx:99-102 | the filter keeps exactly the ids that are not catalog items of the category, ids unknown to the catalog included |
| `MartianCompanion.WithoutId` | components/MartianCompanion.tsx:105 | the filter removes every occurrence of the id and keeps the multiplicity of every other id |
| `MartianCompanion.WithoutCategorySplits` | components/MartianCompanion.tsx:99-102 | the category filter splits over concatenation, so kept ids stay in order |
| `MartianCompanion.WithoutCategoryNoMatch` | components/MartianCompanion.tsx:99-102 | with nothing of the category present, the filter returns its input unchanged |
| `MartianCompanion.WithoutIdSplits` | components/MartianCompanion.tsx:105 | the id filter splits over concatenation, so kept ids stay in order |
| `MartianCompanion.CountWithoutCategory` | components/MartianCompanion.tsx:99-102 | after the category filter, the category's count is 0 and every other category's count is unchanged |
| `MartianCompanion.CountWithoutId` | components/MartianCompanion.tsx:105 | the id filter never raises any category's count |
| `MartianCompanion.GenderToggleFlipsOnly` | components/MartianCompanion.tsx:47-52 | the toggle flips the gender and changes nothing else; toggling twice restores the state; consistency is kept |
| `MartianCompanion.ClaimWhenEverythingOwned` | components/MartianCompanion.tsx:69-72 | with every catalog id owned, whatever the random pick: tokens + 100, both flags false, owned and worn lists unchanged |
| `MartianCompanion.ClaimGrantsUnownedItem` | components/MartianCompanion.tsx:69-81 | otherwise the granted item is a catalog item not owned before; owned becomes owned + [its id]; tokens + 50; both flags false; nothing else changes |
| `MartianCompanion.ClaimShrinksPool` | components/MartianCompanion.tsx:69-81 | a claim that grants an item leaves exactly one fewer unowned catalog item |
| `MartianCompanion.ClaimConsumesDay` | components/MartianCompanion.tsx:65-81 | after a claim, no further claim is possible; tokens rise by at least 50; an unlocked milestone stays unlocked |
| `MartianCompanion.ClaimKeepsConsistent` | components/MartianCompanion.tsx:68-81 | a claim keeps tokens non-negative and worn ids owned |
| `MartianCompanion.BuyRejected` | components/MartianCompanion.tsx:85-86 | with tokens below the price, buying changes nothing |
| `MartianCompanion.BuySucceeds` | components/MartianCompanion.tsx:85-93 | otherwise tokens become tokens - price, which is at least 0; the id is appended to both lists; gender, flags, rank and the rest are unchanged |
| `MartianCompanion.BuySpendsCredits` | components/MartianCompanion.tsx:85-93 | buying a non-special catalog item strictly lowers the tokens |
| `MartianCompanion.BuyKeepsConsistent` | components/MartianCompanion.tsx:85-93 | buying keeps tokens non-negative and worn ids owned |
| `MartianCompanion.BuyIgnoresCategory` | components/MartianCompanion.tsx:85-93 | if an item of the same category is already worn, buying leaves two worn items in that category, breaking one-per-category |
| `MartianCompanion.EquipUnknownId` | components/MartianCompanion.tsx:95-97 | an id not in the catalog changes nothing |
| `MartianCompanion.EquipPutsOn` | components/MartianCompanion.tsx:99-107 | equipping an item not worn: it is worn afterwards, the only worn item of its category, and the other categories' ids and unknown ids are kept in order |
| `MartianCompanion.EquipTakesOff` | components/MartianCompanion.tsx:104-105 | toggling a worn item removes exactly that id; every other id keeps its multiplicity; nothing else changes |
| `MartianCompanion.EquipKeepsOnePerCategory` | components/MartianCompanion.tsx:95-111 | if at most one item per category was worn before equipping, the same holds after |
| `MartianCompanion.EquipKeepsConsistent` | components/MartianCompanion.tsx:95-111 | equipping an owned id keeps worn ids owned and tokens non-negative |
| `MartianCompanion.Companion.ToggleGender` | components/MartianCompanion.tsx:47-52 | replaces `stats` by the toggled state and keeps it consistent |
| `MartianCompanion.Companion.ClaimMysteryBox` | components/MartianCompanion.tsx:68-83 | called only while the daily claim is available (the button at line 297); replaces `stats` by the claimed state; the claim is then unavailable; the worn list is untouched |
| `MartianCompanion.Companion.Buy` | components/MartianCompanion.tsx:85-93 | replaces `stats` by the bought state, or leaves it alone without the credits; keeps it consistent |
| `MartianCompanion.Companion.Equip` | components/MartianCompanion.tsx:95-111 | called only with owned ids (lines 350-351); builds the new worn list step by step as the handler does; keeps consistency and one-per-category |
| `AllocationCalculator.IncomeValue` | components/AllocationCalculator.tsx:30 | unparseable or empty input counts as 0; any parsed number, negative included, is kept |
| `AllocationCalculator.Calculate` | components/AllocationCalculator.tsx:29-43 | the percentages are positive and sum to 100; each amount is income × its percentage / 100 |
| `AllocationCalculator.TierPercentages` | components/AllocationCalculator.tsx:31-42 | conservative gives (20, 50, 30), aggressive (50, 40, 10), and balanced, the fall-through, (35, 45, 20) |
| `AllocationCalculator.AmountsSplitIncome` | components/AllocationCalculator.tsx:31-42 | investment + ops + savings equals the income, and all three are non-negative when the income is |
| `AllocationCalculator.NoIncomeNoAmounts` | components/AllocationCalculator.tsx:30 | with no parsable income, all three amounts are 0 |
| `AllocationCalculator.Rate` | components/AllocationCalculator.tsx:46 | the rate is 7.24 for CNY and 1 for USD |
| `AllocationCalculator.ReduceIsScaledSum` | components/AllocationCalculator.tsx:47-48 | the left fold `sum + amount × rate` equals the initial sum plus rate × (plain sum of the amounts) |
| `AllocationCalculator.TotalsAreConvertedSums` | components/AllocationCalculator.tsx:47-48 | total spent and actual revenue are rate × the sum of their amounts, and 0 for empty lists |
| `AllocationCalculator.TotalSpentStep` | components/AllocationCalculator.tsx:47 | one more expense raises the total spent by its amount × rate |
| `AllocationCalculator.TotalSpentNonNegative` | components/AllocationCalculator.tsx:47 | with non-negative expense amounts, the total spent is non-negative |
| `AllocationCalculator.RemainingOpsBalances` | components/AllocationCalculator.tsx:49 | remaining + spent equals the ops amount; with no expenses the whole ops amount remains; remaining is at least 0 exactly when spent is at most ops |
| `AllocationCalculator.PkPositionFollowsRisk` | components/AllocationCalculator.tsx:51 | the slider sits at 15 / 50 / 85; it moves right exactly as the investment share grows and exactly as the savings share shrinks |

## Behaviour as written

The handlers do not check some conditions themselves. The interface only
offers them where those conditions hold:

- `handleBuy` (components/MartianCompanion.tsx:85-93) checks only the
  credits. It appends the id to both the owned and the worn list. It takes
  off nothing already worn in the item's category (`BuyIgnoresCategory`),
  and it does not reject an id that is already owned. The boutique shows
  "buy" only on unowned items (components/MartianCompanion.tsx:350-355).
- `handleClaimMysteryBox` (components/MartianCompanion.tsx:68-83) does not
  read the daily flags. The claim button is shown only while
  `canClaimDaily` holds (components/MartianCompanion.tsx:297). That guard is
  a precondition of `Companion.ClaimMysteryBox`, not of
  `MysteryBoxClaimed`.
- `handleEquip` (components/MartianCompanion.tsx:95-111) does not check
  ownership. The boutique shows "equip" only on owned items
  (components/MartianCompanion.tsx:350-351). That guard is a precondition
  of `Companion.Equip`.
- `calculate` (components/AllocationCalculator.tsx:30) replaces only `NaN`
  and 0 by 0 (`parseFloat(x) || 0`), so a negative income is used as it
  is. The three amounts are then negative, and they still sum to the
  income (`AmountsSplitIncome`).

## Left out

- Rendering, SVG, CSS and the pointer-drag rotation of the figure
  (components/MartianCompanion.tsx:17-45, 113-424). The rotation is
  floating-point interface arithmetic.
- The `alert` after a claim (components/MartianCompanion.tsx:82) is a side
  effect with no state.
- The localized names and SVG snippets of catalog items are display only.
- `Math.random` in the claim handler is the `pick` argument, with
  `0 <= pick < |UnownedIn(catalog, owned)|`.
- `parseFloat` is not modelled. Its result is the `Option<real>`
  argument, where `None` stands for `NaN`.
- JavaScript numbers: tokens, prices and ranks are unbounded integers, and
  allocation amounts and totals are exact reals. IEEE double rounding (of
  `val * 0.35`, of `amount * 7.24`) and `toLocaleString`/`toFixed` are not
  modelled.
- The owner of `UserStats` is not part of this model. That covers
  income-based token rewards, rank changes, daily-flag rollover by date,
  the subscription upgrade, and local-storage persistence. The
  `onUpdateStats` callback is modelled as replacing the held `stats`.
- The Gemini API calls, camera and file capture, chat, the mock trend
  chart data, the legal and pricing modals, and the bootstrap code
  (services/gemini.ts, components/ImageEditor.tsx,
  components/AIAssistant.tsx, components/AssetTrendChart.tsx,
  components/LegalModal.tsx, components/PricingModal.tsx, index.tsx) are
  foreign calls or display only.
- The portfolio totals in App.tsx and components/AssetList.tsx are
  floating-point display arithmetic.
