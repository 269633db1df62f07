/**
 * The companion's reward and wardrobe logic (components/MartianCompanion.tsx).
 *
 * Each handler of the component reads the current `UserStats` and hands a
 * new one to its owner. The pure functions below (`GenderToggled`,
 * `MysteryBoxClaimed`, `ItemBought`, `EquipToggled`) say what that new
 * value is, over a catalog given as a parameter; the class `Companion` holds the current value and its methods
 * replace it, proved equal to those functions. Guards that the source
 * leaves to the rendering (the claim button only while both daily flags
 * are set, the equip button only on owned items) are preconditions of the
 * methods, not of the functions.
 */
module MartianCompanion {
  import opened Types
  import opened Constants

  const MilestoneTokens: int := 10000
  const MilestoneRank: int := 100
  /** The rank assumed when `rank` is absent or zero (`stats.rank || 999`). */
  const FallbackRank: int := 999
  const ItemGrantBonus: int := 50
  const ExhaustedBoxBonus: int := 100

  const MaleColor: string := "#a855f7"
  const AnalyticColor: string := "#00f2ff"
  const SentinelColor: string := "#ff00ff"
  const DefaultColor: string := "#7fff00"

  const Analytic: seq<Mbti> := [INTJ, INTP, ENTJ, ENTP]
  const Sentinel: seq<Mbti> := [ISTJ, ISFJ, ESTJ, ESFJ]

  // ---------------------------------------------------------------------
  // Predicates that gate the interface
  // ---------------------------------------------------------------------

  /** JavaScript truthiness of an optional boolean. */
  function Truthy(b: Option<bool>): bool
  {
    b == Some(true)
  }

  /** `stats.rank || 999`: absent and zero fall back to 999. */
  function RankOrFallback(rank: Option<int>): int
  {
    match rank
    case None => FallbackRank
    case Some(r) => if r == 0 then FallbackRank else r
  }

  /** `isTeeUnlocked`: enough credits and a leaderboard rank in the top hundred. */
  function IsTeeUnlocked(s: UserStats): (unlocked: bool)
    ensures unlocked <==> s.tokens >= 10000 && s.rank.Some? && s.rank.value != 0 && s.rank.value <= 100
  {
    s.tokens >= MilestoneTokens && RankOrFallback(s.rank) <= MilestoneRank
  }

  /** `canClaimDaily`: income logged and a savings plan confirmed today. */
  function CanClaimDaily(s: UserStats): (canClaim: bool)
    ensures canClaim <==> s.dailyEarned == Some(true) && s.dailySaved == Some(true)
  {
    Truthy(s.dailyEarned) && Truthy(s.dailySaved)
  }

  /** `personalityColor`, the accent colour of the figure. */
  function PersonalityColor(s: UserStats): string
  {
    if s.gender == Male then MaleColor
    else if s.personality in Analytic then AnalyticColor
    else if s.personality in Sentinel then SentinelColor
    else DefaultColor
  }

  /**
   * The colour is purple exactly for the male figure; otherwise cyan exactly
   * for the analytic temperament (the `NT` codes), pink exactly for the
   * sentinel one (the `SJ` codes) and lime for the rest.
   */
  lemma PersonalityColorByTemperament(s: UserStats)
    ensures PersonalityColor(s) == MaleColor <==> s.gender == Male
    ensures PersonalityColor(s) == AnalyticColor <==>
              s.gender == Female && Code(s.personality)[1] == 'N' && Code(s.personality)[2] == 'T'
    ensures PersonalityColor(s) == SentinelColor <==>
              s.gender == Female && Code(s.personality)[1] == 'S' && Code(s.personality)[3] == 'J'
    ensures PersonalityColor(s) == DefaultColor <==>
              s.gender == Female
              && !(Code(s.personality)[1] == 'N' && Code(s.personality)[2] == 'T')
              && !(Code(s.personality)[1] == 'S' && Code(s.personality)[3] == 'J')
  {
    match s.personality
    case INTJ => case INTP => case ENTJ => case ENTP =>
    case INFJ => case INFP => case ENFJ => case ENFP =>
    case ISTJ => case ISFJ => case ESTJ => case ESFJ =>
    case ISTP => case ISFP => case ESTP => case ESFP =>
  }

  // ---------------------------------------------------------------------
  // Invariants of the state
  // ---------------------------------------------------------------------

  /** Credits are never negative and only owned items are worn. */
  predicate Consistent(s: UserStats)
  {
    && s.tokens >= 0
    && forall id :: id in s.equippedItemIds ==> id in s.ownedItemIds
  }

  /** How many entries of `ids` are items of `catalog` of category `c`. */
  function CountInCategory(catalog: seq<WardrobeItem>, ids: seq<string>, c: Category): nat
  {
    if ids == [] then 0
    else (if CategoryIn(catalog, ids[0]) == Some(c) then 1 else 0) + CountInCategory(catalog, ids[1..], c)
  }

  /** At most one worn catalog item per category. */
  ghost predicate OnePerCategory(catalog: seq<WardrobeItem>, ids: seq<string>)
  {
    forall c :: CountInCategory(catalog, ids, c) <= 1
  }

  // ---------------------------------------------------------------------
  // The filters `handleEquip` applies to the worn list
  // ---------------------------------------------------------------------

  /**
   * `equippedItemIds.filter(id => existingItem?.category !== category)`,
   * with `existingItem` looked up in `catalog`: drops the catalog items of
   * category `c`, keeps everything else (ids the catalog does not know
   * included) in order.
   */
  function WithoutCategory(catalog: seq<WardrobeItem>, ids: seq<string>, c: Category): (r: seq<string>)
    ensures |r| <= |ids|
  {
    if ids == [] then []
    else
      (if CategoryIn(catalog, ids[0]) != Some(c) then [ids[0]] else [])
      + WithoutCategory(catalog, ids[1..], c)
  }

  /** The category filter keeps exactly the ids that are not catalog items of category `c`. */
  lemma {:induction false} WithoutCategoryKeeps(catalog: seq<WardrobeItem>, ids: seq<string>, c: Category)
    ensures forall id :: id in WithoutCategory(catalog, ids, c) <==> id in ids && CategoryIn(catalog, id) != Some(c)
  {
    if ids != [] {
      WithoutCategoryKeeps(catalog, ids[1..], c);
      assert forall id :: id in ids <==> id == ids[0] || id in ids[1..];
    }
  }

  /** `equippedItemIds.filter(id => id !== itemId)`: every occurrence of `itemId` goes. */
  function WithoutId(ids: seq<string>, itemId: string): (r: seq<string>)
    ensures |r| <= |ids|
    ensures forall id :: id in r <==> id in ids && id != itemId
    ensures forall id :: multiset(r)[id] == if id == itemId then 0 else multiset(ids)[id]
  {
    if ids == [] then []
    else
      assert ids == [ids[0]] + ids[1..];
      (if ids[0] != itemId then [ids[0]] else []) + WithoutId(ids[1..], itemId)
  }

  // ---------------------------------------------------------------------
  // The handlers, as functions from the old state to the new one. Those
  // that consult the catalog take it as `catalog`; the component always
  // passes `WardrobeItems`.
  // ---------------------------------------------------------------------

  /** `handleToggleGender`. */
  function GenderToggled(s: UserStats): UserStats
  {
    s.(gender := if s.gender == Female then Male else Female)
  }

  /**
   * `handleClaimMysteryBox`, with `Math.floor(Math.random() * unowned.length)`
   * given as `pick`.
   */
  function MysteryBoxClaimed(catalog: seq<WardrobeItem>, s: UserStats, pick: nat): UserStats
    requires UnownedIn(catalog, s.ownedItemIds) == [] || pick < |UnownedIn(catalog, s.ownedItemIds)|
  {
    var unowned := UnownedIn(catalog, s.ownedItemIds);
    if |unowned| == 0 then
      s.(tokens := s.tokens + ExhaustedBoxBonus, dailyEarned := Some(false), dailySaved := Some(false))
    else
      var randomItem := unowned[pick];
      s.(ownedItemIds := s.ownedItemIds + [randomItem.id],
         dailyEarned := Some(false),
         dailySaved := Some(false),
         tokens := s.tokens + ItemGrantBonus)
  }

  /** `handleBuy`: pay, own and wear the item; nothing happens without the credits. */
  function ItemBought(s: UserStats, item: WardrobeItem): UserStats
  {
    if s.tokens < item.price then s
    else
      s.(tokens := s.tokens - item.price,
         ownedItemIds := s.ownedItemIds + [item.id],
         equippedItemIds := s.equippedItemIds + [item.id])
  }

  /**
   * `handleEquip`: an unknown id changes nothing; a worn item comes off;
   * otherwise the item goes on in place of the worn items of its category.
   */
  function EquipToggled(catalog: seq<WardrobeItem>, s: UserStats, itemId: string): UserStats
  {
    match FindIn(catalog, itemId)
    case None => s
    case Some(item) =>
      if itemId in s.equippedItemIds then
        s.(equippedItemIds := WithoutId(s.equippedItemIds, itemId))
      else
        s.(equippedItemIds := WithoutCategory(catalog, s.equippedItemIds, item.category) + [itemId])
  }

  // ---------------------------------------------------------------------
  // Gender toggle
  // ---------------------------------------------------------------------

  /** The toggle flips the gender, changes nothing else, and twice is no change. */
  lemma GenderToggleFlipsOnly(s: UserStats)
    ensures GenderToggled(s).gender != s.gender
    ensures GenderToggled(s) == s.(gender := GenderToggled(s).gender)
    ensures GenderToggled(GenderToggled(s)) == s
    ensures Consistent(s) ==> Consistent(GenderToggled(s))
  {
  }

  // ---------------------------------------------------------------------
  // Mystery box
  // ---------------------------------------------------------------------

  /** With every catalog item owned, the box pays 100 credits and grants nothing, whatever the pick. */
  lemma ClaimWhenEverythingOwned(catalog: seq<WardrobeItem>, s: UserStats, pick: nat)
    requires forall i :: 0 <= i < |catalog| ==> catalog[i].id in s.ownedItemIds
    ensures UnownedIn(catalog, s.ownedItemIds) == []
    ensures MysteryBoxClaimed(catalog, s, pick)
         == s.(tokens := s.tokens + 100, dailyEarned := Some(false), dailySaved := Some(false))
  {
    UnownedEmptyIffAllOwned(catalog, s.ownedItemIds);
  }

  /**
   * Otherwise the box grants a catalog item that was not owned, appends its
   * id to the owned list, pays 50 credits, clears both daily flags and
   * leaves the worn list alone.
   */
  lemma ClaimGrantsUnownedItem(catalog: seq<WardrobeItem>, s: UserStats, pick: nat)
    requires pick < |UnownedIn(catalog, s.ownedItemIds)|
    ensures var granted := UnownedIn(catalog, s.ownedItemIds)[pick];
            && granted in catalog
            && granted.id !in s.ownedItemIds
            && MysteryBoxClaimed(catalog, s, pick)
               == s.(ownedItemIds := s.ownedItemIds + [granted.id], tokens := s.tokens + 50,
                     dailyEarned := Some(false), dailySaved := Some(false))
  {
    assert UnownedIn(catalog, s.ownedItemIds)[pick] in UnownedIn(catalog, s.ownedItemIds);
  }

  /** In a catalog with distinct ids, each granted item shrinks the pool of unowned items by one. */
  lemma ClaimShrinksPool(catalog: seq<WardrobeItem>, s: UserStats, pick: nat)
    requires DistinctIds(catalog)
    requires pick < |UnownedIn(catalog, s.ownedItemIds)|
    ensures |UnownedIn(catalog, MysteryBoxClaimed(catalog, s, pick).ownedItemIds)|
            == |UnownedIn(catalog, s.ownedItemIds)| - 1
  {
    var granted := UnownedIn(catalog, s.ownedItemIds)[pick];
    assert granted in UnownedIn(catalog, s.ownedItemIds);
    UnownedShrinksByOne(catalog, s.ownedItemIds, granted);
  }

  /** A claim consumes the day's claim, raises the credits and keeps the milestone. */
  lemma ClaimConsumesDay(catalog: seq<WardrobeItem>, s: UserStats, pick: nat)
    requires UnownedIn(catalog, s.ownedItemIds) == [] || pick < |UnownedIn(catalog, s.ownedItemIds)|
    ensures !CanClaimDaily(MysteryBoxClaimed(catalog, s, pick))
    ensures MysteryBoxClaimed(catalog, s, pick).tokens >= s.tokens + 50
    ensures IsTeeUnlocked(s) ==> IsTeeUnlocked(MysteryBoxClaimed(catalog, s, pick))
  {
  }

  /** A claim keeps the state consistent. */
  lemma ClaimKeepsConsistent(catalog: seq<WardrobeItem>, s: UserStats, pick: nat)
    requires UnownedIn(catalog, s.ownedItemIds) == [] || pick < |UnownedIn(catalog, s.ownedItemIds)|
    requires Consistent(s)
    ensures Consistent(MysteryBoxClaimed(catalog, s, pick))
  {
  }

  // ---------------------------------------------------------------------
  // Buying
  // ---------------------------------------------------------------------

  /** Without enough credits, buying changes nothing. */
  lemma BuyRejected(s: UserStats, item: WardrobeItem)
    requires s.tokens < item.price
    ensures ItemBought(s, item) == s
  {
  }

  /**
   * With enough credits, the price is debited without going negative and the
   * id is appended to both the owned and the worn list; gender, flags, rank
   * and the rest are unchanged.
   */
  lemma BuySucceeds(s: UserStats, item: WardrobeItem)
    requires s.tokens >= item.price
    ensures ItemBought(s, item).tokens == s.tokens - item.price >= 0
    ensures ItemBought(s, item)
         == s.(tokens := ItemBought(s, item).tokens,
               ownedItemIds := s.ownedItemIds + [item.id],
               equippedItemIds := s.equippedItemIds + [item.id])
  {
  }

  /** A successful purchase of a catalog item that is not special strictly lowers the credits. */
  lemma BuySpendsCredits(s: UserStats, item: WardrobeItem)
    requires item in WardrobeItems && !item.isSpecial
    requires s.tokens >= item.price
    ensures ItemBought(s, item).tokens < s.tokens
  {
    NonSpecialItemsCostCredits(item);
  }

  /** Buying keeps the state consistent. */
  lemma BuyKeepsConsistent(s: UserStats, item: WardrobeItem)
    requires Consistent(s)
    ensures Consistent(ItemBought(s, item))
  {
  }

  /**
   * Buying does not take off what is worn in the item's category, so with
   * such an item already worn two items of one category end up worn.
   */
  lemma BuyIgnoresCategory(catalog: seq<WardrobeItem>, s: UserStats, item: WardrobeItem, worn: string)
    requires DistinctIds(catalog) && item in catalog
    requires s.tokens >= item.price
    requires worn in s.equippedItemIds && CategoryIn(catalog, worn) == Some(item.category)
    ensures CountInCategory(catalog, ItemBought(s, item).equippedItemIds, item.category) >= 2
    ensures !OnePerCategory(catalog, ItemBought(s, item).equippedItemIds)
  {
    FindInUnique(catalog, item);
    CountAppend(catalog, s.equippedItemIds, [item.id], item.category);
    CountPositive(catalog, s.equippedItemIds, worn, item.category);
    assert CountInCategory(catalog, [item.id], item.category) == 1;
  }

  // ---------------------------------------------------------------------
  // Equipping
  // ---------------------------------------------------------------------

  /** An id the catalog does not know changes nothing. */
  lemma EquipUnknownId(catalog: seq<WardrobeItem>, s: UserStats, itemId: string)
    requires forall i :: 0 <= i < |catalog| ==> catalog[i].id != itemId
    ensures EquipToggled(catalog, s, itemId) == s
  {
  }

  /**
   * Putting on an item that is not worn: afterwards it is worn, it is the only
   * worn item of its category, and the other worn ids keep their order.
   */
  lemma EquipPutsOn(catalog: seq<WardrobeItem>, s: UserStats, item: WardrobeItem)
    requires DistinctIds(catalog) && item in catalog
    requires item.id !in s.equippedItemIds
    ensures var r := EquipToggled(catalog, s, item.id);
            && r == s.(equippedItemIds := WithoutCategory(catalog, s.equippedItemIds, item.category) + [item.id])
            && item.id in r.equippedItemIds
            && (forall id :: id in r.equippedItemIds && id != item.id ==>
                  CategoryIn(catalog, id) != Some(item.category))
            && CountInCategory(catalog, r.equippedItemIds, item.category) == 1
  {
    FindInUnique(catalog, item);
    var kept := WithoutCategory(catalog, s.equippedItemIds, item.category);
    WithoutCategoryKeeps(catalog, s.equippedItemIds, item.category);
    assert forall id :: id in kept + [item.id] && id != item.id ==> id in kept;
    CountAppend(catalog, kept, [item.id], item.category);
    CountWithoutCategory(catalog, s.equippedItemIds, item.category, item.category);
    assert CountInCategory(catalog, [item.id], item.category) == 1;
  }

  /** Taking off a worn item removes exactly that id and changes nothing else. */
  lemma EquipTakesOff(catalog: seq<WardrobeItem>, s: UserStats, item: WardrobeItem)
    requires DistinctIds(catalog) && item in catalog
    requires item.id in s.equippedItemIds
    ensures var r := EquipToggled(catalog, s, item.id);
            && r == s.(equippedItemIds := WithoutId(s.equippedItemIds, item.id))
            && item.id !in r.equippedItemIds
            && (forall id :: id != item.id ==> multiset(r.equippedItemIds)[id] == multiset(s.equippedItemIds)[id])
  {
    FindInUnique(catalog, item);
  }

  /** Equipping leaves at most one worn item per category, if that held before. */
  lemma EquipKeepsOnePerCategory(catalog: seq<WardrobeItem>, s: UserStats, itemId: string)
    requires OnePerCategory(catalog, s.equippedItemIds)
    ensures OnePerCategory(catalog, EquipToggled(catalog, s, itemId).equippedItemIds)
  {
    var r := EquipToggled(catalog, s, itemId);
    match FindIn(catalog, itemId)
    case None =>
    case Some(item) =>
      forall c ensures CountInCategory(catalog, r.equippedItemIds, c) <= 1 {
        if itemId in s.equippedItemIds {
          CountWithoutId(catalog, s.equippedItemIds, itemId, c);
        } else {
          var kept := WithoutCategory(catalog, s.equippedItemIds, item.category);
          CountAppend(catalog, kept, [itemId], c);
          CountWithoutCategory(catalog, s.equippedItemIds, item.category, c);
          assert CountInCategory(catalog, [itemId], c) == if c == item.category then 1 else 0;
        }
      }
  }

  /** Equipping an owned id keeps the state consistent. */
  lemma EquipKeepsConsistent(catalog: seq<WardrobeItem>, s: UserStats, itemId: string)
    requires Consistent(s)
    requires itemId in s.ownedItemIds
    ensures Consistent(EquipToggled(catalog, s, itemId))
  {
    match FindIn(catalog, itemId)
    case None =>
    case Some(item) =>
      WithoutCategoryKeeps(catalog, s.equippedItemIds, item.category);
  }

  // ---------------------------------------------------------------------
  // Facts about the filters and the category count
  // ---------------------------------------------------------------------

  /** The category filter keeps order: it splits over concatenation. */
  lemma {:induction false} WithoutCategorySplits(catalog: seq<WardrobeItem>, a: seq<string>, b: seq<string>, c: Category)
    ensures WithoutCategory(catalog, a + b, c) == WithoutCategory(catalog, a, c) + WithoutCategory(catalog, b, c)
  {
    if a == [] {
      assert a + b == b;
    } else {
      var head := if CategoryIn(catalog, a[0]) != Some(c) then [a[0]] else [];
      var restA := WithoutCategory(catalog, a[1..], c);
      var restB := WithoutCategory(catalog, b, c);
      assert (a + b)[0] == a[0] && (a + b)[1..] == a[1..] + b;
      WithoutCategorySplits(catalog, a[1..], b, c);
      assert WithoutCategory(catalog, a + b, c) == head + (restA + restB);
      assert head + (restA + restB) == (head + restA) + restB;
    }
  }

  /** With nothing of category `c` present, the category filter returns its input. */
  lemma {:induction false} WithoutCategoryNoMatch(catalog: seq<WardrobeItem>, ids: seq<string>, c: Category)
    requires forall i :: 0 <= i < |ids| ==> CategoryIn(catalog, ids[i]) != Some(c)
    ensures WithoutCategory(catalog, ids, c) == ids
  {
    if ids != [] {
      WithoutCategoryNoMatch(catalog, ids[1..], c);
    }
  }

  /** The id filter keeps order: it splits over concatenation. */
  lemma {:induction false} WithoutIdSplits(a: seq<string>, b: seq<string>, itemId: string)
    ensures WithoutId(a + b, itemId) == WithoutId(a, itemId) + WithoutId(b, itemId)
  {
    if a == [] {
      assert a + b == b;
    } else {
      assert (a + b)[0] == a[0] && (a + b)[1..] == a[1..] + b;
      WithoutIdSplits(a[1..], b, itemId);
    }
  }

  lemma {:induction false} CountAppend(catalog: seq<WardrobeItem>, a: seq<string>, b: seq<string>, c: Category)
    ensures CountInCategory(catalog, a + b, c) == CountInCategory(catalog, a, c) + CountInCategory(catalog, b, c)
  {
    if a == [] {
      assert a + b == b;
    } else {
      assert (a + b)[0] == a[0] && (a + b)[1..] == a[1..] + b;
      CountAppend(catalog, a[1..], b, c);
    }
  }

  lemma {:induction false} CountPositive(catalog: seq<WardrobeItem>, ids: seq<string>, id: string, c: Category)
    requires id in ids && CategoryIn(catalog, id) == Some(c)
    ensures CountInCategory(catalog, ids, c) >= 1
  {
    if ids[0] != id {
      assert id in ids[1..];
      CountPositive(catalog, ids[1..], id, c);
    }
  }

  /** The category filter empties category `c` and keeps every other count. */
  lemma {:induction false} CountWithoutCategory(catalog: seq<WardrobeItem>, ids: seq<string>, c: Category, d: Category)
    ensures CountInCategory(catalog, WithoutCategory(catalog, ids, c), d)
            == if d == c then 0 else CountInCategory(catalog, ids, d)
  {
    if ids != [] {
      var head := if CategoryIn(catalog, ids[0]) != Some(c) then [ids[0]] else [];
      CountAppend(catalog, head, WithoutCategory(catalog, ids[1..], c), d);
      CountWithoutCategory(catalog, ids[1..], c, d);
    }
  }

  /** The id filter never raises a category count. */
  lemma {:induction false} CountWithoutId(catalog: seq<WardrobeItem>, ids: seq<string>, itemId: string, d: Category)
    ensures CountInCategory(catalog, WithoutId(ids, itemId), d) <= CountInCategory(catalog, ids, d)
  {
    if ids != [] {
      var head := if ids[0] != itemId then [ids[0]] else [];
      CountAppend(catalog, head, WithoutId(ids[1..], itemId), d);
      CountWithoutId(catalog, ids[1..], itemId, d);
    }
  }

  // ---------------------------------------------------------------------
  // The component's state holder
  // ---------------------------------------------------------------------

  /** The `stats` the component renders; each handler replaces it. */
  class Companion {
    var stats: UserStats

    ghost predicate Valid()
      reads this
    {
      Consistent(stats)
    }

    constructor (initial: UserStats)
      requires Consistent(initial)
      ensures Valid()
      ensures stats == initial
    {
      stats := initial;
    }

    method ToggleGender()
      requires Valid()
      modifies this
      ensures Valid()
      ensures stats == GenderToggled(old(stats))
      ensures stats.gender != old(stats).gender
    {
      stats := stats.(gender := if stats.gender == Female then Male else Female);
    }

    /** Offered only while `CanClaimDaily` holds. */
    method ClaimMysteryBox(pick: nat)
      requires Valid()
      requires CanClaimDaily(stats)
      requires Unowned(stats.ownedItemIds) == [] || pick < |Unowned(stats.ownedItemIds)|
      modifies this
      ensures Valid()
      ensures stats == MysteryBoxClaimed(WardrobeItems, old(stats), pick)
      ensures !CanClaimDaily(stats)
      ensures stats.equippedItemIds == old(stats).equippedItemIds
      ensures old(Unowned(stats.ownedItemIds)) != [] ==>
                |Unowned(stats.ownedItemIds)| == |old(Unowned(stats.ownedItemIds))| - 1
    {
      ghost var before := stats;
      var unowned := Unowned(stats.ownedItemIds);
      if |unowned| == 0 {
        stats := stats.(tokens := stats.tokens + 100, dailyEarned := Some(false), dailySaved := Some(false));
        return;
      }
      var randomItem := unowned[pick];
      stats := stats.(ownedItemIds := stats.ownedItemIds + [randomItem.id],
                      dailyEarned := Some(false),
                      dailySaved := Some(false),
                      tokens := stats.tokens + 50);
      assert |Unowned(stats.ownedItemIds)| == |Unowned(before.ownedItemIds)| - 1 by {
        CatalogIdsDistinct();
        ClaimShrinksPool(WardrobeItems, before, pick);
      }
    }

    method Buy(item: WardrobeItem)
      requires Valid()
      modifies this
      ensures Valid()
      ensures stats == ItemBought(old(stats), item)
      ensures old(stats).tokens < item.price ==> stats == old(stats)
    {
      if stats.tokens < item.price {
        return;
      }
      stats := stats.(tokens := stats.tokens - item.price,
                      ownedItemIds := stats.ownedItemIds + [item.id],
                      equippedItemIds := stats.equippedItemIds + [item.id]);
    }

    /** Offered only on owned items. */
    method Equip(itemId: string)
      requires Valid()
      requires itemId in stats.ownedItemIds
      modifies this
      ensures Valid()
      ensures stats == EquipToggled(WardrobeItems, old(stats), itemId)
      ensures OnePerCategory(WardrobeItems, old(stats).equippedItemIds) ==>
                OnePerCategory(WardrobeItems, stats.equippedItemIds)
    {
      var item := FindItem(itemId);
      if item.None? {
        return;
      }
      var newEquipped := WithoutCategory(WardrobeItems, stats.equippedItemIds, item.value.category);
      if itemId in stats.equippedItemIds {
        newEquipped := WithoutId(stats.equippedItemIds, itemId);
      } else {
        newEquipped := newEquipped + [itemId];
      }
      ghost var before := stats;
      stats := stats.(equippedItemIds := newEquipped);
      EquipKeepsConsistent(WardrobeItems, before, itemId);
      if OnePerCategory(WardrobeItems, before.equippedItemIds) {
        EquipKeepsOnePerCategory(WardrobeItems, before, itemId);
      }
    }
  }
}
