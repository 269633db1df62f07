/**
 * The static wardrobe catalog and the exchange rate (constants.tsx), with
 * the catalog look-ups the companion performs and the facts about the
 * catalog that the companion's guarantees rest on.
 */
module Constants {
  import opened Types

  const ExchangeRateUsdToCny: real := 7.24

  /** `WARDROBE_ITEMS`, in source order. */
  const WardrobeItems: seq<WardrobeItem> := [
    WardrobeItem("h1", Head, 50, false),
    WardrobeItem("h2", Head, 120, false),
    WardrobeItem("h3", Head, 500, false),
    WardrobeItem("b1", Body, 80, false),
    WardrobeItem("b2", Body, 300, false),
    WardrobeItem("b3", Body, 1000, false),
    WardrobeItem("l1", Legs, 150, false),
    WardrobeItem("l2", Legs, 400, false),
    WardrobeItem("a1", Accessory, 30, false),
    WardrobeItem("a2", Accessory, 1500, false),
    WardrobeItem("s1", Accessory, 0, true),
    WardrobeItem("s2", Head, 0, true)
  ]

  /** No two entries of `items` share an id. */
  ghost predicate DistinctIds(items: seq<WardrobeItem>)
  {
    forall i, j :: 0 <= i < j < |items| ==> items[i].id != items[j].id
  }

  /** `items.find(i => i.id === id)`: the first entry with that id, if any. */
  function FindIn(items: seq<WardrobeItem>, id: string): (r: Option<WardrobeItem>)
    ensures r.Some? ==> r.value in items && r.value.id == id
    ensures r.None? <==> forall i :: 0 <= i < |items| ==> items[i].id != id
  {
    if items == [] then None
    else if items[0].id == id then Some(items[0])
    else FindIn(items[1..], id)
  }

  /** `WARDROBE_ITEMS.find(i => i.id === id)`. */
  function FindItem(id: string): Option<WardrobeItem>
  {
    FindIn(WardrobeItems, id)
  }

  /**
   * The category of the entry of `items` with this id, `None` for an id the
   * list does not know (there `existingItem?.category` is `undefined`).
   */
  function CategoryIn(items: seq<WardrobeItem>, id: string): (c: Option<Category>)
    ensures c.None? <==> forall i :: 0 <= i < |items| ==> items[i].id != id
    ensures c.Some? ==> exists i :: 0 <= i < |items| && items[i].id == id && items[i].category == c.value
  {
    match FindIn(items, id)
    case None => None
    case Some(item) => Some(item.category)
  }

  /** The category of a catalog id. */
  function CategoryOf(id: string): Option<Category>
  {
    CategoryIn(WardrobeItems, id)
  }

  /** The boutique listing filter over `items`: specials only once owned. */
  function BoutiqueIn(items: seq<WardrobeItem>, owned: seq<string>): (r: seq<WardrobeItem>)
    ensures |r| <= |items|
  {
    if items == [] then []
    else
      (if !items[0].isSpecial || items[0].id in owned then [items[0]] else [])
      + BoutiqueIn(items[1..], owned)
  }

  /** The listing holds exactly the entries that are not special or are owned. */
  lemma {:induction false} BoutiqueInKeeps(items: seq<WardrobeItem>, owned: seq<string>)
    ensures forall item :: item in BoutiqueIn(items, owned) <==> item in items && (!item.isSpecial || item.id in owned)
  {
    if items != [] {
      BoutiqueInKeeps(items[1..], owned);
      assert forall item :: item in items <==> item == items[0] || item in items[1..];
    }
  }

  /** `WARDROBE_ITEMS.filter(i => !i.isSpecial || owned.includes(i.id))`, the items the boutique shows. */
  function Boutique(owned: seq<string>): seq<WardrobeItem>
  {
    BoutiqueIn(WardrobeItems, owned)
  }

  /** The entries of `items` whose id is not in `owned`, in order. */
  function UnownedIn(items: seq<WardrobeItem>, owned: seq<string>): (r: seq<WardrobeItem>)
    ensures |r| <= |items|
    ensures forall item :: item in r <==> item in items && item.id !in owned
  {
    if items == [] then []
    else
      (if items[0].id !in owned then [items[0]] else [])
      + UnownedIn(items[1..], owned)
  }

  /** `WARDROBE_ITEMS.filter(item => !owned.includes(item.id))`, the mystery box's pool. */
  function Unowned(owned: seq<string>): seq<WardrobeItem>
  {
    UnownedIn(WardrobeItems, owned)
  }

  // ---------------------------------------------------------------------
  // Facts about the catalog
  // ---------------------------------------------------------------------

  /** The catalog ids are pairwise distinct. */
  lemma CatalogIdsDistinct()
    ensures DistinctIds(WardrobeItems)
  {
    var w := WardrobeItems;
    forall i, j | 0 <= i < j < |w| ensures w[i].id != w[j].id {
      assert w[i].id[0] != w[j].id[0] || w[i].id[1] != w[j].id[1];
    }
  }

  /** In a list with distinct ids, `find` returns exactly the entry carrying the id. */
  lemma {:induction false} FindInUnique(items: seq<WardrobeItem>, item: WardrobeItem)
    requires DistinctIds(items)
    requires item in items
    ensures FindIn(items, item.id) == Some(item)
  {
    if items[0] != item {
      assert item in items[1..];
      var k :| 0 <= k < |items| && items[k] == item;
      assert k > 0;
      FindInUnique(items[1..], item);
    }
  }

  /** `find` returns the first entry carrying the id. */
  lemma {:induction false} FindInFirst(items: seq<WardrobeItem>, id: string, k: nat)
    requires k < |items| && items[k].id == id
    requires forall j :: 0 <= j < k ==> items[j].id != id
    ensures FindIn(items, id) == Some(items[k])
  {
    if k > 0 {
      assert items[0].id != id;
      forall j | 0 <= j < k - 1 ensures items[1..][j].id != id {
        assert items[1..][j] == items[j + 1];
      }
      FindInFirst(items[1..], id, k - 1);
    }
  }

  /** `FindItem(id)` is `Some(item)` exactly when `item` is the catalog entry with that id. */
  lemma FindItemExact(id: string, item: WardrobeItem)
    ensures FindItem(id) == Some(item) <==> item in WardrobeItems && item.id == id
  {
    if item in WardrobeItems && item.id == id {
      CatalogIdsDistinct();
      FindInUnique(WardrobeItems, item);
    }
  }

  /** Each of the four categories has at least two catalog items. */
  lemma EveryCategoryHasTwoItems(c: Category)
    ensures exists i, j :: 0 <= i < j < |WardrobeItems|
                        && WardrobeItems[i].category == c && WardrobeItems[j].category == c
  {
    var w := WardrobeItems;
    match c
    case Head => assert w[0].category == c && w[1].category == c;
    case Body => assert w[3].category == c && w[4].category == c;
    case Legs => assert w[6].category == c && w[7].category == c;
    case Accessory => assert w[8].category == c && w[9].category == c;
  }

  /** Exactly the items `s1` and `s2` are special, and specials are free. */
  lemma SpecialItemsAreS1AndS2(item: WardrobeItem)
    requires item in WardrobeItems
    ensures item.isSpecial <==> item.id == "s1" || item.id == "s2"
    ensures item.isSpecial ==> item.price == 0
  {
  }

  /** Every item that can be bought has a strictly positive price. */
  lemma NonSpecialItemsCostCredits(item: WardrobeItem)
    requires item in WardrobeItems
    requires !item.isSpecial
    ensures item.price > 0
  {
  }

  /** The boutique shows every non-special item, and a special one only once it is owned. */
  lemma BoutiqueListing(owned: seq<string>, item: WardrobeItem)
    requires item in WardrobeItems
    ensures !item.isSpecial ==> item in Boutique(owned)
    ensures item.isSpecial ==> (item in Boutique(owned) <==> item.id in owned)
  {
    BoutiqueInKeeps(WardrobeItems, owned);
  }

  /** The boutique lists its items in catalog order. */
  lemma {:induction false} BoutiqueInSplits(a: seq<WardrobeItem>, b: seq<WardrobeItem>, owned: seq<string>)
    ensures BoutiqueIn(a + b, owned) == BoutiqueIn(a, owned) + BoutiqueIn(b, owned)
  {
    if a == [] {
      assert a + b == b;
    } else {
      assert (a + b)[0] == a[0] && (a + b)[1..] == a[1..] + b;
      BoutiqueInSplits(a[1..], b, owned);
    }
  }

  /** The mystery box pool is empty exactly when every id of the list is owned. */
  lemma UnownedEmptyIffAllOwned(items: seq<WardrobeItem>, owned: seq<string>)
    ensures UnownedIn(items, owned) == [] <==> forall i :: 0 <= i < |items| ==> items[i].id in owned
  {
    if UnownedIn(items, owned) != [] {
      assert UnownedIn(items, owned)[0] in UnownedIn(items, owned);
    } else {
      forall i | 0 <= i < |items| ensures items[i].id in owned {
        assert items[i] in items;
      }
    }
  }

  /** Adding an id that no entry carries leaves the pool as it is. */
  lemma {:induction false} UnownedIgnoresForeignId(items: seq<WardrobeItem>, owned: seq<string>, id: string)
    requires forall i :: 0 <= i < |items| ==> items[i].id != id
    ensures UnownedIn(items, owned + [id]) == UnownedIn(items, owned)
  {
    if items != [] {
      UnownedIgnoresForeignId(items[1..], owned, id);
    }
  }

  /** Granting one item of the pool removes exactly that one entry from it. */
  lemma {:induction false} UnownedShrinksByOne(items: seq<WardrobeItem>, owned: seq<string>, x: WardrobeItem)
    requires DistinctIds(items)
    requires x in items && x.id !in owned
    ensures |UnownedIn(items, owned + [x.id])| == |UnownedIn(items, owned)| - 1
  {
    var h := items[0];
    if h == x {
      forall i | 0 <= i < |items[1..]| ensures items[1..][i].id != x.id {
        assert items[1..][i] == items[i + 1];
      }
      UnownedIgnoresForeignId(items[1..], owned, x.id);
    } else {
      assert x in items[1..];
      UnownedShrinksByOne(items[1..], owned, x);
    }
  }
}
