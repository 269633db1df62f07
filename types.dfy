/**
 * The records the companion and the allocation calculator work on
 * (types.ts). Optional TypeScript fields (`rank?`, `dailyEarned?`, ...)
 * become `Option` values, so that "absent" stays distinguishable from a
 * present falsy value wherever the code tells them apart.
 */
module Types {

  datatype Option<+T> = None | Some(value: T)

  datatype Gender = Male | Female

  /** The sixteen four-letter personality codes of `MBTI`. */
  datatype Mbti =
    | INTJ | INTP | ENTJ | ENTP
    | INFJ | INFP | ENFJ | ENFP
    | ISTJ | ISFJ | ESTJ | ESFJ
    | ISTP | ISFP | ESTP | ESFP

  /** The four letters of a personality code, as the source spells it. */
  function Code(p: Mbti): (code: string)
    ensures |code| == 4
  {
    match p
    case INTJ => "INTJ" case INTP => "INTP" case ENTJ => "ENTJ" case ENTP => "ENTP"
    case INFJ => "INFJ" case INFP => "INFP" case ENFJ => "ENFJ" case ENFP => "ENFP"
    case ISTJ => "ISTJ" case ISFJ => "ISFJ" case ESTJ => "ESTJ" case ESFJ => "ESFJ"
    case ISTP => "ISTP" case ISFP => "ISFP" case ESTP => "ESTP" case ESFP => "ESFP"
  }

  datatype Subscription = Free | Premium

  datatype Currency = USD | CNY

  /** The union `'head' | 'body' | 'legs' | 'accessory'`. */
  datatype Category = Head | Body | Legs | Accessory

  /**
   * A wardrobe catalog entry. The localized display name and the SVG
   * snippet are presentation only and are not modelled; an absent
   * `isSpecial` is `false`.
   */
  datatype WardrobeItem = WardrobeItem(id: string, category: Category, price: nat, isSpecial: bool)

  /** The companion's whole state. `tokens` is a JavaScript number holding whole credits. */
  datatype UserStats = UserStats(
    gender: Gender,
    personality: Mbti,
    tokens: int,
    ownedItemIds: seq<string>,
    equippedItemIds: seq<string>,
    subscription: Subscription,
    rank: Option<int>,
    dailyEarned: Option<bool>,
    dailySaved: Option<bool>,
    lastActionDate: Option<string>)

  datatype Expense = Expense(id: string, merchant: string, amount: real, date: string, category: string)

  datatype IncomeRecord = IncomeRecord(id: string, source: string, amount: real, date: string, category: string)
}
