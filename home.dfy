/** src/pages/Home.tsx: the category filter over the listings, the page's
    `activeCategory` state, the copy of the countdown (`useCountdown` and
    `Countdown`) and the auction card's bid and buy-it-now line. */
module Home {
  import opened Common
  import opened Decimal
  import opened Labels
  import opened Listings
  import ListingCard

  /** The `urgent` threshold: one hour in milliseconds. */
  const URGENT_MS: nat := 60 * 60 * 1000

  /** The filter value: `"all"` or one `BikeCategory`. */
  datatype CategoryChoice = All | Only(category: BikeCategory)

  /** One filter button: its text and the value it selects. */
  datatype CategoryButton = CategoryButton(text: string, value: CategoryChoice)

  /** `categories`, in button order. */
  const CATEGORIES: seq<CategoryButton> := [
    CategoryButton("All", All),
    CategoryButton("Enduro", Only(Enduro)),
    CategoryButton("Trail", Only(Trail)),
    CategoryButton("XC", Only(CrossCountry)),
    CategoryButton("Downhill", Only(Downhill)),
    CategoryButton("Dirt Jump", Only(DirtJump)),
    CategoryButton("Gravel", Only(Gravel))
  ]

  /** Every filter value has exactly one button, so exactly one button is
      highlighted (`activeCategory === c.value`) whatever the filter is. */
  lemma ExactlyOneButtonHighlighted(active: CategoryChoice)
    ensures exists i :: 0 <= i < |CATEGORIES| && CATEGORIES[i].value == active
    ensures forall i, j :: 0 <= i < j < |CATEGORIES| ==> CATEGORIES[i].value != CATEGORIES[j].value
  {
    var i := match active
      case All => 0
      case Only(Enduro) => 1
      case Only(Trail) => 2
      case Only(CrossCountry) => 3
      case Only(Downhill) => 4
      case Only(DirtJump) => 5
      case Only(Gravel) => 6;
    assert CATEGORIES[i].value == active;
  }

  /** `r` is `s` with some elements removed, the rest in their order. */
  predicate IsSubsequence<T(==)>(r: seq<T>, s: seq<T>)
    decreases |s|
  {
    if r == [] then true
    else if s == [] then false
    else if r[0] == s[0] then IsSubsequence(r[1..], s[1..])
    else IsSubsequence(r, s[1..])
  }

  /** `listings.filter(l => l.category === c)`: only listings of category
      `c`, in their order in `ls`. */
  function KeepCategory(ls: seq<Listing>, c: BikeCategory): (r: seq<Listing>)
    ensures forall k :: 0 <= k < |r| ==> r[k].category == c
    ensures IsSubsequence(r, ls)
  {
    if ls == [] then []
    else
      var rest := KeepCategory(ls[1..], c);
      if ls[0].category == c then [ls[0]] + rest
      else
        assert rest != [] ==> rest[0] != ls[0];
        rest
  }

  /** The filter keeps every listing of category `c` as many times as `ls`
      has it, and no other listing. */
  lemma {:induction false} KeepCategoryCounts(ls: seq<Listing>, c: BikeCategory)
    ensures forall l: Listing :: multiset(KeepCategory(ls, c))[l] == if l.category == c then multiset(ls)[l] else 0
    decreases |ls|
  {
    if ls != [] {
      KeepCategoryCounts(ls[1..], c);
      assert ls == [ls[0]] + ls[1..];
    }
  }

  /** Filtering distributes over concatenation: the result keeps the order of
      the whole list, not only of each part. */
  lemma {:induction false} KeepCategoryAppend(a: seq<Listing>, b: seq<Listing>, c: BikeCategory)
    ensures KeepCategory(a + b, c) == KeepCategory(a, c) + KeepCategory(b, c)
    decreases |a|
  {
    if a == [] {
      assert a + b == b;
    } else {
      assert (a + b)[1..] == a[1..] + b;
      KeepCategoryAppend(a[1..], b, c);
    }
  }

  /** `filtered`: the listings unchanged for "all", otherwise those of the
      chosen category. */
  function Filtered(ls: seq<Listing>, choice: CategoryChoice): (r: seq<Listing>)
    ensures choice.All? ==> r == ls
    ensures choice.Only? ==> forall k :: 0 <= k < |r| ==> r[k].category == choice.category
    ensures choice.Only? ==> forall l: Listing :: l.category == choice.category ==> multiset(r)[l] == multiset(ls)[l]
    ensures IsSubsequence(r, ls)
  {
    if choice.All? then
      SubsequenceOfItself(ls);
      ls
    else
      KeepCategoryCounts(ls, choice.category);
      KeepCategory(ls, choice.category)
  }

  lemma {:induction false} SubsequenceOfItself<T>(s: seq<T>)
    ensures IsSubsequence(s, s)
    decreases |s|
  {
    if s != [] {
      SubsequenceOfItself(s[1..]);
    }
  }

  /** `Math.max(0, endsAt.getTime() - Date.now())` with the clock reading
      passed in. */
  function RemainingMs(endsAt: int, now: int): (r: nat)
    ensures r >= endsAt - now
    ensures r == 0 || r == endsAt - now
    ensures r == ListingCard.TimeRemaining(endsAt, now)
  {
    if endsAt - now > 0 then endsAt - now else 0
  }

  /** `useCountdown`: the `ms` state that the initialiser and every interval
      tick set to the clamped time left. Unlike the card of
      src/components/ListingCard.tsx, this interval never stops itself. */
  class CountdownHook {
    const endsAt: int
    var ms: nat

    constructor (endsAt: int, now: int)
      ensures this.endsAt == endsAt
      ensures ms == RemainingMs(endsAt, now)
    {
      this.endsAt := endsAt;
      ms := RemainingMs(endsAt, now);
    }

    /** One interval tick at clock reading `now`. */
    method Tick(now: int)
      modifies this
      ensures ms == RemainingMs(endsAt, now)
    {
      ms := RemainingMs(endsAt, now);
    }
  }

  /** `Countdown`: "Ended" for a non-positive duration; otherwise a label and
      the urgent flag, which holds exactly below one hour. */
  function Countdown(ms: int): (span: CountdownSpan)
    ensures span.EndedSpan? <==> ms <= 0
    ensures span.LiveSpan? ==> (span.urgent <==> ms < URGENT_MS)
  {
    if ms <= 0 then EndedSpan
    else
      var s := ms / 1000;
      var d := s / 86400;
      var h := (s % 86400) / 3600;
      var m := (s % 3600) / 60;
      var sec := s % 60;
      var urgent := ms < 60 * 60 * 1000;
      var text :=
        if d > 0 then RenderFields([Field(d, 'd'), Field(h, 'h'), Field(m, 'm')])
        else if h > 0 then RenderFields([Field(h, 'h'), Field(m, 'm'), Field(sec, 's')])
        else RenderFields([Field(m, 'm'), Field(sec, 's')]);
      LiveSpan(text, urgent)
  }

  /** The page's countdown text equals the card's `formatCountdown` for every
      duration, "Ended" included, and its urgent flag is the card's
      expiring-soon flag wherever it is computed. */
  lemma CountdownMatchesListingCard(ms: int)
    ensures SpanText(Countdown(ms)) == ListingCard.FormatCountdown(ms)
    ensures Countdown(ms).LiveSpan? ==> (Countdown(ms).urgent <==> ListingCard.IsExpiringSoon(ms))
  {
  }

  /** The card's bid: the current bid, or the starting bid when there is none;
      the same rule as the listing card's `highBid`. */
  function CardBid(l: Listing): (r: int)
    ensures r == ListingCard.HighBid(l)
  {
    l.currentBid.GetOr(l.startingBid)
  }

  /** What a JSX child `{x && <p>...</p>}` puts on the page. */
  datatype Rendered = Nothing | Text(s: string) | BuyItNowLine(price: int)

  /** `{listing.buyItNowPrice && (<p>Buy it now ...</p>)}` as written: `null`
      renders nothing, but a price of 0 is falsy and is itself rendered, as
      the text "0". */
  function BuyItNowAsWritten(price: Option<int>): (r: Rendered)
    ensures price.None? ==> r == Nothing
    ensures price == Some(0) ==> r == Text(NatToString(0))
    ensures price.Some? && price.value != 0 ==> r == BuyItNowLine(price.value)
  {
    match price
    case None => Nothing
    case Some(p) => if p == 0 then Text("0") else BuyItNowLine(p)
  }

  /** A listing whose buy-it-now price is 0 shows a stray "0" on its card. */
  lemma StrayZeroOnCard()
    ensures BuyItNowAsWritten(Some(0)) == Text("0")
    ensures BuyItNowAsWritten(Some(0)) != BuyItNow(Some(0))
  {
  }

  /** The buy-it-now line as intended: shown exactly when the price is present
      and non-zero, with that price, and nothing else is ever rendered. */
  function BuyItNow(price: Option<int>): (r: Rendered)
    ensures !r.Text?
    ensures r.BuyItNowLine? <==> price.Some? && price.value != 0
    ensures r.BuyItNowLine? ==> r.price == price.value
  {
    match price
    case Some(p) => if p != 0 then BuyItNowLine(p) else Nothing
    case None => Nothing
  }

  /** The corrected line differs from the written one only at a price of 0. */
  lemma BuyItNowDiffersOnlyAtZero(price: Option<int>)
    ensures price != Some(0) ==> BuyItNow(price) == BuyItNowAsWritten(price)
  {
  }

  /** What an `AuctionCard` shows besides the image and the titles. */
  datatype AuctionCardView = AuctionCardView(bid: int, countdown: CountdownSpan, buyItNow: Rendered)

  /** The card for listing `l` whose countdown hook holds `ms`, as written:
      a buy-it-now price of 0 puts the text "0" on the card. */
  function Card(l: Listing, ms: int): (v: AuctionCardView)
    ensures v.bid == ListingCard.HighBid(l)
    ensures SpanText(v.countdown) == ListingCard.FormatCountdown(ms)
    ensures v.buyItNow.BuyItNowLine? <==> l.buyItNowPrice.Some? && l.buyItNowPrice.value != 0
    ensures l.buyItNowPrice == Some(0) ==> v.buyItNow == Text("0")
    ensures l.buyItNowPrice.None? ==> v.buyItNow == Nothing
  {
    CountdownMatchesListingCard(ms);
    AuctionCardView(CardBid(l), Countdown(ms), BuyItNowAsWritten(l.buyItNowPrice))
  }

  /** The card as intended: the buy-it-now line alone, never a stray "0";
      it is the written card for every listing whose price is not 0. */
  function IntendedCard(l: Listing, ms: int): (v: AuctionCardView)
    ensures !v.buyItNow.Text?
    ensures v.buyItNow.BuyItNowLine? <==> l.buyItNowPrice.Some? && l.buyItNowPrice.value != 0
    ensures l.buyItNowPrice != Some(0) ==> v == Card(l, ms)
    ensures v.bid == Card(l, ms).bid && v.countdown == Card(l, ms).countdown
  {
    BuyItNowDiffersOnlyAtZero(l.buyItNowPrice);
    AuctionCardView(CardBid(l), Countdown(ms), BuyItNow(l.buyItNowPrice))
  }

  /** The page: its listings and the `activeCategory` state. */
  class HomePage {
    const listings: seq<Listing>
    var activeCategory: CategoryChoice

    constructor (listings: seq<Listing>)
      ensures this.listings == listings
      ensures activeCategory == All
      ensures Visible() == listings
    {
      this.listings := listings;
      activeCategory := All;
    }

    /** The listings on the grid. */
    function Visible(): (r: seq<Listing>)
      reads this
      ensures IsSubsequence(r, listings)
    {
      Filtered(listings, activeCategory)
    }

    /** A click on the filter button at position `i`; there is no button past
        the last one. */
    method ClickCategory(i: nat)
      modifies this
      ensures i < |CATEGORIES| ==> activeCategory == CATEGORIES[i].value
      ensures i >= |CATEGORIES| ==> activeCategory == old(activeCategory)
      ensures i < |CATEGORIES| ==> Visible() == Filtered(listings, CATEGORIES[i].value)
    {
      if i < |CATEGORIES| {
        activeCategory := CATEGORIES[i].value;
      }
    }
  }
}
