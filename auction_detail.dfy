/** src/pages/AuctionDetail.tsx: the days-less countdown, the minimum bid and
    the bid input it feeds, and the page state changed by the comment and bid
    forms. The bid form accepts nothing: submitting it only clears the amount
    field. */
module AuctionDetail {
  import opened Common
  import opened Decimal
  import opened Labels
  import ListingCard

  const URGENT_MS: nat := 60 * 60 * 1000
  /** The step between the current bid and the smallest bid the form offers. */
  const MIN_INCREMENT: nat := 50
  /** The page's fixed `currentBid`. */
  const CURRENT_BID: nat := 4500

  /** Whole hours, minutes and seconds; the hours are not capped at a day. */
  datatype HourParts = HourParts(hours: nat, minutes: nat, seconds: nat)

  /** The split this page's `Countdown` makes: the parts recombine to the whole
      seconds of `ms`, minutes and seconds below 60, hours unbounded. */
  function SplitHours(ms: nat): (p: HourParts)
    ensures p.hours * 3600 + p.minutes * 60 + p.seconds == ms / 1000
    ensures p.minutes < 60 && p.seconds < 60
  {
    var s := ms / 1000;
    ListingCard.HourThenMinute(s);
    HourParts(s / 3600, (s % 3600) / 60, s % 60)
  }

  /** `Countdown`: "Ended" for a non-positive duration; otherwise the label and
      the urgent flag, which holds exactly below one hour. */
  function Countdown(ms: int): (span: CountdownSpan)
    ensures span.EndedSpan? <==> ms <= 0
    ensures span.LiveSpan? ==> (span.urgent <==> ms < URGENT_MS)
  {
    if ms <= 0 then EndedSpan
    else
      var p := SplitHours(ms);
      var urgent := ms < 60 * 60 * 1000;
      LiveSpan(RenderFields(HourFields(p)), urgent)
  }

  /** The label's fields: hours, minutes and seconds when there are hours,
      minutes and seconds otherwise. */
  function HourFields(p: HourParts): (fs: seq<Field>)
    ensures fs != [] && UnitsAreLetters(fs)
  {
    if p.hours > 0 then [Field(p.hours, 'h'), Field(p.minutes, 'm'), Field(p.seconds, 's')]
    else [Field(p.minutes, 'm'), Field(p.seconds, 's')]
  }

  /** The fields read as the whole duration of the parts. */
  lemma HourFieldsMeaning(p: HourParts)
    ensures Seconds(HourFields(p)) == p.hours * 3600 + p.minutes * 60 + p.seconds
    ensures p.hours > 0 ==> Units(HourFields(p)) == "hms"
    ensures p.hours == 0 ==> Units(HourFields(p)) == "ms"
  {
    var fs := HourFields(p);
    if p.hours > 0 {
      assert Seconds(fs[2..]) == p.seconds;
      assert Seconds(fs[1..]) == p.minutes * 60 + p.seconds;
      assert Units(fs) == "hms";
    } else {
      assert Seconds(fs[1..]) == p.seconds;
      assert Units(fs) == "ms";
    }
  }

  /** A live label always reads back exactly as the whole seconds left: hours,
      minutes and seconds from an hour on, minutes and seconds below. */
  lemma CountdownMeaning(ms: int)
    requires ms > 0
    ensures ParseFields(SpanText(Countdown(ms))).Some?
    ensures var fs := ParseFields(SpanText(Countdown(ms))).value;
      var total := ms / 1000;
      && SpanText(Countdown(ms)) == RenderFields(fs)
      && Seconds(fs) == total
      && (total >= 3600 ==> Units(fs) == "hms")
      && (total < 3600 ==> Units(fs) == "ms")
  {
    var p := SplitHours(ms);
    ParseRender(HourFields(p));
    HourFieldsMeaning(p);
  }

  /** Below one day this page's countdown shows the same text as the card's
      `formatCountdown`, and its urgent flag is the card's expiring flag. */
  lemma AgreesWithListingCardBelowOneDay(ms: int)
    requires ms < 24 * 60 * 60 * 1000
    ensures SpanText(Countdown(ms)) == ListingCard.FormatCountdown(ms)
    ensures Countdown(ms).LiveSpan? ==> (Countdown(ms).urgent <==> ListingCard.IsExpiringSoon(ms))
  {
    if ms > 0 {
      var p := SplitHours(ms);
      var q := ListingCard.Split(ms);
      assert q.days == 0;
      assert p.hours == q.hours && p.minutes == q.minutes && p.seconds == q.seconds;
    }
  }

  /** From one day on the two pages disagree: at exactly one day this page
      shows "24h 0m 0s" where the card shows "1d 0h 0m". */
  lemma DisagreesAtOneDay()
    ensures SpanText(Countdown(86400000)) == "24h 0m 0s"
    ensures ListingCard.FormatCountdown(86400000) == "1d 0h 0m"
  {
    PageLabelAtOneDay();
    CardLabelAtOneDay();
  }

  /** From one day on the texts always differ: the card's label has a day
      field and this page's label has no "d" at all. */
  lemma DisagreeFromOneDay(ms: int)
    requires ms >= 24 * 60 * 60 * 1000
    ensures SpanText(Countdown(ms)) != ListingCard.FormatCountdown(ms)
  {
    assert ListingCard.Split(ms).days > 0;
    RenderHasUnit(ListingCard.CountdownFields(ListingCard.Split(ms)), 0);
    RenderAlphabet(HourFields(SplitHours(ms)), 'd');
  }

  lemma PageLabelAtOneDay()
    ensures SpanText(Countdown(86400000)) == "24h 0m 0s"
  {
    assert NatToString(0) == "0";
    assert NatToString(24) == "24" by {
      assert NatToString(2) == "2";
      assert NatToString(4) == "4";
    }
    var p := [Field(24, 'h'), Field(0, 'm'), Field(0, 's')];
    assert 86400000 / 1000 == 86400;
    assert SplitHours(86400000) == HourParts(24, 0, 0);
    assert HourFields(HourParts(24, 0, 0)) == p;
    assert RenderFields(p[2..]) == "0s";
    assert RenderFields(p[1..]) == "0m 0s";
    assert RenderFields(p) == "24h 0m 0s";
    assert Countdown(86400000) == LiveSpan(RenderFields(p), false);
  }

  lemma CardLabelAtOneDay()
    ensures ListingCard.FormatCountdown(86400000) == "1d 0h 0m"
  {
    assert NatToString(0) == "0";
    assert NatToString(1) == "1";
    var q := [Field(1, 'd'), Field(0, 'h'), Field(0, 'm')];
    ListingCard.SplitUnique(86400000, ListingCard.Parts(1, 0, 0, 0));
    assert ListingCard.CountdownFields(ListingCard.Parts(1, 0, 0, 0)) == q;
    assert RenderFields(q[2..]) == "0m";
    assert RenderFields(q[1..]) == "0h 0m";
  }

  /** The bid form: the minimum shown as "Min. bid" (through the locale
      formatter, kept as a number here), the input's `min`, and its
      `placeholder` text. */
  datatype BidForm = BidForm(shownMin: int, min: int, placeholder: string)

  /** `minBid = currentBid + 50` and the form built from it: the smallest bid
      offered is exactly one increment above the current bid, and the
      shown minimum, the input's `min` and the placeholder's number are that
      same value. */
  function MakeBidForm(currentBid: nat): (f: BidForm)
    ensures f.min > currentBid && f.min - currentBid == MIN_INCREMENT
    ensures f.shownMin == f.min
    ensures AllDigits(f.placeholder) && DigitsValue(f.placeholder) == f.min
  {
    var minBid := currentBid + 50;
    ReadBack(minBid);
    BidForm(minBid, minBid, NatToString(minBid))
  }

  /** One entry of the comment list. */
  datatype Comment = Comment(id: string, user: string, avatar: string, text: string, time: string)

  /** The entry `handleComment` adds for the draft `draft` at clock reading
      `now`: none for an empty or whitespace-only draft; otherwise the trimmed
      draft, which is non-empty and neither starts nor ends with whitespace,
      posted as "you" "just now" with the clock reading as its id. */
  function NewComment(draft: string, now: nat): (r: Option<Comment>)
    ensures r.None? <==> IsBlank(draft)
    ensures r.Some? ==>
      && r.value.text == Trim(draft) && r.value.text != []
      && !IsSpace(r.value.text[0]) && !IsSpace(r.value.text[|r.value.text| - 1])
      && r.value.id == NatToString(now)
      && r.value.user == "you" && r.value.avatar == "Y" && r.value.time == "just now"
  {
    var t := Trim(draft);
    if t == [] then None
    else Some(Comment(NatToString(now), "you", "Y", t, "just now"))
  }

  /** The page's state. */
  class AuctionDetailPage {
    const currentBid: nat
    var activeImage: nat
    var bidAmount: string
    var comment: string
    var comments: seq<Comment>

    /** A fresh page starts on the first image with empty fields and the
        given comments. */
    constructor (initialComments: seq<Comment>)
      ensures currentBid == CURRENT_BID
      ensures activeImage == 0 && bidAmount == [] && comment == [] && comments == initialComments
    {
      currentBid := CURRENT_BID;
      activeImage := 0;
      bidAmount := [];
      comment := [];
      comments := initialComments;
    }

    /** Typing in the comment box. */
    method EditComment(text: string)
      modifies this
      ensures comment == text
      ensures comments == old(comments) && bidAmount == old(bidAmount) && activeImage == old(activeImage)
    {
      comment := text;
    }

    /** Typing in the bid amount box. */
    method EditBidAmount(text: string)
      modifies this
      ensures bidAmount == text
      ensures comments == old(comments) && comment == old(comment) && activeImage == old(activeImage)
    {
      bidAmount := text;
    }

    /** Clicking thumbnail `i`. */
    method ClickThumbnail(i: nat)
      modifies this
      ensures activeImage == i
      ensures comments == old(comments) && comment == old(comment) && bidAmount == old(bidAmount)
    {
      activeImage := i;
    }

    /** `handleComment`: a blank draft changes nothing; otherwise exactly one
        entry, the trimmed draft, is appended after the earlier entries, which
        are unchanged, and the draft is cleared. */
    method HandleComment(now: nat)
      modifies this
      ensures IsBlank(old(comment)) ==> comments == old(comments) && comment == old(comment)
      ensures !IsBlank(old(comment)) ==>
        && |comments| == |old(comments)| + 1
        && comments[..|old(comments)|] == old(comments)
        && comments[|old(comments)|] == NewComment(old(comment), now).value
        && comment == []
      ensures bidAmount == old(bidAmount) && activeImage == old(activeImage)
    {
      var entry := NewComment(comment, now);
      if entry.None? {
        return;
      }
      comments := comments + [entry.value];
      comment := [];
    }

    /** `handleBid`: only the amount field is cleared; the current bid, the
        comments and everything else stay as they were. */
    method HandleBid()
      modifies this
      ensures bidAmount == []
      ensures comments == old(comments) && comment == old(comment) && activeImage == old(activeImage)
    {
      bidAmount := [];
    }
  }
}
