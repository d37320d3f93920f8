/** src/components/ListingCard.tsx: the time-remaining arithmetic, the
    countdown label, the "expiring soon" flag, the displayed bid, which of the
    countdown and the "Auction ended" banner is shown, and the component's
    `timeRemaining` state that a one-second interval overwrites until it
    reaches zero. */
module ListingCard {
  import opened Common
  import opened Decimal
  import opened Labels
  import opened Listings

  const MS_PER_SECOND: nat := 1000
  const SECONDS_PER_MINUTE: nat := 60
  const SECONDS_PER_HOUR: nat := 3600
  const SECONDS_PER_DAY: nat := 86400
  /** `ONE_HOUR_MS` */
  const ONE_HOUR_MS: nat := 60 * 60 * 1000

  /** `getTimeRemaining`: milliseconds until `endsAt`, never negative, with the
      clock reading `now` passed in. */
  function TimeRemaining(endsAt: int, now: int): (r: nat)
    ensures endsAt > now ==> r == endsAt - now
    ensures endsAt <= now ==> r == 0
  {
    if endsAt - now > 0 then endsAt - now else 0
  }

  /** As the clock advances the remaining time never grows, and once it is
      zero it stays zero. */
  lemma TimeRemainingMonotone(endsAt: int, earlier: int, later: int)
    requires earlier <= later
    ensures TimeRemaining(endsAt, later) <= TimeRemaining(endsAt, earlier)
    ensures TimeRemaining(endsAt, earlier) == 0 ==> TimeRemaining(endsAt, later) == 0
  {
  }

  /** The whole days, hours, minutes and seconds of a duration. */
  datatype Parts = Parts(days: nat, hours: nat, minutes: nat, seconds: nat)

  /** The split `formatCountdown` makes of `ms`: the parts recombine to the
      whole seconds of `ms`, and every part but the days is below its
      rollover. */
  function Split(ms: nat): (p: Parts)
    ensures p.days * SECONDS_PER_DAY + p.hours * SECONDS_PER_HOUR + p.minutes * SECONDS_PER_MINUTE + p.seconds
            == ms / MS_PER_SECOND
    ensures p.hours < 24 && p.minutes < 60 && p.seconds < 60
  {
    var totalSeconds := ms / 1000;
    var days := totalSeconds / 86400;
    var hours := (totalSeconds % 86400) / 3600;
    var minutes := (totalSeconds % 3600) / 60;
    var seconds := totalSeconds % 60;
    DayThenHour(totalSeconds);
    HourThenMinute(totalSeconds);
    Parts(days, hours, minutes, seconds)
  }

  /** Taking the remainder by a day, then by an hour, is taking it by an
      hour. */
  lemma DayThenHour(t: nat)
    ensures t % 86400 % 3600 == t % 3600
  {
    var a, r := t / 86400, t % 86400;
    var c, d := r / 3600, r % 3600;
    var k := 24 * a + c;
    assert t == 3600 * k + d;
    assert t / 3600 == k;
  }

  /** Taking the remainder by an hour, then by a minute, is taking it by a
      minute. */
  lemma HourThenMinute(t: nat)
    ensures t % 3600 % 60 == t % 60
  {
    var a, r := t / 3600, t % 3600;
    var c, d := r / 60, r % 60;
    var k := 60 * a + c;
    assert t == 60 * k + d;
    assert t / 60 == k;
  }

  /** `Split` is the only decomposition with these properties, so the parts
      are determined by the duration. */
  lemma SplitUnique(ms: nat, p: Parts)
    requires p.days * SECONDS_PER_DAY + p.hours * SECONDS_PER_HOUR + p.minutes * SECONDS_PER_MINUTE + p.seconds
             == ms / MS_PER_SECOND
    requires p.hours < 24 && p.minutes < 60 && p.seconds < 60
    ensures p == Split(ms)
  {
    var q := Split(ms);
    var below := p.hours * 3600 + p.minutes * 60 + p.seconds;
    assert below < 86400;
    assert p.days == q.days;
    assert p.hours == q.hours;
    assert p.minutes == q.minutes;
  }

  /** The fields of the label for some parts: days, hours and minutes when
      there are days; hours, minutes and seconds when there are hours;
      otherwise minutes and seconds. */
  function CountdownFields(p: Parts): (fs: seq<Field>)
    ensures fs != [] && UnitsAreLetters(fs)
  {
    if p.days > 0 then [Field(p.days, 'd'), Field(p.hours, 'h'), Field(p.minutes, 'm')]
    else if p.hours > 0 then [Field(p.hours, 'h'), Field(p.minutes, 'm'), Field(p.seconds, 's')]
    else [Field(p.minutes, 'm'), Field(p.seconds, 's')]
  }

  /** `formatCountdown`: "Ended" exactly for the durations that are not
      positive, a label of fields otherwise. */
  function FormatCountdown(ms: int): (r: string)
    ensures (r == "Ended") <==> ms <= 0
  {
    if ms <= 0 then "Ended"
    else
      var fs := CountdownFields(Split(ms));
      RenderStartsWithDigit(fs);
      RenderFields(fs)
  }

  /** The fields are canonical: each field after the first is below one step
      of the field before it. */
  predicate Canonical(fs: seq<Field>) {
    forall k :: 1 <= k < |fs| ==> fs[k].value * UnitSeconds(fs[k].unit) < UnitSeconds(fs[k - 1].unit)
  }

  /** The fields chosen for some parts are canonical, and they read as the
      whole duration except that the seconds are dropped when there are
      days. */
  lemma CountdownFieldsMeaning(p: Parts)
    requires p.hours < 24 && p.minutes < 60 && p.seconds < 60
    ensures var fs := CountdownFields(p);
      && Canonical(fs)
      && (p.days > 0 ==>
            Units(fs) == "dhm" && Seconds(fs) == p.days * 86400 + p.hours * 3600 + p.minutes * 60)
      && (p.days == 0 && p.hours > 0 ==>
            Units(fs) == "hms" && Seconds(fs) == p.hours * 3600 + p.minutes * 60 + p.seconds)
      && (p.days == 0 && p.hours == 0 ==> Units(fs) == "ms" && Seconds(fs) == p.minutes * 60 + p.seconds)
  {
    var fs := CountdownFields(p);
    if p.days > 0 {
      assert Seconds(fs[2..]) == p.minutes * 60;
      assert Seconds(fs[1..]) == p.hours * 3600 + p.minutes * 60;
      assert Units(fs) == "dhm";
    } else if p.hours > 0 {
      assert Seconds(fs[2..]) == p.seconds;
      assert Seconds(fs[1..]) == p.minutes * 60 + p.seconds;
      assert Units(fs) == "hms";
    } else {
      assert Seconds(fs[1..]) == p.seconds;
      assert Units(fs) == "ms";
    }
  }

  /** What a positive countdown label says. Reading it back gives canonical
      fields; from a day on it shows days, hours and minutes and drops the
      seconds (so it is at most 59 seconds short of the whole seconds left);
      from an hour on it shows hours, minutes and seconds; below an hour,
      minutes and seconds. The last two are exact. */
  lemma FormatCountdownMeaning(ms: int)
    requires ms > 0
    ensures ParseFields(FormatCountdown(ms)).Some?
    ensures var fs := ParseFields(FormatCountdown(ms)).value;
      var total := ms / MS_PER_SECOND;
      && Canonical(fs)
      && FormatCountdown(ms) == RenderFields(fs)
      && (total >= SECONDS_PER_DAY ==> Units(fs) == "dhm" && Seconds(fs) <= total < Seconds(fs) + 60)
      && (SECONDS_PER_HOUR <= total < SECONDS_PER_DAY ==> Units(fs) == "hms" && Seconds(fs) == total)
      && (total < SECONDS_PER_HOUR ==> Units(fs) == "ms" && Seconds(fs) == total)
  {
    var p := Split(ms);
    var fs := CountdownFields(p);
    ParseRender(fs);
    assert FormatCountdown(ms) == RenderFields(fs);
    CountdownFieldsMeaning(p);
  }

  /** Below one second the label is "0m 0s", not "Ended". */
  lemma SubSecondIsNotEnded(ms: int)
    requires 0 < ms < MS_PER_SECOND
    ensures FormatCountdown(ms) == "0m 0s"
  {
    var fs := [Field(0, 'm'), Field(0, 's')];
    assert Split(ms) == Parts(0, 0, 0, 0);
    assert CountdownFields(Split(ms)) == fs;
    assert NatToString(0) == "0";
    assert RenderFields(fs) == RenderField(fs[0]) + " " + RenderFields(fs[1..]);
    assert RenderFields(fs[1..]) == "0s";
  }

  /** `isExpiringSoon` for a remaining time. */
  predicate IsExpiringSoon(timeRemaining: int) {
    timeRemaining > 0 && timeRemaining < ONE_HOUR_MS
  }

  /** Expiring soon holds exactly when the countdown is live and shows only
      minutes and seconds; in particular an ended countdown is never
      expiring. */
  lemma ExpiringSoonIffMinutesLabel(ms: int)
    ensures IsExpiringSoon(ms) <==>
      (FormatCountdown(ms) != "Ended" && ParseFields(FormatCountdown(ms)).Some?
       && Units(ParseFields(FormatCountdown(ms)).value) == "ms")
  {
    if ms > 0 {
      FormatCountdownMeaning(ms);
      assert "dhm" != "ms" && "hms" != "ms";
    } else {
      assert ParseFields("Ended") == None by {
        assert DigitPrefixLength("Ended") == 0;
      }
    }
  }

  /** `highBid`: the current bid, or the starting bid when there is none. */
  function HighBid(l: Listing): (r: int)
    ensures l.currentBid.Some? ==> r == l.currentBid.value
    ensures l.currentBid.None? ==> r == l.startingBid
  {
    l.currentBid.GetOr(l.startingBid)
  }

  /** The countdown paragraph: its text and its `data-expiring` flag. */
  datatype CountdownLine = CountdownLine(text: string, expiring: bool)

  /** What the card shows besides the image and the title. */
  datatype CardView = CardView(bid: int, countdown: Option<CountdownLine>, endedBanner: bool)

  /** The card for a listing with `timeRemaining` milliseconds left. */
  function Render(l: Listing, timeRemaining: int): (v: CardView)
    ensures v.bid == HighBid(l)
    ensures v.countdown.Some? <==> l.status == "active"
    ensures v.countdown.Some? ==>
      v.countdown.value.text == FormatCountdown(timeRemaining)
      && (v.countdown.value.expiring <==> 0 < timeRemaining < ONE_HOUR_MS)
    ensures v.endedBanner <==> l.status == "ended" || l.status == "sold"
  {
    CardView(
      HighBid(l),
      if l.status == "active" then Some(CountdownLine(FormatCountdown(timeRemaining), IsExpiringSoon(timeRemaining)))
      else None,
      l.status == "ended" || l.status == "sold")
  }

  /** The countdown and the "Auction ended" banner are never shown together,
      and a status other than "active", "ended" and "sold" shows neither. */
  lemma CountdownXorBanner(l: Listing, timeRemaining: int)
    ensures var v := Render(l, timeRemaining);
      !(v.countdown.Some? && v.endedBanner)
      && (l.status != "active" && l.status != "ended" && l.status != "sold" ==> v.countdown.None? && !v.endedBanner)
  {
  }

  /** The mounted card: its listing, the `timeRemaining` state, whether the
      interval is still running, and (ghost) the clock reading of the last
      update. */
  class ListingCardState {
    const listing: Listing
    var timeRemaining: nat
    var ticking: bool
    ghost var observedAt: int

    /** The interval runs only for an active listing and keeps
        `timeRemaining` equal to the time left at the last tick; an active
        listing's interval stops only once nothing is left. */
    ghost predicate Valid()
      reads this
    {
      && (ticking ==> listing.status == "active"
                      && timeRemaining == TimeRemaining(listing.auctionEndsAt, observedAt))
      && (listing.status == "active" && !ticking ==> timeRemaining == 0)
    }

    /** Mounting: the state starts at the time left at `now`, and the effect
        starts the interval only for an active listing. */
    constructor (l: Listing, now: int)
      ensures Valid()
      ensures listing == l && observedAt == now
      ensures timeRemaining == TimeRemaining(l.auctionEndsAt, now)
      ensures ticking == (l.status == "active")
    {
      listing := l;
      timeRemaining := TimeRemaining(l.auctionEndsAt, now);
      observedAt := now;
      ticking := l.status == "active";
    }

    /** One interval tick at clock reading `now`: recompute the time left and
        stop the interval once it is zero. Without a running interval nothing
        happens. */
    method Tick(now: int)
      requires Valid()
      modifies this
      ensures Valid()
      ensures old(ticking) ==>
        timeRemaining == TimeRemaining(listing.auctionEndsAt, now)
        && ticking == (timeRemaining > 0) && observedAt == now
      ensures !old(ticking) ==>
        timeRemaining == old(timeRemaining) && !ticking && observedAt == old(observedAt)
      ensures now >= old(observedAt) ==> timeRemaining <= old(timeRemaining)
      ensures now >= old(observedAt) && old(timeRemaining) == 0 ==> timeRemaining == 0
    {
      if ticking {
        var remaining := TimeRemaining(listing.auctionEndsAt, now);
        if now >= observedAt {
          TimeRemainingMonotone(listing.auctionEndsAt, observedAt, now);
        }
        timeRemaining := remaining;
        observedAt := now;
        if remaining <= 0 {
          ticking := false;
        }
      }
    }

    /** The card as currently rendered. */
    function View(): CardView
      reads this
    {
      Render(listing, timeRemaining)
    }
  }
}
