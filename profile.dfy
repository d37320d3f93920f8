/** src/pages/Profile.tsx: the header's display name and avatar letter, the
    tab bar with its counts, the tab panel chosen by `activeTab`, and the
    row labels of the active-bids panel. The auction and comment lists are
    module-level data in the source; here they are a parameter. */
module Profile {
  import opened Common
  import opened Labels
  import ListingCard

  /** The signed-in user as far as this page reads it. */
  datatype User = User(email: Option<string>)

  /** `email.split("@")[0]`: the text before the first "@", or all of it when
      there is none. It is a prefix of `email` and has no "@", and it stops
      either at the end or at an "@". */
  function LocalPart(email: string): (r: string)
    ensures |r| <= |email| && r == email[..|r|]
    ensures '@' !in r
    ensures |r| < |email| ==> email[|r|] == '@'
  {
    if email == [] || email[0] == '@' then []
    else
      var rest := LocalPart(email[1..]);
      assert email[1..][..|rest|] == email[1..|rest| + 1];
      [email[0]] + rest
  }

  /** An email without "@" is its own local part, and the local part is
      unchanged by whatever follows the first "@". */
  lemma {:induction false} LocalPartOf(name: string, domain: string)
    requires '@' !in name
    ensures LocalPart(name) == name
    ensures LocalPart(name + "@" + domain) == name
    decreases |name|
  {
    if name != [] {
      assert name[0] != '@';
      assert name[1..] + "@" + domain == (name + "@" + domain)[1..];
      LocalPartOf(name[1..], domain);
      assert name == [name[0]] + name[1..];
    } else {
      assert name + "@" + domain == ['@'] + domain;
    }
  }

  /** `user?.email?.split("@")[0] ?? "rider"` as written: "rider" when there
      is no user or no email, otherwise the email's local part, which may be
      empty. */
  function DisplayNameAsWritten(user: Option<User>): (r: string)
    ensures user.None? || user.value.email.None? ==> r == "rider"
    ensures user.Some? && user.value.email.Some? ==> r == LocalPart(user.value.email.value)
  {
    match user
    case None => "rider"
    case Some(u) =>
      match u.email
      case None => "rider"
      case Some(e) => LocalPart(e)
  }

  /** `displayName[0].toUpperCase()` as written: the upper-cased first
      character, or `None` for an empty name, where indexing yields
      `undefined` and the call throws a TypeError that takes down the page. */
  function AvatarLetterAsWritten(name: string): (r: Option<char>)
    ensures r.None? <==> name == []
    ensures r.Some? ==> r.value == UpperChar(name[0])
  {
    if name == [] then None else Some(UpperChar(name[0]))
  }

  /** The page fails exactly for a signed-in user whose email is empty or
      starts with "@". */
  lemma AvatarFailsIff(user: Option<User>)
    ensures AvatarLetterAsWritten(DisplayNameAsWritten(user)).None? <==>
      user.Some? && user.value.email.Some? &&
      (user.value.email.value == [] || user.value.email.value[0] == '@')
  {
    if user.Some? && user.value.email.Some? {
      var e := user.value.email.value;
      if e != [] && e[0] != '@' {
        assert LocalPart(e) != [];
      }
    }
  }

  /** The email "@example.com" makes the header throw. */
  lemma EmptyLocalPartFails()
    ensures AvatarLetterAsWritten(DisplayNameAsWritten(Some(User(Some("@example.com"))))).None?
  {
    assert "@example.com"[0] == '@';
  }

  /** The header as intended: `split("@")[0] || "rider"`, so an empty local
      part also falls back to "rider"; the name is never empty and the avatar
      letter is its upper-cased first character. */
  datatype Header = Header(name: string, avatar: char)

  function MakeHeader(user: Option<User>): (h: Header)
    ensures h.name != []
    ensures h.avatar == UpperChar(h.name[0]) && !IsLower(h.avatar)
    ensures h.name == if DisplayNameAsWritten(user) == [] then "rider" else DisplayNameAsWritten(user)
    ensures AvatarLetterAsWritten(DisplayNameAsWritten(user)).Some? ==>
      h.name == DisplayNameAsWritten(user) && AvatarLetterAsWritten(DisplayNameAsWritten(user)) == Some(h.avatar)
  {
    var written := DisplayNameAsWritten(user);
    var name := if written == [] then "rider" else written;
    Header(name, UpperChar(name[0]))
  }

  /** A won auction row. */
  datatype WonAuction = WonAuction(id: string, title: string, finalBid: int, date: string)

  /** A lost auction row. */
  datatype LostAuction = LostAuction(id: string, title: string, yourBid: int, finalPrice: int, date: string)

  /** An active bid row; `endsIn` is a free-form label such as "4h 12m". */
  datatype ActiveBid = ActiveBid(id: string, title: string, yourBid: int, currentBid: int, endsIn: string, leading: bool)

  /** A comment row. */
  datatype CommentEntry = CommentEntry(id: string, listing: string, text: string, time: string)

  /** The four lists the tabs show. */
  datatype History = History(won: seq<WonAuction>, lost: seq<LostAuction>,
                             active: seq<ActiveBid>, comments: seq<CommentEntry>)

  /** One tab button: its text and its count. */
  datatype Tab = Tab(text: string, count: nat)

  /** `TABS`: four tabs in a fixed order, each counting the list it shows. */
  function Tabs(h: History): (r: seq<Tab>)
    ensures |r| == 4
    ensures r[0].count == |h.won| && r[1].count == |h.lost|
    ensures r[2].count == |h.active| && r[3].count == |h.comments|
    ensures r[0].text == "Won" && r[1].text == "Lost" && r[2].text == "Active Bids" && r[3].text == "Comments"
  {
    [Tab("Won", |h.won|), Tab("Lost", |h.lost|), Tab("Active Bids", |h.active|), Tab("Comments", |h.comments|)]
  }

  /** `{tab.count > 0 && <span>{tab.count}</span>}`: the badge and its number. */
  function Badge(t: Tab): (r: Option<nat>)
    ensures r.Some? <==> t.count > 0
    ensures r.Some? ==> r.value == t.count
  {
    if t.count > 0 then Some(t.count) else None
  }

  /** "Leading" or "Outbid", from the bid's flag. */
  function BidStatusLabel(leading: bool): (r: string)
    ensures r == "Leading" <==> leading
    ensures r == "Outbid" <==> !leading
  {
    if leading then "Leading" else "Outbid"
  }

  /** `endsIn.includes("m") && !endsIn.includes("h")`: the time left is
      highlighted. */
  predicate EndsInUrgent(endsIn: string) {
    'm' in endsIn && 'h' !in endsIn
  }

  /** Applied to the listing card's countdown label, the highlight test holds
      exactly when the card calls the auction expiring soon: an ended label
      and labels with days or hours fail it, labels of minutes and seconds
      pass it. */
  lemma UrgentIffExpiringSoon(ms: int)
    ensures EndsInUrgent(ListingCard.FormatCountdown(ms)) <==> ListingCard.IsExpiringSoon(ms)
  {
    if ms <= 0 {
      assert ListingCard.FormatCountdown(ms) == "Ended";
      assert 'm' !in "Ended" by {
        var e := "Ended";
        assert e[0] != 'm' && e[1] != 'm' && e[2] != 'm' && e[3] != 'm' && e[4] != 'm';
      }
    } else {
      var p := ListingCard.Split(ms);
      var fs := ListingCard.CountdownFields(p);
      assert ListingCard.FormatCountdown(ms) == RenderFields(fs);
      if p.days > 0 {
        RenderHasUnit(fs, 1);
      } else if p.hours > 0 {
        RenderHasUnit(fs, 0);
      } else {
        RenderHasUnit(fs, 0);
        RenderAlphabet(fs, 'h');
      }
    }
  }

  /** An active-bids row as rendered: title, status label, current bid, the
      time left and whether it is highlighted. */
  datatype ActiveRow = ActiveRow(title: string, status: string, currentBid: int, endsIn: string, urgent: bool)

  /** What a tab panel shows: its empty-state message, or its rows. */
  datatype Panel =
    | EmptyState(message: string)
    | WonList(won: seq<WonAuction>)
    | LostList(lost: seq<LostAuction>)
    | ActiveList(rows: seq<ActiveRow>)
    | CommentList(comments: seq<CommentEntry>)

  /** `ActiveBidsTab`'s rows: one per bid, in order, labelled by its flag and
      highlighted by its `endsIn`. */
  function ActiveRows(bids: seq<ActiveBid>): (r: seq<ActiveRow>)
    ensures |r| == |bids|
    ensures forall k :: 0 <= k < |bids| ==>
      && r[k].title == bids[k].title && r[k].currentBid == bids[k].currentBid
      && r[k].endsIn == bids[k].endsIn
      && (r[k].status == "Leading" <==> bids[k].leading)
      && (r[k].urgent <==> EndsInUrgent(bids[k].endsIn))
  {
    seq(|bids|, k requires 0 <= k < |bids| =>
      var b := bids[k];
      ActiveRow(b.title, BidStatusLabel(b.leading), b.currentBid, b.endsIn, EndsInUrgent(b.endsIn)))
  }

  /** The panel of tab `i` (`WonTab`, `LostTab`, `ActiveBidsTab`,
      `CommentsTab`): the empty state exactly when its list is empty. */
  function TabPanel(h: History, i: nat): (p: Panel)
    requires i < 4
    ensures p.EmptyState? <==> Tabs(h)[i].count == 0
    ensures !p.EmptyState? && i == 0 ==> p == WonList(h.won)
    ensures !p.EmptyState? && i == 1 ==> p == LostList(h.lost)
    ensures !p.EmptyState? && i == 2 ==> p == ActiveList(ActiveRows(h.active))
    ensures !p.EmptyState? && i == 3 ==> p == CommentList(h.comments)
  {
    if i == 0 then (if |h.won| == 0 then EmptyState("No won auctions yet.") else WonList(h.won))
    else if i == 1 then (if |h.lost| == 0 then EmptyState("No lost auctions.") else LostList(h.lost))
    else if i == 2 then (if |h.active| == 0 then EmptyState("No active bids.") else ActiveList(ActiveRows(h.active)))
    else (if |h.comments| == 0 then EmptyState("No comments yet.") else CommentList(h.comments))
  }

  /** The four `{activeTab === i && <...Tab />}` slots. */
  function PanelSlots(h: History, activeTab: int): seq<Option<Panel>> {
    seq(4, i requires 0 <= i < 4 => if activeTab == i then Some(TabPanel(h, i)) else None)
  }

  /** For a tab in range exactly one slot is filled, with that tab's panel. */
  lemma OnePanelShown(h: History, activeTab: int)
    requires 0 <= activeTab < 4
    ensures PanelSlots(h, activeTab)[activeTab] == Some(TabPanel(h, activeTab))
    ensures forall i :: 0 <= i < 4 && i != activeTab ==> PanelSlots(h, activeTab)[i].None?
  {
  }

  /** The page's state: the lists it shows and the selected tab. */
  class ProfilePage {
    const history: History
    var activeTab: int

    ghost predicate Valid()
      reads this
    {
      0 <= activeTab < 4
    }

    /** The page opens on the first tab. */
    constructor (h: History)
      ensures Valid()
      ensures history == h && activeTab == 0
    {
      history := h;
      activeTab := 0;
    }

    /** `<SectionLabel>{TABS[activeTab].label}</SectionLabel>`. */
    function Heading(): string
      requires Valid()
      reads this
    {
      Tabs(history)[activeTab].text
    }

    /** A click on tab button `i`; there are four buttons. */
    method ClickTab(i: nat)
      requires Valid()
      modifies this
      ensures Valid()
      ensures i < 4 ==> activeTab == i
      ensures i >= 4 ==> activeTab == old(activeTab)
    {
      if i < 4 {
        activeTab := i;
      }
    }
  }
}
