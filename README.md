# Bike auction front-end: a Dafny model of its UI logic

This project models the client-side logic of a React front-end for an online
mountain-bike auction site. It covers:

- the listing card's countdown and "expiring soon" flag, with its shown bid and
  its ticking `timeRemaining` state;
- the home page's category filter and its copy of the countdown;
- the auction page's countdown, minimum bid, and comment and bid forms;
- the four-step listing wizard;
- the dropdown and input components;
- the profile page's header, tabs and active-bid labels.

Each source file is one Dafny module:

| module | source file |
|---|---|
| `ListingCard` | src/components/ListingCard.tsx |
| `Home` | src/pages/Home.tsx |
| `AuctionDetail` | src/pages/AuctionDetail.tsx |
| `SubmitBike` | src/pages/SubmitBike.tsx |
| `Dropdown` | src/components/Dropdown.tsx |
| `Input` | src/components/Input.tsx |
| `Profile` | src/pages/Profile.tsx |

Four modules hold what those share:

- `Common`: an optional value, and the ASCII subset of `\s`, `trim`, `toLowerCase` and `toUpperCase`.
- `Decimal`: how a non-negative integer is written in a template literal or by `toString`.
- `Labels`: countdown labels such as "2h 5m 9s", with a reading of them back into fields.
- `Listings`: the listing record.

Pure expressions are functions and lemmas. Component state that event
handlers overwrite is a class whose methods are the handlers. Clock readings
and timer ticks are explicit parameters and method calls.

The countdown labels get their meaning from a parse-back reading:

- `Labels.ParseFields` reads a label back into (number, unit) fields.
- `Labels.Seconds` and `Labels.Units` say what those fields mean.
- The lemmas prove that every label reads back to the whole seconds left, exactly or, from a day on, to within a minute.

The same reading shows where the copies agree:

- The home page's copy of the countdown agrees with the listing card's for every duration.
- The auction page's copy agrees below one day and differs from one day on.

The code accepts no bids: the bid form only clears its input, and the
buy-now button has no handler.

The declared `Listing` type (src/types/Listing.ts) also disagrees with the
components: it has `askingPrice`, and it lacks the `status` and bid fields
that the components and their tests read. `Listings.Listing` is therefore
built from the fields the code reads.

## Model

| member | source | states |
|---|---|---|
| Common.Trim | src/pages/AuctionDetail.tsx:80-81 | `trim()` yields a slice of the input between a blank prefix and a blank suffix; it is empty exactly when the input is blank, and otherwise starts and ends with a non-whitespace character |
| Common.Lower | src/components/Input.tsx:9 | `toLowerCase()` keeps the length and lower-cases each character |
| Common.UpperChar | src/pages/Profile.tsx:154 | `toUpperCase()` on one character never yields a lower-case letter and changes nothing else |
| Decimal.NatToString | src/components/ListingCard.tsx:21-23 | a number in a template literal is a non-empty digit string with no leading zero unless it is "0" |
| Decimal.ReadBack | src/components/ListingCard.tsx:21-23 | the digits written for `n` read back as `n` |
| Decimal.Injective | src/components/ListingCard.tsx:21-23 | different numbers are written differently |
| Labels.RenderFields | src/components/ListingCard.tsx:21-23 | a label is its fields' numbers and unit letters joined by single spaces; its meaning is stated by the parse-back lemmas below |
| Labels.Units | src/components/ListingCard.tsx:21-23 | the unit letters of a label's fields, in order |
| Labels.ParseRender | src/components/ListingCard.tsx:21-23 | a label made of fields separated by single spaces reads back as exactly those fields |
| Labels.RenderStartsWithDigit | src/components/ListingCard.tsx:21-23 | a label starts with a digit, so it is never "Ended" |
| Labels.RenderAlphabet | src/components/ListingCard.tsx:21-23 | a character that is not a digit, a space or one of the units never occurs in a label |
| Labels.RenderHasUnit | src/components/ListingCard.tsx:21-23 | each field's unit letter occurs in the label |
| ListingCard.TimeRemaining | src/components/ListingCard.tsx:8-10 | the time left is never negative, and it is `endsAt - now` whenever the end is still ahead |
| ListingCard.TimeRemainingMonotone | src/components/ListingCard.tsx:8-10 | the time left never grows as the clock advances, and once zero it stays zero |
| ListingCard.Split | src/components/ListingCard.tsx:15-19 | days·86400 + hours·3600 + minutes·60 + seconds equals the whole seconds of `ms`, with hours < 24 and minutes, seconds < 60 |
| ListingCard.SplitUnique | src/components/ListingCard.tsx:15-19 | those bounds determine the split uniquely |
| ListingCard.CountdownFields | src/components/ListingCard.tsx:21-23 | the label always has at least one field, and every unit is a letter |
| ListingCard.FormatCountdown | src/components/ListingCard.tsx:12-24 | the label is "Ended" exactly when `ms <= 0` |
| ListingCard.CountdownFieldsMeaning | src/components/ListingCard.tsx:15-23 | the fields are canonical; they are "dhm" with the seconds dropped when there are days, "hms" when there are hours, and "ms" otherwise, each giving the duration they stand for |
| ListingCard.FormatCountdownMeaning | src/components/ListingCard.tsx:12-24 | a live label is the rendering of canonical fields, so no leading zeros, and reads back to them: from a day on "dhm", at most 59 s short of the seconds left; from an hour on "hms" and below an hour "ms", both exact |
| ListingCard.SubSecondIsNotEnded | src/components/ListingCard.tsx:13-23 | for 0 < ms < 1000 the label is "0m 0s", not "Ended" |
| ListingCard.IsExpiringSoon | src/components/ListingCard.tsx:45 | `isExpiringSoon`: more than 0 and less than one hour left; its meaning on the label is stated by `ExpiringSoonIffMinutesLabel` |
| ListingCard.ExpiringSoonIffMinutesLabel | src/components/ListingCard.tsx:45 | "expiring soon" holds exactly when the label is live and shows only minutes and seconds |
| ListingCard.HighBid | src/components/ListingCard.tsx:46 | the shown bid is the current bid when there is one, else the starting bid |
| ListingCard.Render | src/components/ListingCard.tsx:59-70 | the countdown is shown exactly for an "active" listing, with the label and the expiring flag; the ended banner is shown exactly for "ended" or "sold" |
| ListingCard.CountdownXorBanner | src/components/ListingCard.tsx:59-70 | the countdown and the banner never appear together, and any other status shows neither |
| ListingCard.ListingCardState.constructor | src/components/ListingCard.tsx:31-34 | the state starts at the time left at mount, and only an active listing starts the interval |
| ListingCard.ListingCardState.Tick | src/components/ListingCard.tsx:36-40 | a tick stores the time left at `now` and stops the interval at zero; it never raises the time left; a stopped interval changes nothing |
| Home.ExactlyOneButtonHighlighted | src/pages/Home.tsx:71-79 | every filter value has exactly one button, so exactly one button is highlighted |
| Home.KeepCategory | src/pages/Home.tsx:175 | the filter keeps only listings of the category, in their original order |
| Home.KeepCategoryCounts | src/pages/Home.tsx:175 | the filter keeps every listing of the category exactly as many times as the list has it, and no listing of another category |
| Home.KeepCategoryAppend | src/pages/Home.tsx:175 | filtering a concatenation is the concatenation of the filtered parts |
| Home.Filtered | src/pages/Home.tsx:173-175 | "all" shows the listings unchanged; a category shows only and all of its listings, in order |
| Home.RemainingMs | src/pages/Home.tsx:84 | the remaining time is `endsAt - now`, clamped at zero, the same as the listing card's `getTimeRemaining` |
| Home.CountdownHook.constructor | src/pages/Home.tsx:84 | `ms` starts at the remaining time at mount |
| Home.CountdownHook.Tick | src/pages/Home.tsx:86 | every tick stores the remaining time, and the interval never stops itself |
| Home.Countdown | src/pages/Home.tsx:92-103 | "Ended" exactly for `ms <= 0`; otherwise urgent exactly below one hour |
| Home.CountdownMatchesListingCard | src/pages/Home.tsx:92-103 | for every duration this page's countdown text is the card's `formatCountdown` text, and its urgent flag is the card's expiring flag |
| Home.CardBid | src/pages/Home.tsx:115 | the card's bid is the listing card's `highBid` |
| Home.BuyItNowAsWritten | src/pages/Home.tsx:157-161 | as written, no price renders nothing, a price of 0 renders the text "0", and any other price renders the buy-it-now line |
| Home.StrayZeroOnCard | src/pages/Home.tsx:157 | a price of 0 renders "0" as written, unlike the corrected line |
| Home.BuyItNow | src/pages/Home.tsx:157-161 | the line appears exactly for a present non-zero price, showing that price, and no stray text ever appears |
| Home.BuyItNowDiffersOnlyAtZero | src/pages/Home.tsx:157 | the corrected and written lines agree on every price except 0 |
| Home.Card | src/pages/Home.tsx:114-161 | the card as written shows the listing card's bid and countdown text, the buy-it-now line exactly for a present non-zero price, nothing for no price, and the text "0" for a price of 0 |
| Home.IntendedCard | src/pages/Home.tsx:157 | the corrected card never shows stray text, shows the buy-it-now line exactly for a present non-zero price, and equals the written card for every other price |
| Home.HomePage.constructor | src/pages/Home.tsx:171 | the page starts on "all", showing every listing |
| Home.HomePage.Visible | src/pages/Home.tsx:173-175 | the grid is always an order-preserving selection of the listings |
| Home.HomePage.ClickCategory | src/pages/Home.tsx:229-232 | clicking button `i` selects its value, and the grid becomes the listings filtered by that button's value |
| AuctionDetail.SplitHours | src/pages/AuctionDetail.tsx:36-39 | hours·3600 + minutes·60 + seconds equals the whole seconds, with minutes and seconds below 60 and the hours uncapped |
| AuctionDetail.Countdown | src/pages/AuctionDetail.tsx:32-44 | "Ended" exactly for `ms <= 0`; otherwise urgent exactly below one hour |
| AuctionDetail.HourFields | src/pages/AuctionDetail.tsx:41 | the label has at least one field, and every unit is a letter |
| AuctionDetail.HourFieldsMeaning | src/pages/AuctionDetail.tsx:36-41 | the fields are "hms" with hours and "ms" without, each giving the exact duration |
| AuctionDetail.CountdownMeaning | src/pages/AuctionDetail.tsx:32-44 | a live label is the rendering of the fields it reads back to, and reads back to exactly the whole seconds left: "hms" from an hour on, "ms" below |
| AuctionDetail.AgreesWithListingCardBelowOneDay | src/pages/AuctionDetail.tsx:36-41 | below one day the label and the urgent flag equal the listing card's |
| AuctionDetail.DisagreeFromOneDay | src/pages/AuctionDetail.tsx:36-41 | from one day on this page's text always differs from the card's |
| AuctionDetail.DisagreesAtOneDay | src/pages/AuctionDetail.tsx:36-41 | at exactly one day this page shows "24h 0m 0s" where the card shows "1d 0h 0m" |
| AuctionDetail.MakeBidForm | src/pages/AuctionDetail.tsx:259-270 | `minBid` is exactly 50 above the current bid; the shown minimum, the input's `min` and the placeholder's number are all that value |
| AuctionDetail.NewComment | src/pages/AuctionDetail.tsx:80-81 | a blank draft makes no entry; otherwise the entry is the trimmed draft, non-empty and without surrounding whitespace, by "you", "just now", with the clock reading as its id |
| AuctionDetail.AuctionDetailPage.constructor | src/pages/AuctionDetail.tsx:64-67 | the page starts on the first image, with empty fields and the initial comments |
| AuctionDetail.AuctionDetailPage.EditComment | src/pages/AuctionDetail.tsx:212 | typing sets the draft and nothing else |
| AuctionDetail.AuctionDetailPage.EditBidAmount | src/pages/AuctionDetail.tsx:268 | typing sets the amount and nothing else |
| AuctionDetail.AuctionDetailPage.ClickThumbnail | src/pages/AuctionDetail.tsx:113 | a thumbnail click selects that image and nothing else |
| AuctionDetail.AuctionDetailPage.HandleComment | src/pages/AuctionDetail.tsx:78-83 | a blank draft changes nothing; otherwise exactly one trimmed entry is appended after the unchanged earlier entries, and the draft is cleared |
| AuctionDetail.AuctionDetailPage.HandleBid | src/pages/AuctionDetail.tsx:73-76 | submitting a bid only clears the amount field; the bid, comments and everything else are unchanged |
| SubmitBike.Set | src/pages/SubmitBike.tsx:240-242 | `update(k, v)` sets field `k` to `v` and leaves every other field and the image list unchanged |
| SubmitBike.Extensionality | src/pages/SubmitBike.tsx:6-28 | a form record is determined by its sixteen text fields and its image list |
| SubmitBike.SetTwice | src/pages/SubmitBike.tsx:240-242 | a second update of a field overrides the first, and writing back a field's own value changes nothing |
| SubmitBike.Initial | src/pages/SubmitBike.tsx:30-35 | the initial form has every text field empty and no images |
| SubmitBike.Next | src/pages/SubmitBike.tsx:302-354 | Back is a no-op at step 0 and otherwise goes back one step; Continue goes forward one step only below the last step; Submit changes nothing; only an edit changes the record, and it changes no step |
| SubmitBike.RunStaysInRange | src/pages/SubmitBike.tsx:237 | from any step in 0..3, every sequence of events keeps the step in 0..3 |
| SubmitBike.ContinueClicks | src/pages/SubmitBike.tsx:321-324 | `n` clicks on Continue advance `n` steps, capped at the last step, and leave the record unchanged |
| SubmitBike.PanelsShown | src/pages/SubmitBike.tsx:294-297 | the four `step === i` conditions; what they show is stated by `ExactlyOnePanel` |
| SubmitBike.ExactlyOnePanel | src/pages/SubmitBike.tsx:294-297 | for a step in 0..3 exactly that step's panel is rendered; for any other value, none is |
| SubmitBike.StepMark | src/pages/SubmitBike.tsx:261-263 | indicator step `i` is done exactly when `i < step` and active exactly when `i = step`, so never both |
| SubmitBike.IndicatorGlyph | src/pages/SubmitBike.tsx:279 | a done step shows a tick; any other step shows its 1-based number |
| SubmitBike.IndicatorAtStep | src/pages/SubmitBike.tsx:261-263 | at a valid step, the earlier steps are done, that step alone is active, and the later ones are upcoming |
| SubmitBike.SubmitBikePage.constructor | src/pages/SubmitBike.tsx:237-238 | the wizard starts at step 0 with the initial form |
| SubmitBike.SubmitBikePage.Update | src/pages/SubmitBike.tsx:240-242 | an edit is the `Edit` event's effect, and it keeps the step in range |
| SubmitBike.SubmitBikePage.ClickBack | src/pages/SubmitBike.tsx:302-305 | a Back click is the `Back` event's effect, and it keeps the step in range |
| SubmitBike.SubmitBikePage.ClickContinue | src/pages/SubmitBike.tsx:321-324 | a Continue click is the `Continue` event's effect, and it keeps the step in range |
| SubmitBike.SubmitBikePage.HandleSubmit | src/pages/SubmitBike.tsx:244-246 | submitting changes no state |
| Dropdown.FindSelected | src/components/Dropdown.tsx:20 | the lookup finds the first option whose value equals `value`, or reports that none does |
| Dropdown.ButtonText | src/components/Dropdown.tsx:41 | the selected option's label, else the placeholder; its meaning is stated by `ButtonTextMeaning` |
| Dropdown.ButtonTextMeaning | src/components/Dropdown.tsx:41 | the button shows the label of the first option marked selected; with none marked, or no `value`, it shows the placeholder, by default "Select..." |
| Dropdown.AtMostOneMarked | src/components/Dropdown.tsx:49 | with distinct option values at most one option is `aria-selected` |
| Dropdown.ChosenOptionIsShown | src/components/Dropdown.tsx:50-53 | once the chosen option's value is passed back as `value`, the button shows that option's label (distinct values) |
| Dropdown.Render | src/components/Dropdown.tsx:32-62 | the listbox exists exactly while open and lists every option in order; each option is `aria-selected` exactly when its value is `value`; `aria-expanded` is `open` and the button's `disabled` is the prop |
| Dropdown.DropdownWidget.constructor | src/components/Dropdown.tsx:16-17 | `disabled` defaults to false, and the listbox starts closed |
| Dropdown.DropdownWidget.ClickButton | src/components/Dropdown.tsx:38-39 | a click toggles `open`; a disabled button ignores it |
| Dropdown.DropdownWidget.ClickOption | src/components/Dropdown.tsx:50-53 | choosing option `i` reports exactly its value to `onChange` and closes the listbox; without an open listbox nothing happens |
| Dropdown.DropdownWidget.MouseDown | src/components/Dropdown.tsx:23-26 | a press outside closes the listbox, and one inside leaves it as it is |
| Input.ReplaceSpaceRuns | src/components/Input.tsx:9 | the result has no whitespace and is no longer than the input |
| Input.NoUpperKept | src/components/Input.tsx:9 | the replacement adds no upper-case letter |
| Input.KeepsWordChar | src/components/Input.tsx:9 | a character that is not whitespace is kept in front of the rewritten rest |
| Input.WordKept | src/components/Input.tsx:9 | a word without whitespace is kept as it is in front of any text |
| Input.SpaceFreeUnchanged | src/components/Input.tsx:9 | input without whitespace is left as it is |
| Input.RunBecomesDash | src/components/Input.tsx:9 | a leading whitespace run of any length becomes one "-" |
| Input.WordRunRest | src/components/Input.tsx:9 | a word, then a whitespace run, then the rest: the word is kept, the run becomes one "-", and the rest is rewritten on its own |
| Input.LowerKeepsSpaces | src/components/Input.tsx:9 | lower-casing keeps whitespace where it was |
| Input.InputId | src/components/Input.tsx:9 | a given `id` always wins, even an empty one; else a given label yields its lower-cased, dash-joined form, with no whitespace and no capitals; with neither the id is absent |
| Input.SingleWordId | src/components/Input.tsx:9 | a label without whitespace gives the id that is just the label lower-cased |
| Input.Render | src/components/Input.tsx:13-20 | the label element appears exactly for a non-empty label and points at the input's id, which then exists; `aria-invalid`, the alert and `aria-describedby` appear exactly for a non-empty error, and `aria-describedby` names the alert |
| Input.ErrorWithoutId | src/components/Input.tsx:18-20 | with neither id nor label, an error's alert id and `aria-describedby` are both "undefined-error" |
| Profile.LocalPart | src/pages/Profile.tsx:153 | `split("@")[0]` is the prefix of the email before its first "@", or the whole email when it has none |
| Profile.LocalPartOf | src/pages/Profile.tsx:153 | a name without "@" is its own local part, and whatever follows the first "@" does not change it |
| Profile.DisplayNameAsWritten | src/pages/Profile.tsx:153 | the name is "rider" when there is no user or no email, and otherwise the email's local part, which may be empty |
| Profile.AvatarLetterAsWritten | src/pages/Profile.tsx:154 | the letter is the upper-cased first character, and there is none (the call throws) exactly for an empty name |
| Profile.AvatarFailsIff | src/pages/Profile.tsx:153-154 | the page throws exactly for a signed-in user whose email is empty or starts with "@" |
| Profile.EmptyLocalPartFails | src/pages/Profile.tsx:154 | the email "@example.com" makes the header throw |
| Profile.MakeHeader | src/pages/Profile.tsx:153-154 | the corrected header's name is never empty, and its avatar is that name's upper-cased first letter; it agrees with the written code wherever that does not throw |
| Profile.Tabs | src/pages/Profile.tsx:143-148 | four tabs in fixed order, each counting exactly the length of its list |
| Profile.Badge | src/pages/Profile.tsx:220-228 | a tab shows a badge exactly when its count is positive, and the badge shows the count |
| Profile.BidStatusLabel | src/pages/Profile.tsx:108 | an active bid is labelled "Leading" exactly when its flag is set, else "Outbid" |
| Profile.UrgentIffExpiringSoon | src/pages/Profile.tsx:113 | the `endsIn` highlight test applied to a card countdown label holds exactly when the card calls the auction expiring soon |
| Profile.ActiveRows | src/pages/Profile.tsx:99-122 | one row per active bid, in order; "Leading" exactly for leading bids; highlighted exactly when `endsIn` has "m" and no "h" |
| Profile.TabPanel | src/pages/Profile.tsx:66-139 | each tab shows its empty state exactly when its list is empty, and otherwise its list; the active-bids tab shows exactly the rows of `ActiveRows` |
| Profile.PanelSlots | src/pages/Profile.tsx:236-239 | the four `activeTab === i` slots; what they show is stated by `OnePanelShown` |
| Profile.EndsInUrgent | src/pages/Profile.tsx:113 | the highlight test on `endsIn`; its meaning on card labels is stated by `UrgentIffExpiringSoon` |
| Profile.ProfilePage.Heading | src/pages/Profile.tsx:235 | the section heading is the label of the selected tab |
| Profile.OnePanelShown | src/pages/Profile.tsx:235-239 | for a tab in range exactly that tab's panel is rendered |
| Profile.ProfilePage.constructor | src/pages/Profile.tsx:152 | the page opens on the first tab |
| Profile.ProfilePage.ClickTab | src/pages/Profile.tsx:201-204 | clicking tab `i` selects it; there is no tab past the fourth, so the selection stays in range |

## Left out

- Timers and the clock: `setInterval`, `clearInterval` and `Date.now` are not modelled. The clock reading is a parameter, and each interval tick is a call to a `Tick` method.
- Effect lifecycle: unmount cleanup is not modelled. Neither is the restart of an effect when `auctionEndsAt`, `status` or `endsAt` change while mounted.
- The auction page's end time: it is recomputed from the clock on every render (src/pages/AuctionDetail.tsx:68). The model's countdown takes a duration instead.
- Locale formatting: `toLocaleString` and `toLocaleDateString` are not modelled. Prices and dates they format are kept as numbers.
- Floating point: milliseconds are integers, as `Date.getTime` returns. Wheel sizes and weights are form text.
- Auth.tsx is not part of this model. It consists of calls to a hosted authentication service and navigation.
- App routing, Nav, Button, Modal, the theme, inline styles and layout are pure presentation.
- The mock listings, comments and profile histories are not modelled. The model takes those lists as parameters.
- Bid placement, a bid ledger, auction lifecycle transitions and buy-now purchase are not in the code, so none of them is modelled.
- The wizard's step panels are not modelled, beyond each input calling `update(key, value)` (the `Edit` event). Nothing in the source ever changes `images`.
- Props passed through unchanged to `<input>` (`...props`), and the auction page's route `id`, are not modelled.
- Common.Trim: `\s` and `trim` are limited to ASCII whitespace (space, tab, LF, CR, VT, FF). Unicode spaces such as U+00A0 and U+2028 are not covered.
- Input.ReplaceSpaceRuns: limited to the same ASCII whitespace as `Common.Trim`.
- Common.Lower: `toLowerCase` is modelled on ASCII letters only.
- Common.UpperChar: `toUpperCase` is modelled on ASCII letters only.
- Decimal.NatToString: writes only non-negative integers. Those are the only numbers the modelled labels, placeholders and ids contain.
- Dropdown.DropdownWidget.ClickOption: `onChange` is modelled as the method's result. The parent feeding the value back is stated separately by `Dropdown.ChosenOptionIsShown`.
- Dropdown.DropdownWidget.ClickButton: a disabled button is modelled as ignoring clicks, as browsers do.
- SubmitBike.SubmitBikePage.ClickBack: the disabled Back button at step 0 is modelled the same way.
- SubmitBike.SubmitBikePage.ClickContinue: a Continue click can only happen while the button is rendered.

## Findings

| source | as written | input that shows it | evidently intended | confidence | as-written member | corrected member |
|---|---|---|---|---|---|---|
| src/pages/Profile.tsx:153-154 | `split("@")[0] ?? "rider"` keeps an empty local part, since `??` only replaces `null`/`undefined`. `displayName[0].toUpperCase()` then calls a method on `undefined` and throws. | a signed-in user whose email is "@example.com" (or "") | `split("@")[0]` falling back to "rider" with the logical or, which also replaces an empty string, so the header always has a name and a letter | medium, not executed | Profile.EmptyLocalPartFails | Profile.MakeHeader |
| src/pages/Home.tsx:157 | `{listing.buyItNowPrice && (...)}` renders the number itself when it is falsy, so the card shows a stray "0" | a listing whose `buyItNowPrice` is 0 | show the buy-it-now line only for a present, non-zero price, and otherwise nothing | low, not executed | Home.StrayZeroOnCard | Home.BuyItNow |
