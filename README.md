# CreditConsolidator in Dafny

CreditConsolidator is a credit-card payment dashboard written in React. It
comes with a small marketing site that has a contact form. This project models the parts
of both that compute something:

- the card store (`CardContext`) and its primary allocator `distributeAmount`. The allocator
  covers minimum dues in due-date order, then spreads the rest in proportion to what each
  card still owes, and rounds every share to cents;
- the second allocator on the payment page (`MakePaymentPage`). It pays minimum dues in the
  store's order, then fills the largest balances first. The page also has the per-card
  amount editor, the payment request it hands to the store, and the state it starts with;
- the cards page (`CardsPage`): the search, the card-number formatter and the add-card form;
- the payment history page (`PaymentHistoryPage`): the search, card and date filters, the
  card toggle, clearing, and the filter count;
- the dashboard (`Dashboard`): the total due, the pay-all distribution, the two-card preview,
  and the in-place due-date sort with its top three;
- the dues summary panel (`DuesSummary`): the totals, the sorted copy and the chart arrays;
- the demo data generators and the days-remaining arithmetic (`mockData`), and the status
  colour of a card tile (`CreditCardUI`);
- the contact form (`contact.js`): digit stripping, the email pattern, and Send.

Representation:

- **Money** is a Dafny `real`, that is, exact rational arithmetic. `Math.round(x)` is
  `floor(x + 0.5)` (`JsNumber.Round`), and `Math.round(x * 100) / 100` is `JsNumber.RoundCents`.
- **Dates** are the millisecond timestamps `new Date(s).getTime()` gives. The current time and
  today's date are parameters. An empty date field is `None`.
- **`Math.random()` and `Date.now()`** are parameters. A random draw lies in [0, 1).
- **A JavaScript object** used as a dictionary (`{ [cardId]: amount }`) is an association list
  in insertion order (module `Dict`). JavaScript lists integer-like keys such as `"0"` or `"42"`
  first, in ascending order, and only then the other keys in insertion order. Every key here is
  a `card-…` id, which is not integer-like, so `Object.keys` and `Object.entries` walk the
  keys in insertion order.
- **Strings** are `seq<char>`. `toLowerCase` is ASCII case folding.

The store and the pages with state are classes:

- `CardStore.CardStore` has fields `user`, `cards`, `payments` and `loading`;
- `CardsPage.Page`, `MakePayment.PaymentPage` and `Contact.ContactForm` hold their page's state.

Each loop of the source is a method with a `while` loop. The method is proved equal to a
recursive specification function, and the properties are proved about that function. The
dashboard's `cards.sort(...)` reorders the store's own array. It is modelled as an insertion
sort on an `array<Card>`, proved to produce a due-date ordered permutation.

Behaviour worth noting:

- `distributeAmount` with an amount of 0 or less returns an empty object
  (`Allocation.UnroundedNothing`).
- The consolidated handler of the payment page gives every card an entry, 0 when there is
  nothing to pay (`MakePayment.SplitZeroes`).
- Phase 1 of the primary allocator gives no entry at all to cards it reaches after the money
  is gone (`Allocation.CoverEntry`).

## Model

| member | source | states |
|---|---|---|
| Cards.Merge | Desktop/CreditConsolidator-feature-addHovercard-settingPage/src/context/CardContext.tsx:53 | `{ ...card, ...updates }`: each field the update carries replaces the card's, the others are kept |
| Cards.TotalDue | Desktop/CreditConsolidator-feature-addHovercard-settingPage/src/components/ui/DuesSummary.tsx:15 | the sum of the cards' total dues, from 0 |
| Cards.TotalMinimumDue | Desktop/CreditConsolidator-feature-addHovercard-settingPage/src/components/ui/DuesSummary.tsx:16 | the sum of the cards' minimum dues, from 0 |
| Cards.SortByDueDate | Desktop/CreditConsolidator-feature-addHovercard-settingPage/src/context/CardContext.tsx:92-94 | a copy of the cards sorted by due date, earliest first |
| Cards.Find | src/pages/MakePaymentPage.tsx:114 | `cards.find` by id: the card found is the first in the list with that id; nothing is found exactly when no card has the id |
| Cards.SortBy | Desktop/CreditConsolidator-feature-addHovercard-settingPage/src/context/CardContext.tsx:92-94 | sorting a copy by a numeric key gives a permutation of the same length, ordered by the key |
| Cards.SortByDueDateFacts | Desktop/CreditConsolidator-feature-addHovercard-settingPage/src/components/ui/DuesSummary.tsx:19-21 | the due-date sort is a permutation of the cards, of the same length, earliest due first |
| Cards.PermutationKeeps | Desktop/CreditConsolidator-feature-addHovercard-settingPage/src/components/ui/DuesSummary.tsx:19 | a reordering keeps membership, length, the 0 <= minimumDue <= totalDue relation and both due sums |
| Cards.PermutationKeepsDistinctIds | src/utils/mockData.ts:66-68 | a reordering of cards with distinct ids still has distinct ids |
| Cards.DueSumsOrdered | Desktop/CreditConsolidator-feature-addHovercard-settingPage/src/components/ui/DuesSummary.tsx:15-16 | when every card has 0 <= minimumDue <= totalDue, the minimum-due total lies between 0 and the total due |
| Cards.SlackSum | Desktop/CreditConsolidator-feature-addHovercard-settingPage/src/context/CardContext.tsx:111-113 | the sum of totalDue - minimumDue is the total due less the minimum-due total |
| Allocation.Distribution | Desktop/CreditConsolidator-feature-addHovercard-settingPage/src/context/CardContext.tsx:87-134 | the value `distributeAmount` returns: both phases over the due-date copy, then each entry rounded to cents |
| Allocation.Unrounded | Desktop/CreditConsolidator-feature-addHovercard-settingPage/src/context/CardContext.tsx:87-126 | the dictionary before the rounding loop: both phases over the due-date ordered copy of the cards |
| Allocation.Phases | Desktop/CreditConsolidator-feature-addHovercard-settingPage/src/context/CardContext.tsx:96-126 | phase 1 over the ordered cards, then phase 2 over the cards still owing, only while money remains |
| Allocation.CoverMinimums | Desktop/CreditConsolidator-feature-addHovercard-settingPage/src/context/CardContext.tsx:97-103 | the phase-1 walk: a card reached while money remains gets min(minimumDue, what is left), and a card reached after that gets no entry |
| Allocation.SpreadRemainder | Desktop/CreditConsolidator-feature-addHovercard-settingPage/src/context/CardContext.tsx:115-125 | the phase-2 walk: each owing card gains min(leftover · its remaining due / total remaining due, its remaining due), with the pool never decremented |
| Allocation.WithRemainingDue | Desktop/CreditConsolidator-feature-addHovercard-settingPage/src/context/CardContext.tsx:107-109 | phase 2 considers exactly the cards whose total due exceeds what phase 1 gave them |
| Allocation.RemainingDuePositive | Desktop/CreditConsolidator-feature-addHovercard-settingPage/src/context/CardContext.tsx:106-118 | the divisor `totalRemainingDue` is positive whenever some card still owes, so phase 2 never divides by zero |
| Allocation.CoverSkip | Desktop/CreditConsolidator-feature-addHovercard-settingPage/src/context/CardContext.tsx:97-98 | once the money is gone, the rest of phase 1 changes nothing |
| Allocation.CoverLeftover | Desktop/CreditConsolidator-feature-addHovercard-settingPage/src/context/CardContext.tsx:97-103 | after phase 1 what is left is the amount less all minimum dues, or nothing |
| Allocation.CoverEntry | Desktop/CreditConsolidator-feature-addHovercard-settingPage/src/context/CardContext.tsx:97-103 | card j of the walk has an entry exactly when the amount exceeds the minimum dues before it, and then receives its minimum due or what is left, whichever is smaller |
| Allocation.CoverSum | Desktop/CreditConsolidator-feature-addHovercard-settingPage/src/context/CardContext.tsx:97-103 | phase 1 hands out the smaller of the amount and the sum of the minimum dues |
| Allocation.SpreadValues | Desktop/CreditConsolidator-feature-addHovercard-settingPage/src/context/CardContext.tsx:115-125 | each card of phase 2 ends with what it had plus its capped proportional share of the pool |
| Allocation.SlackSharesSum | Desktop/CreditConsolidator-feature-addHovercard-settingPage/src/context/CardContext.tsx:115-125 | the capped proportional shares add up to the leftover, or to the whole remaining due when the leftover exceeds it, although the pool is never decremented |
| Allocation.UnroundedAboveMinimums | Desktop/CreditConsolidator-feature-addHovercard-settingPage/src/context/CardContext.tsx:97-126 | above the sum of the minimum dues, every card gets its minimum due plus its capped proportional share of the rest |
| Allocation.UnroundedWithinMinimums | Desktop/CreditConsolidator-feature-addHovercard-settingPage/src/context/CardContext.tsx:92-106 | up to the sum of the minimum dues, card j in due-date order has an entry exactly when money remains after the earlier minimum dues, and receives its minimum due or what is left |
| Allocation.UnroundedNothing | Desktop/CreditConsolidator-feature-addHovercard-settingPage/src/context/CardContext.tsx:97-106 | an amount of 0 or less gives an empty distribution, before and after rounding |
| Allocation.EarlierDueFirst | Desktop/CreditConsolidator-feature-addHovercard-settingPage/src/context/CardContext.tsx:92-103 | if a later-due card has an entry, every earlier-due card received at least its minimum due |
| Allocation.UnroundedBounds | Desktop/CreditConsolidator-feature-addHovercard-settingPage/src/context/CardContext.tsx:116-124 | no card is allotted less than 0 or more than its total due |
| Allocation.UnroundedTotal | Desktop/CreditConsolidator-feature-addHovercard-settingPage/src/context/CardContext.tsx:97-126 | the cards together receive min(max(amount, 0), total due) |
| Allocation.UnroundedPaysInFull | Desktop/CreditConsolidator-feature-addHovercard-settingPage/src/context/CardContext.tsx:116-124 | an amount covering the total due pays every card exactly its total due |
| Allocation.UnroundedKeys | Desktop/CreditConsolidator-feature-addHovercard-settingPage/src/context/CardContext.tsx:96-124 | only ids of the store's cards appear in the distribution |
| Allocation.DistributionRounded | Desktop/CreditConsolidator-feature-addHovercard-settingPage/src/context/CardContext.tsx:128-131 | the result has the same keys as the unrounded one, each value is `RoundCents` of the unrounded value, and it is off by at most half a cent |
| Allocation.DistributionPaysInFull | Desktop/CreditConsolidator-feature-addHovercard-settingPage/src/context/CardContext.tsx:116-131 | with whole-cent balances, an amount covering the total due pays every card exactly its total due after rounding too |
| Allocation.DistributionTotal | Desktop/CreditConsolidator-feature-addHovercard-settingPage/src/context/CardContext.tsx:128-131 | after rounding, the total is within half a cent per card of min(max(amount, 0), total due) |
| CardStore.NewCard | Desktop/CreditConsolidator-feature-addHovercard-settingPage/src/context/CardContext.tsx:42-46 | the added card: the form's fields with the given id and the user's id |
| CardStore.RemovedCards | Desktop/CreditConsolidator-feature-addHovercard-settingPage/src/context/CardContext.tsx:58 | the cards whose id differs from the given one, in their order |
| CardStore.PaidUpdate | Desktop/CreditConsolidator-feature-addHovercard-settingPage/src/context/CardContext.tsx:78-81 | the update a paid item applies: totalDue less the amount, and minimumDue less the amount floored at 0, both read from the snapshot card |
| CardStore.UpdatedCards | Desktop/CreditConsolidator-feature-addHovercard-settingPage/src/context/CardContext.tsx:51-55 | `updateCard` keeps the number of cards |
| CardStore.UpdatedCardsFacts | Desktop/CreditConsolidator-feature-addHovercard-settingPage/src/context/CardContext.tsx:51-55 | cards with another id are unchanged; cards with the id take every field the update carries and keep the rest |
| CardStore.UpdatedCardsIdempotent | Desktop/CreditConsolidator-feature-addHovercard-settingPage/src/context/CardContext.tsx:51-55 | the same update applied twice is applied once; an unknown id changes nothing |
| CardStore.UpdatedCardsKeepIds | Desktop/CreditConsolidator-feature-addHovercard-settingPage/src/context/CardContext.tsx:51-55 | an update that does not set the id keeps every id, so distinct ids stay distinct |
| CardStore.RemovedCardsFacts | Desktop/CreditConsolidator-feature-addHovercard-settingPage/src/context/CardContext.tsx:57-59 | `removeCard` keeps the other cards in order, drops exactly the cards with the id, and an unknown id changes nothing |
| CardStore.RemovedCardsWellFormed | Desktop/CreditConsolidator-feature-addHovercard-settingPage/src/context/CardContext.tsx:57-59 | removal keeps distinct ids and consistent dues |
| CardStore.PaidUpdateConsistent | Desktop/CreditConsolidator-feature-addHovercard-settingPage/src/context/CardContext.tsx:78-81 | paying at most the total due leaves 0 <= minimumDue <= totalDue and lowers the total due by the amount |
| CardStore.Settle | Desktop/CreditConsolidator-feature-addHovercard-settingPage/src/context/CardContext.tsx:77-82 | settling the paid items keeps the number of cards |
| CardStore.AmountFor | Desktop/CreditConsolidator-feature-addHovercard-settingPage/src/context/CardContext.tsx:77 | the amount found for an id is that of the first item naming the id; none is found when no item names the id |
| CardStore.SettleFails | Desktop/CreditConsolidator-feature-addHovercard-settingPage/src/context/CardContext.tsx:79-80 | settling stops early exactly when some item names a card the snapshot lacks (reading `.totalDue` of the `undefined` lookup result throws a TypeError) |
| CardStore.SettleBalances | Desktop/CreditConsolidator-feature-addHovercard-settingPage/src/context/CardContext.tsx:77-82 | with distinct known ids, each paid card ends with its snapshot total due less the amount and its minimum due less the amount, floored at 0; every other card is untouched |
| CardStore.ReceiptFor | Desktop/CreditConsolidator-feature-addHovercard-settingPage/src/context/CardContext.tsx:66-73 | the recorded payment is completed, belongs to the user, is dated now, and carries the request's items and total |
| CardStore.CardStore.constructor | Desktop/CreditConsolidator-feature-addHovercard-settingPage/src/context/CardContext.tsx:20-23 | the store starts with no cards or payments, loading |
| CardStore.CardStore.SetUser | Desktop/CreditConsolidator-feature-addHovercard-settingPage/src/context/CardContext.tsx:25-37 | a user gets the demo cards and payments, no user an empty store; loading ends |
| CardStore.CardStore.AddCard | Desktop/CreditConsolidator-feature-addHovercard-settingPage/src/context/CardContext.tsx:39-49 | without a user nothing changes; otherwise one card with id `card-<now>` and the user's id is appended |
| CardStore.CardStore.UpdateCard | Desktop/CreditConsolidator-feature-addHovercard-settingPage/src/context/CardContext.tsx:51-55 | the cards become `UpdatedCards` of the old cards; nothing else changes |
| CardStore.CardStore.RemoveCard | Desktop/CreditConsolidator-feature-addHovercard-settingPage/src/context/CardContext.tsx:57-59 | the cards become `RemovedCards` of the old cards; nothing else changes |
| CardStore.CardStore.MakePayment | Desktop/CreditConsolidator-feature-addHovercard-settingPage/src/context/CardContext.tsx:61-85 | without a user it fails and changes nothing; otherwise the completed payment is prepended and the paid cards are settled against the call-time snapshot, failing exactly when an id is unknown |
| CardStore.CardStore.DistributeAmount | Desktop/CreditConsolidator-feature-addHovercard-settingPage/src/context/CardContext.tsx:87-134 | the loops return `Distribution(cards, amount)`, the function the allocation lemmas are about |
| CardStore.CoverMinimumsLoop | Desktop/CreditConsolidator-feature-addHovercard-settingPage/src/context/CardContext.tsx:97-103 | the phase-1 loop computes `CoverMinimums` and builds distinct keys |
| CardStore.SpreadRemainderLoop | Desktop/CreditConsolidator-feature-addHovercard-settingPage/src/context/CardContext.tsx:115-125 | the phase-2 loop computes `SpreadRemainder` and keeps the keys distinct |
| CardStore.RoundLoop | Desktop/CreditConsolidator-feature-addHovercard-settingPage/src/context/CardContext.tsx:129-131 | the rounding loop over `Object.keys` rounds every value in place |
| MakePayment.ConsolidatedSplit | src/pages/MakePaymentPage.tsx:73-103 | the entries the consolidated handler sets: all zero for an amount of 0 or less, otherwise phase 1 in store order then phase 2 over the largest-balance copy |
| MakePayment.ZeroOut | src/pages/MakePaymentPage.tsx:75-76 | every card's entry set to 0, in store order |
| MakePayment.PayMinimums | src/pages/MakePaymentPage.tsx:82-88 | each card in store order gets min(minimumDue, what is left), with no guard, and the leftover drops by it |
| MakePayment.PayLargest | src/pages/MakePaymentPage.tsx:94-101 | while money remains, each card in turn is topped up by min(totalDue − its entry, what is left) |
| MakePayment.ByLargestBalance | src/pages/MakePaymentPage.tsx:91-93 | a copy of the cards sorted by total due, largest first |
| MakePayment.AmountOrZero | src/pages/MakePaymentPage.tsx:70 | `parseFloat(value) \|\| 0`: an unparseable input reads as 0 |
| MakePayment.ConsolidatedSplitLoop | src/pages/MakePaymentPage.tsx:73-103 | the handler's loops compute `ConsolidatedSplit`, the function the split lemmas are about |
| MakePayment.ZeroOutLoop | src/pages/MakePaymentPage.tsx:75-77 | the zeroing loop computes `ZeroOut` |
| MakePayment.MinimumsLoop | src/pages/MakePaymentPage.tsx:82-88 | the phase-1 loop computes `PayMinimums` |
| MakePayment.LargestLoop | src/pages/MakePaymentPage.tsx:94-101 | the phase-2 loop over the sorted copy computes `PayLargest` |
| MakePayment.ZeroOutFacts | src/pages/MakePaymentPage.tsx:75-76 | every card gets an entry and every value is 0 |
| MakePayment.MinimumsLeft | src/pages/MakePaymentPage.tsx:82-88 | after phase 1 what is left is the amount less all minimum dues, or nothing; it never goes negative |
| MakePayment.MinimumsEntry | src/pages/MakePaymentPage.tsx:84-88 | card j gets an entry, its minimum due or what the cards before it left, whichever is smaller |
| MakePayment.MinimumsKeys | src/pages/MakePaymentPage.tsx:84-88 | phase 1 appends one entry per card, in the store's order, to the keys already there |
| MakePayment.MinimumsSum | src/pages/MakePaymentPage.tsx:84-88 | phase 1 moves money from `remaining` into the entries |
| MakePayment.LargestLeft | src/pages/MakePaymentPage.tsx:94-101 | after phase 2 what is left is what phase 1 left less what the cards still owed, or nothing |
| MakePayment.LargestEntry | src/pages/MakePaymentPage.tsx:94-101 | card j of the largest-first walk ends with its minimum due plus what it still owed or what the earlier cards left, whichever is smaller |
| MakePayment.LargestSum | src/pages/MakePaymentPage.tsx:94-101 | phase 2 moves money from `remaining` into the entries |
| MakePayment.LargestKeys | src/pages/MakePaymentPage.tsx:96-99 | phase 2 creates no new entry when every card it visits already has one |
| MakePayment.ByLargestBalanceFacts | src/pages/MakePaymentPage.tsx:91-93 | the sorted copy is a well-formed permutation of the cards, largest total due first, with the same sums |
| MakePayment.MinimumsAllPaid | src/pages/MakePaymentPage.tsx:82-88 | with more than the minimum dues together, phase 1 pays every minimum due in full |
| MakePayment.SplitKeys | src/pages/MakePaymentPage.tsx:73-103 | the split has exactly one entry per card, keyed in the store's order, with distinct keys |
| MakePayment.SplitZeroes | src/pages/MakePaymentPage.tsx:73-79 | an amount of 0 or less gives every card an entry of 0 |
| MakePayment.SplitWithinMinimums | src/pages/MakePaymentPage.tsx:82-101 | up to the sum of the minimum dues, card j in the store's order receives its minimum due or what the earlier cards left |
| MakePayment.SplitAboveMinimums | src/pages/MakePaymentPage.tsx:82-101 | above the minimum dues, card j of the largest-first order receives its minimum due plus what it still owes or what the larger cards left, whichever is smaller |
| MakePayment.SplitBoundsAt | src/pages/MakePaymentPage.tsx:82-101 | every entry lies between 0 and the card's total due, and up to the minimum dues it is at most the minimum due |
| MakePayment.SplitTotal | src/pages/MakePaymentPage.tsx:73-101 | the entries add up to min(max(amount, 0), total due) |
| MakePayment.SplitLeft | src/pages/MakePaymentPage.tsx:73-101 | for a positive amount the part left unassigned after both phases is what exceeds the total due, or nothing |
| MakePayment.SplitLargestFirst | src/pages/MakePaymentPage.tsx:91-101 | a card gets more than its minimum due only if every card before it in the sorted copy has a total due at least as large and is paid in full |
| MakePayment.SplitPaysInFull | src/pages/MakePaymentPage.tsx:82-101 | an amount covering the total due pays every card exactly its total due |
| MakePayment.ClampedAmount | src/pages/MakePaymentPage.tsx:111-116 | for a known card the edited amount is clamped to [0, totalDue]: kept when in range, totalDue when above it, 0 when negative (for a non-negative totalDue); an unknown card gets 0 for every amount |
| MakePayment.PaymentItems | src/pages/MakePaymentPage.tsx:131-133 | the items, read back as entries, are the positive entries of the dictionary in its order and with their multiplicity (a subsequence of the entries) |
| MakePayment.PaymentData | src/pages/MakePaymentPage.tsx:126-136 | no request for a total of 0 or less; otherwise the total is passed through unchanged, the method is `bank_transfer`, and the items are the positive entries in the dictionary's order |
| MakePayment.PaymentItemsTotal | src/pages/MakePaymentPage.tsx:131-133 | without negative entries, the items add up to the sum of all entries |
| MakePayment.ConsolidatedRequest | src/pages/MakePaymentPage.tsx:69-136 | after a consolidated amount, the request's total is the typed amount, while its items add up to min(amount, total due) |
| MakePayment.IndividualEdit | src/pages/MakePaymentPage.tsx:116-123 | an edit sets only the edited card's entry, and the total moves by that entry's change |
| MakePayment.PaymentPage.constructor | src/pages/MakePaymentPage.tsx:11-13 | the page starts on the consolidated tab with total 0 and no entries |
| MakePayment.PaymentPage.Initialize | src/pages/MakePaymentPage.tsx:17-47 | a selected known card gets its minimum due as the only entry and the total; an automatic distribution is taken over with its sum as the total; without state every card starts at 0 |
| MakePayment.PaymentPage.ConsolidatedAmountChange | src/pages/MakePaymentPage.tsx:69-104 | the parsed amount (unparseable is 0) becomes the total and the split becomes the entries |
| MakePayment.PaymentPage.IndividualAmountChange | src/pages/MakePaymentPage.tsx:110-124 | the edited card's entry becomes the clamped amount and the total becomes the sum of all entries |
| MakePayment.PaymentPage.ProceedRequest | src/pages/MakePaymentPage.tsx:126-136 | there is a request exactly when the total is positive; it carries that total, the method `bank_transfer`, and as items the page's positive entries in their order |
| CardsPage.SearchHit | src/pages/CardsPage.tsx:29-31 | the card name or the bank name, lowercased, contains the lowercased term |
| CardsPage.FormattedCardNumber | src/pages/CardsPage.tsx:69-84 | the first run of 4 to 16 digits of the input, in groups of 4 joined by spaces, or the input itself when there is no such run |
| CardsPage.Incomplete | src/pages/CardsPage.tsx:36-43 | the add-card guard: a required text field or the due date is empty, or the total due is 0 |
| CardsPage.FilteredCards | src/pages/CardsPage.tsx:28-32 | the search keeps, in order, exactly the cards whose name or bank contains the term, ignoring case |
| CardsPage.SearchEmptyKeepsAll | src/pages/CardsPage.tsx:28-32 | an empty term keeps every card in order |
| CardsPage.FormatCardNumber | src/pages/CardsPage.tsx:69-84 | the loop stepping by 4 computes `FormattedCardNumber` |
| CardsPage.ChunksGroups | src/pages/CardsPage.tsx:75-77 | the pieces are groups of 4 digits, the last of 1 to 4, that spell the run out again |
| CardsPage.FormattedShape | src/pages/CardsPage.tsx:69-84 | with fewer than 4 digits the input comes back unchanged; otherwise the output is the first min(16, n) digits in groups of 4 joined by single spaces, only digits and spaces, at most 19 characters |
| CardsPage.FormatIdempotent | src/pages/CardsPage.tsx:69-84 | formatting a formatted value changes nothing |
| CardsPage.MinimumDueOrDefault | src/pages/CardsPage.tsx:51 | an entered minimum due is kept; a missing one is 5% of the total due rounded to a whole number |
| CardsPage.DefaultMinimumConsistent | src/pages/CardsPage.tsx:51 | the default minimum due of a non-negative total due lies between 0 and the total due |
| CardsPage.Details | src/pages/CardsPage.tsx:49-52 | the store receives the form's fields with the defaulted minimum due |
| CardsPage.Page.constructor | src/pages/CardsPage.tsx:11-22 | the page starts with an empty term, the form closed and blank |
| CardsPage.Page.Visible | src/pages/CardsPage.tsx:28-32 | the cards on show are, in order, exactly those the current term hits |
| CardsPage.Page.HandleCardNumberChange | src/pages/CardsPage.tsx:86-89 | the number field takes the formatted input; everything else stays |
| CardsPage.Page.HandleAddCard | src/pages/CardsPage.tsx:34-66 | an incomplete form changes nothing; a complete one is added through the store with the defaulted minimum due, and the form is reset and closed |
| PaymentHistory.Keeps | src/pages/PaymentHistoryPage.tsx:17-46 | the filter callback: the search on the id or the receipt id, the card overlap, and the two date bounds, each guard failing drops the payment |
| PaymentHistory.ToggleCard | src/pages/PaymentHistoryPage.tsx:52-58 | the filters with only the selection toggled |
| PaymentHistory.ClearFilters | src/pages/PaymentHistoryPage.tsx:60-64 | the filters with no selected card, no date bounds and the panel closed, the search term kept |
| PaymentHistory.CardIdsOf | src/pages/PaymentHistoryPage.tsx:31 | the ids of a payment's items, one per item, in order |
| PaymentHistory.SomeIncluded | src/pages/PaymentHistoryPage.tsx:32 | true exactly when some selected id is among the ids |
| PaymentHistory.FilteredPayments | src/pages/PaymentHistoryPage.tsx:17-46 | the filter keeps, in order, exactly the payments it accepts, so the result is a subsequence |
| PaymentHistory.KeepsExactly | src/pages/PaymentHistoryPage.tsx:17-46 | a payment is kept iff its id or receipt contains the term (without a receipt only the id counts), it covers a selected card when cards are selected, and its date lies within both bounds inclusive |
| PaymentHistory.NoFiltersKeepAll | src/pages/PaymentHistoryPage.tsx:17-46 | with no term, no selected card and no bounds every payment is kept, in order |
| PaymentHistory.Toggled | src/pages/PaymentHistoryPage.tsx:52-58 | toggling flips the card's membership and leaves every other id's membership as it was; an unselected id is appended to the selection, a selected one is removed with the rest kept in order |
| PaymentHistory.ToggledDistinct | src/pages/PaymentHistoryPage.tsx:52-58 | a selection without duplicates stays without duplicates, one longer after selecting and one shorter after deselecting |
| PaymentHistory.ToggleTwice | src/pages/PaymentHistoryPage.tsx:52-58 | toggling an unselected card twice restores the selection |
| PaymentHistory.ClearedFilters | src/pages/PaymentHistoryPage.tsx:60-64 | after clearing only the search term filters, the term is kept, the panel is hidden and no count is shown |
| PaymentHistory.FilterCount | src/pages/PaymentHistoryPage.tsx:112-119 | the count is shown exactly when a card is selected or a bound is set, and is the number of selected cards plus 1 for the date range |
| Dashboard.SortByDueDateInPlace | Desktop/CreditConsolidator-feature-addHovercard-settingPage/src/pages/Dashboard.tsx:119 | the in-place sort leaves the array due-date ordered and a permutation of its former contents |
| Dashboard.InsertDown | Desktop/CreditConsolidator-feature-addHovercard-settingPage/src/pages/Dashboard.tsx:119 | one pass extends the ordered prefix by one card and keeps the contents |
| Dashboard.Swapped | Desktop/CreditConsolidator-feature-addHovercard-settingPage/src/pages/Dashboard.tsx:119 | exchanging two neighbours keeps the length and the contents |
| Dashboard.Render | Desktop/CreditConsolidator-feature-addHovercard-settingPage/src/pages/Dashboard.tsx:26-121 | while loading nothing is shown and the cards stay; otherwise the total due, its distribution, the first two cards, and, after the store's cards are reordered by due date, the first three of them |
| Dashboard.UpcomingAreEarliest | Desktop/CreditConsolidator-feature-addHovercard-settingPage/src/pages/Dashboard.tsx:118-121 | the upcoming list has min(3, n) cards from the store, earliest due first, and no card left out is due before a card shown |
| Dashboard.PayAllInFull | Desktop/CreditConsolidator-feature-addHovercard-settingPage/src/pages/Dashboard.tsx:26-33 | with whole-cent balances, the pay-all distribution pays every card exactly its total due and names no other card |
| DuesSummary.SummaryOf | Desktop/CreditConsolidator-feature-addHovercard-settingPage/src/components/ui/DuesSummary.tsx:14-35 | the panel: the total due, the minimum total, the due-date sorted copy and the chart data |
| DuesSummary.ChartOf | Desktop/CreditConsolidator-feature-addHovercard-settingPage/src/components/ui/DuesSummary.tsx:24-35 | the chart data: names, total dues, colours and a white border per card, in the cards' order |
| DuesSummary.SummaryLists | Desktop/CreditConsolidator-feature-addHovercard-settingPage/src/components/ui/DuesSummary.tsx:15-21 | the upcoming list is a permutation of the cards, earliest due first, and the minimum-due total lies between 0 and the total due |
| DuesSummary.ChartAligned | Desktop/CreditConsolidator-feature-addHovercard-settingPage/src/components/ui/DuesSummary.tsx:24-35 | the labels, data, colours and borders have one entry per card, index-aligned with the unsorted cards, and the data add up to the total due |
| MockData.MockCards | src/utils/mockData.ts:4-55 | the four demo cards of the user, with their fixed names, banks, balances and due dates 5, 12, 3 and 18 days ahead |
| MockData.PastDates | src/utils/mockData.ts:58-63 | the four payment dates: 30, 22, 15 and 7 days ago |
| MockData.MockPayment | src/utils/mockData.ts:65-88 | the payment for date index i: the first ceil(draw · n) cards of the shuffled copy, each paid its rounded amount, with the total, method and receipt of that index |
| MockData.MockCardsFacts | src/utils/mockData.ts:4-55 | four cards `card-1` to `card-4` of the user, each with a minimum due of 5% of its total due, due in the future, with distinct ids |
| MockData.PaidCount | src/utils/mockData.ts:68 | the number of paid cards lies between 0 and the number of cards, and is 0 only for a zero draw or no cards |
| MockData.CardPayments | src/utils/mockData.ts:70-73 | one item per chosen card, carrying its id |
| MockData.MockPayments | src/utils/mockData.ts:57-90 | four payments, one per past date |
| MockData.MockPaymentsFacts | src/utils/mockData.ts:57-90 | payment i has id `payment-(i+1)`, receipt `RCPT-(100000+i)`, status completed, its date, a method cycling by index mod 3, a total equal to the sum of its items, and distinct card ids from the cards |
| MockData.DaysRemaining | src/utils/mockData.ts:102-107 | the days left is the least whole number of days covering the time to the due date |
| MockData.DaysRemainingExact | src/utils/mockData.ts:102-107 | exactly k days gives k, and any part of a further day counts as a whole one |
| MockData.DaysRemainingOrder | src/utils/mockData.ts:102-107 | a later due date never gives fewer days; due now gives 0 and a past date at most 0 |
| CreditCardUI.CardStatus | src/components/ui/CreditCardUI.tsx:13-23 | the tile's colour band for the days remaining until the due date |
| CreditCardUI.StatusColor | src/components/ui/CreditCardUI.tsx:19-23 | red iff 3 days or fewer, yellow iff 4 to 7, green iff more than 7 |
| CreditCardUI.CardStatusByTime | src/components/ui/CreditCardUI.tsx:13-23 | a card due within 3 days or overdue is red, one due more than 7 days ahead green, and yellow in between |
| CreditCardUI.DayLabel | src/components/ui/CreditCardUI.tsx:62 | the label is "day" iff one day remains, and "days" otherwise |
| Contact.EmailValid | Desktop/aboutUsWebsite-master/src/components/contactForm/contact.js:26 | the email pattern: a local part of dotted words, `@`, then dotted domain labels ending in a top-level part of 2 to 7 letters |
| Contact.EmailFlagAsWritten | Desktop/aboutUsWebsite-master/src/components/contactForm/contact.js:29 | the flag as written: the input is not all digits, or it fails the email pattern |
| Contact.ContactForm.Incomplete | Desktop/aboutUsWebsite-master/src/components/contactForm/contact.js:35 | Send's guard: the number or one of the four text fields is empty |
| Contact.StrippedNumber | Desktop/aboutUsWebsite-master/src/components/contactForm/contact.js:14-17 | stripping keeps exactly the digits, in order, as a subsequence of the input, and is idempotent |
| Contact.EmailNotDigits | Desktop/aboutUsWebsite-master/src/components/contactForm/contact.js:26-29 | no address the pattern accepts consists of digits only |
| Contact.SampleEmailValid | Desktop/aboutUsWebsite-master/src/components/contactForm/contact.js:26 | `a@b.co` matches the pattern |
| Contact.EmailFlagAsWrittenAlwaysSet | Desktop/aboutUsWebsite-master/src/components/contactForm/contact.js:26-29 | as written, the email handler sets the invalid flag for every input, a valid address included |
| Contact.EmailFlag | Desktop/aboutUsWebsite-master/src/components/contactForm/contact.js:26-29 | the corrected flag is clear exactly when the address matches the pattern |
| Contact.ContactForm.constructor | Desktop/aboutUsWebsite-master/src/components/contactForm/contact.js:10-11 | the form starts empty with the flag clear |
| Contact.ContactForm.Edit | Desktop/aboutUsWebsite-master/src/components/contactForm/contact.js:35 | typing into a text field replaces only that field |
| Contact.ContactForm.ContactNumberChange | Desktop/aboutUsWebsite-master/src/components/contactForm/contact.js:13-21 | the stored number is the digits of the input, and the flag is set iff the input has a non-digit |
| Contact.ContactForm.EmailChange | Desktop/aboutUsWebsite-master/src/components/contactForm/contact.js:23-31 | the email field takes the input, and the flag is set iff the address does not match the pattern |
| Contact.ContactForm.Submit | Desktop/aboutUsWebsite-master/src/components/contactForm/contact.js:33-62 | with a required field empty it only warns; with the flag set it changes nothing; otherwise it sends the number and clears all five fields |

## Left out

- Rendering, routing, navigation, toasts, `console` output and the `await` delays are not modelled. The 1.5 s wait in `makePayment` and the 2 s toast promise of the contact form have no effect on the state.
- Authentication (`AuthContext.tsx`), the login, settings and profile pages, the navigation bar and the payment confirmation page are not part of this model. They hold no computation beyond mocks and navigation.
- The reminder toggle, the marketing site's static sections and its counters are not part of this model. They are UI wrappers and timers.
- `formatCurrency` and `toLocaleDateString` are not modelled, because they delegate to `Intl`. The PDF receipt generator is not modelled, because it delegates to jsPDF.
- The chart options of the dues summary are display settings, and are not modelled.
- The card tile's `isFlipped` state is a UI toggle, and is not modelled.
- Floating-point arithmetic is not modelled: money is exact. The allocation sums and caps are proved before rounding, and the rounding step is proved separately.
- `parseFloat` is modelled as `Option<real>`: unparseable is `None`, which `|| 0` turns into 0. `NaN` propagation and partial parses such as `"12abc"` are not modelled.
- Date strings are their parsed timestamps. The `to` bound of the payment history compares with the midnight timestamp of the chosen day, so a payment later that day is dropped. The model keeps that comparison as written. Time zones are not modelled.
- The random comparator of `generateMockPayments` is a parameter, together with the amount draws. The payment's card order is any permutation of the cards; which permutation the engine produces is not modelled.
- `Date.now()` ids and the random receipt number are parameters.
- The field setters of the forms other than the card number, and the direct DOM reads of the contact form, are modelled as plain fields assigned whole (`Contact.ContactForm.Edit`).
- The contact form's email pattern is stated as a predicate over the string. The regular-expression engine's backtracking is not modelled.
- Contact.ContactForm.EmailChange: uses the corrected flag `Contact.EmailFlag`, not the flag as written (see Findings).
- Cards.SortBy: is a stable insertion sort, but its contract states only the order and the permutation, not the stability.
- Dashboard.SortByDueDateInPlace: proves sortedness and permutation, but not stability.
- Dashboard.Render: copies the store's list into an array, sorts the array, and writes it back. The model does not capture other live references to the same JavaScript array.
- MakePayment.ConsolidatedRequest: the request's `totalAmount` is the typed amount, while its items add up to min(amount, total due). The source does not reconcile the two, and neither does the model.
- Allocation.DistributionTotal: states the rounded total only to within half a cent per card. The exact rounded value depends on every card's entry.
- Compound interest, the "highest interest cards" mentioned in a note on the payment page, and any policy that would unify the two allocators are not modelled. The code sorts by total due only.

## Findings

| source | as written | input that shows it | evidently intended | confidence | as-written member | corrected member |
|---|---|---|---|---|---|---|
| Desktop/aboutUsWebsite-master/src/components/contactForm/contact.js:26-29 | the email handler sets the invalid flag to `!/^\d*$/.test(v) \|\| !isEmailValid`, which is true for every input because no valid address is all digits | typing `a@b.co` into the email field sets the flag, so Send never submits afterwards until the phone field is edited again | the flag is set exactly when the address does not match the pattern | not executed | Contact.EmailFlagAsWrittenAlwaysSet | Contact.EmailFlag |
