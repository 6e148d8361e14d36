/**
 * The card store shared by the dashboard pages (`CardProvider`): the signed-in
 * user's cards and payments, the list updates on them, the payment that
 * settles card balances, and the imperative allocator `distributeAmount`.
 *
 * React state setters become field assignments. The updater functions
 * passed to `setCards` run in call order, each on the previous result, so a
 * sequence of calls is modelled as a sequence of assignments. `Date.now()`,
 * `new Date()` and `Math.random()` are parameters.
 */
module CardStore {
  import opened Wrappers
  import opened Seqs
  import opened Dict
  import opened Cards
  import opened JsNumber
  import opened JsText
  import opened Allocation
  import opened MockData

  /** `Omit<CreditCard, 'id' | 'userId'>`: what the add-card form supplies. */
  datatype CardDetails = CardDetails(
    cardName: string,
    bankName: string,
    cardNumber: string,
    expiryDate: string,
    dueDate: int,
    totalDue: real,
    minimumDue: real,
    color: string)

  /** `Omit<Payment, 'id' | 'userId' | 'date' | 'status'>`: what the payment page submits. */
  datatype PaymentRequest = PaymentRequest(cards: seq<CardAmount>, totalAmount: real, paymentMethod: string)

  /** `{ ...cardData, id, userId }`. */
  function NewCard(details: CardDetails, id: string, userId: string): Card
  {
    Card(id, userId, details.cardName, details.bankName, details.cardNumber, details.expiryDate,
         details.dueDate, details.totalDue, details.minimumDue, details.color)
  }

  // ---------------------------------------------------------------------------
  // The list updates.

  /** `cards.map(card => card.id === id ? { ...card, ...updates } : card)`. */
  function UpdatedCards(cards: seq<Card>, id: string, u: CardUpdate): (r: seq<Card>)
    ensures |r| == |cards|
  {
    seq(|cards|, i requires 0 <= i < |cards| => if cards[i].id == id then Merge(cards[i], u) else cards[i])
  }

  /**
   * An update touches exactly the cards with the id: they take every field
   * the update carries and keep the rest; every other card stays as it was.
   */
  lemma UpdatedCardsFacts(cards: seq<Card>, id: string, u: CardUpdate, i: nat)
    requires i < |cards|
    ensures cards[i].id != id ==> UpdatedCards(cards, id, u)[i] == cards[i]
    ensures cards[i].id == id ==> UpdatedCards(cards, id, u)[i] == Merge(cards[i], u)
    ensures u.totalDue.Some? && cards[i].id == id ==> UpdatedCards(cards, id, u)[i].totalDue == u.totalDue.value
    ensures u.totalDue.None? ==> UpdatedCards(cards, id, u)[i].totalDue == cards[i].totalDue
    ensures u.id.None? ==> UpdatedCards(cards, id, u)[i].id == cards[i].id
  {
  }

  /** Applying the same update twice is applying it once; an unknown id changes nothing. */
  lemma UpdatedCardsIdempotent(cards: seq<Card>, id: string, u: CardUpdate)
    ensures UpdatedCards(UpdatedCards(cards, id, u), id, u) == UpdatedCards(cards, id, u)
    ensures !IsCardId(cards, id) ==> UpdatedCards(cards, id, u) == cards
  {
    var r := UpdatedCards(cards, id, u);
    var r2 := UpdatedCards(r, id, u);
    forall i | 0 <= i < |cards| ensures r2[i] == r[i] {
      if cards[i].id == id {
        assert r[i] == Merge(cards[i], u);
        MergeIdempotent(cards[i], u);
      }
    }
    if !IsCardId(cards, id) {
      forall i | 0 <= i < |cards| ensures r[i] == cards[i] {
        assert cards[i] in cards;
      }
    }
  }

  lemma MergeIdempotent(c: Card, u: CardUpdate)
    ensures Merge(Merge(c, u), u) == Merge(c, u)
  {
  }

  /** An update that leaves ids alone keeps the ids distinct. */
  lemma UpdatedCardsKeepIds(cards: seq<Card>, id: string, u: CardUpdate)
    requires u.id.None?
    ensures forall i :: 0 <= i < |cards| ==> UpdatedCards(cards, id, u)[i].id == cards[i].id
    ensures DistinctIds(cards) ==> DistinctIds(UpdatedCards(cards, id, u))
  {
    var r := UpdatedCards(cards, id, u);
    assert forall i :: 0 <= i < |cards| ==> r[i].id == cards[i].id;
  }

  /** `cards.filter(card => card.id !== id)`. */
  function RemovedCards(cards: seq<Card>, id: string): (r: seq<Card>)
  {
    Filter(cards, (c: Card) => c.id != id)
  }

  /**
   * Removal drops exactly the cards with the id and keeps the others in
   * their order; removing an unknown id changes nothing.
   */
  lemma RemovedCardsFacts(cards: seq<Card>, id: string)
    ensures IsSubsequence(RemovedCards(cards, id), cards)
    ensures forall c :: c in RemovedCards(cards, id) <==> c in cards && c.id != id
    ensures !IsCardId(RemovedCards(cards, id), id)
    ensures !IsCardId(cards, id) ==> RemovedCards(cards, id) == cards
  {
    FilterIsSubsequence(cards, (c: Card) => c.id != id);
    if !IsCardId(cards, id) {
      FilterAll(cards, (c: Card) => c.id != id);
    }
  }

  /** Removal keeps the store well formed. */
  lemma RemovedCardsWellFormed(cards: seq<Card>, id: string)
    requires WellFormed(cards)
    ensures WellFormed(RemovedCards(cards, id))
  {
    FilterDistinct(cards, (c: Card) => c.id != id);
  }

  // ---------------------------------------------------------------------------
  // Settling a payment against the card balances.

  /** The balances after paying `amount` on a card, read from the card as it was. */
  function PaidUpdate(c: Card, amount: real): CardUpdate
  {
    BalanceUpdate(c.totalDue - amount, Max(0.0, c.minimumDue - amount))
  }

  /** A payment of at most the total due keeps 0 <= minimumDue <= totalDue. */
  lemma PaidUpdateConsistent(c: Card, amount: real)
    requires 0.0 <= c.minimumDue <= c.totalDue && 0.0 <= amount <= c.totalDue
    ensures 0.0 <= Merge(c, PaidUpdate(c, amount)).minimumDue <= Merge(c, PaidUpdate(c, amount)).totalDue
    ensures Merge(c, PaidUpdate(c, amount)).totalDue == c.totalDue - amount
    ensures Merge(c, PaidUpdate(c, amount)).id == c.id
  {
  }

  /**
   * The `forEach` over the paid cards: each one is looked up in the
   * call-time `snapshot` and its balances updated in `cards`. The first id
   * the snapshot does not know stops the loop (the lookup throws); the
   * flag says whether every item was settled.
   */
  function Settle(snapshot: seq<Card>, cards: seq<Card>, items: seq<CardAmount>): (r: (seq<Card>, bool))
    ensures |r.0| == |cards|
    decreases |items|
  {
    if items == [] then (cards, true)
    else match Find(snapshot, items[0].cardId)
      case None => (cards, false)
      case Some(c) => Settle(snapshot, UpdatedCards(cards, items[0].cardId, PaidUpdate(c, items[0].amount)), items[1..])
  }

  /** The amount the first item for `id` pays. */
  function AmountFor(items: seq<CardAmount>, id: string): (r: Option<real>)
    ensures r.Some? ==>
      exists k :: 0 <= k < |items| && items[k] == CardAmount(id, r.value) && forall j :: 0 <= j < k ==> items[j].cardId != id
    ensures r.None? ==> forall k :: 0 <= k < |items| ==> items[k].cardId != id
    decreases |items|
  {
    if items == [] then None
    else if items[0].cardId == id then Some(items[0].amount)
    else
      var r := AmountFor(items[1..], id);
      assert forall k :: 0 <= k < |items[1..]| ==> items[1..][k] == items[k + 1];
      if r.Some? then
        var k :| 0 <= k < |items[1..]| && items[1..][k] == CardAmount(id, r.value)
          && forall j :: 0 <= j < k ==> items[1..][j].cardId != id;
        assert items[k + 1] == CardAmount(id, r.value) && forall j :: 0 <= j < k + 1 ==> items[j].cardId != id;
        r
      else r
  }

  /** Settling stops early exactly when some item names a card the snapshot lacks. */
  lemma {:induction false} SettleFails(snapshot: seq<Card>, cards: seq<Card>, items: seq<CardAmount>)
    ensures !Settle(snapshot, cards, items).1 <==>
      exists k :: 0 <= k < |items| && !IsCardId(snapshot, items[k].cardId)
    decreases |items|
  {
    if items != [] {
      match Find(snapshot, items[0].cardId)
      case None =>
      case Some(c) =>
        var next := UpdatedCards(cards, items[0].cardId, PaidUpdate(c, items[0].amount));
        SettleFails(snapshot, next, items[1..]);
        assert forall k :: 0 <= k < |items[1..]| ==> items[1..][k] == items[k + 1];
        if exists k :: 0 <= k < |items| && !IsCardId(snapshot, items[k].cardId) {
          var k :| 0 <= k < |items| && !IsCardId(snapshot, items[k].cardId);
          assert k > 0 && items[1..][k - 1] == items[k];
        }
    }
  }

  /** Distinct ids in a list of payment items. */
  ghost predicate DistinctItems(items: seq<CardAmount>)
  {
    forall k, l :: 0 <= k < l < |items| ==> items[k].cardId != items[l].cardId
  }

  /**
   * With distinct paid ids that all name cards of the snapshot, every paid
   * card ends with its snapshot balances less the amount (the minimum due
   * not below 0) and every other card is untouched. `cards` is the current
   * list; it holds the snapshot's ids in the snapshot's positions.
   */
  lemma {:induction false} SettleBalances(snapshot: seq<Card>, cards: seq<Card>, items: seq<CardAmount>, i: nat)
    requires DistinctIds(snapshot) && DistinctItems(items)
    requires |cards| == |snapshot| && forall j :: 0 <= j < |cards| ==> cards[j].id == snapshot[j].id
    requires forall k :: 0 <= k < |items| ==> IsCardId(snapshot, items[k].cardId)
    requires i < |cards|
    ensures Settle(snapshot, cards, items).1
    ensures Settle(snapshot, cards, items).0[i] ==
      match AmountFor(items, cards[i].id)
      case None => cards[i]
      case Some(a) => Merge(cards[i], PaidUpdate(snapshot[i], a))
    decreases |items|
  {
    if items != [] {
      var id := items[0].cardId;
      assert IsCardId(snapshot, id);
      var c := Find(snapshot, id).value;
      var next := UpdatedCards(cards, id, PaidUpdate(c, items[0].amount));
      assert Settle(snapshot, cards, items) == Settle(snapshot, next, items[1..]);
      assert forall j :: 0 <= j < |cards| ==> next[j].id == cards[j].id;
      assert DistinctItems(items[1..]) by {
        assert forall k :: 0 <= k < |items[1..]| ==> items[1..][k] == items[k + 1];
      }
      assert forall k :: 0 <= k < |items[1..]| ==> IsCardId(snapshot, items[1..][k].cardId) by {
        assert forall k :: 0 <= k < |items[1..]| ==> items[1..][k] == items[k + 1];
      }
      SettleBalances(snapshot, next, items[1..], i);
      if cards[i].id == id {
        assert snapshot[i] == c by {
          SameIdSameCard(snapshot, i, c);
        }
        AmountForLater(items, id);
      }
    }
  }

  /** The card of the snapshot with the id at position `i` is the card at `i`. */
  lemma SameIdSameCard(snapshot: seq<Card>, i: nat, c: Card)
    requires DistinctIds(snapshot) && i < |snapshot| && c in snapshot && c.id == snapshot[i].id
    ensures snapshot[i] == c
  {
    var j :| 0 <= j < |snapshot| && snapshot[j] == c;
  }

  /** With distinct item ids, the first item's id does not occur again. */
  lemma AmountForLater(items: seq<CardAmount>, id: string)
    requires items != [] && items[0].cardId == id && DistinctItems(items)
    ensures AmountFor(items[1..], id).None?
  {
    assert forall k :: 0 <= k < |items[1..]| ==> items[1..][k] == items[k + 1];
  }

  // ---------------------------------------------------------------------------
  // The store.

  class CardStore {
    /** The id of the signed-in user, if any. */
    var user: Option<string>
    var cards: seq<Card>
    var payments: seq<Payment>
    var loading: bool

    /** The initial state: no user, no cards, no payments, still loading. */
    constructor()
      ensures user == None && cards == [] && payments == [] && loading
    {
      user := None;
      cards := [];
      payments := [];
      loading := true;
    }

    /**
     * The effect that runs when the signed-in user changes: a user gets
     * the demo cards and payments, no user an empty store.
     */
    method SetUser(u: Option<string>, today: int, draws: seq<PaymentDraw>)
      requires u.Some? ==> |draws| == 4 && forall i :: 0 <= i < 4 ==> ValidDraw(MockCards(u.value, today), draws[i])
      modifies this
      ensures user == u && !loading
      ensures u.Some? ==>
        cards == MockCards(u.value, today) && payments == MockPayments(u.value, MockCards(u.value, today), today, draws)
      ensures u.None? ==> cards == [] && payments == []
    {
      user := u;
      if u.Some? {
        var mockCards := MockCards(u.value, today);
        var mockPayments := MockPayments(u.value, mockCards, today, draws);
        cards := mockCards;
        payments := mockPayments;
      } else {
        cards := [];
        payments := [];
      }
      loading := false;
    }

    /** `addCard`: without a user nothing happens; otherwise the card is appended. */
    method AddCard(details: CardDetails, now: nat)
      modifies this
      ensures user == old(user) && payments == old(payments) && loading == old(loading)
      ensures old(user).None? ==> cards == old(cards)
      ensures old(user).Some? ==> cards == old(cards) + [NewCard(details, "card-" + NatToString(now), old(user).value)]
    {
      if user.None? {
        return;
      }
      var newCard := NewCard(details, "card-" + NatToString(now), user.value);
      cards := cards + [newCard];
    }

    /** `updateCard`. */
    method UpdateCard(id: string, u: CardUpdate)
      modifies this
      ensures cards == UpdatedCards(old(cards), id, u)
      ensures user == old(user) && payments == old(payments) && loading == old(loading)
    {
      cards := UpdatedCards(cards, id, u);
    }

    /** `removeCard`. */
    method RemoveCard(id: string)
      modifies this
      ensures cards == RemovedCards(old(cards), id)
      ensures user == old(user) && payments == old(payments) && loading == old(loading)
    {
      cards := RemovedCards(cards, id);
    }

    /**
     * `makePayment`: without a user it fails and changes nothing. Otherwise
     * the completed payment is put first in the history and each paid card's
     * balances are updated from the cards as they were when the call began;
     * an id the store does not know makes the call fail after the updates
     * before it.
     */
    method MakePayment(request: PaymentRequest, now: nat, receiptDraw: real) returns (r: Result<Payment>)
      requires IsRandom(receiptDraw)
      modifies this
      ensures user == old(user) && loading == old(loading)
      ensures old(user).None? ==> r.Err? && cards == old(cards) && payments == old(payments)
      ensures old(user).Some? ==>
        && payments == [ReceiptFor(request, now, old(user).value, receiptDraw)] + old(payments)
        && cards == Settle(old(cards), old(cards), request.cards).0
        && (r.Ok? <==> Settle(old(cards), old(cards), request.cards).1)
        && (r.Ok? ==> r.value == ReceiptFor(request, now, old(user).value, receiptDraw))
    {
      if user.None? {
        return Err("User not authenticated");
      }
      var newPayment := ReceiptFor(request, now, user.value, receiptDraw);
      payments := [newPayment] + payments;
      var snapshot := cards;
      var items := request.cards;
      var i := 0;
      while i < |items|
        invariant 0 <= i <= |items|
        invariant user == old(user) && loading == old(loading) && snapshot == old(cards)
        invariant payments == [newPayment] + old(payments)
        invariant Settle(snapshot, cards, items[i..]) == Settle(snapshot, snapshot, items)
        decreases |items| - i
      {
        var item := items[i];
        assert items[i..][0] == item && items[i..][1..] == items[i + 1..];
        var found := Find(snapshot, item.cardId);
        if found.None? {
          return Err("Cannot read properties of undefined");
        }
        var c := found.value;
        cards := UpdatedCards(cards, item.cardId, PaidUpdate(c, item.amount));
        i := i + 1;
      }
      return Ok(newPayment);
    }

    /** `distributeAmount(amount)`: the two allocation phases, then rounding to cents. */
    method DistributeAmount(amount: real) returns (distribution: Dict)
      ensures distribution == Distribution(cards, amount)
    {
      var byDueDate := SortByDueDate(cards);
      var d, remaining := CoverMinimumsLoop(byDueDate, amount);
      if remaining > 0.0 {
        var owing := WithRemainingDue(byDueDate, d);
        var totalRemainingDue := TotalRemainingDue(owing, d);
        RemainingDuePositive(byDueDate, d);
        d := SpreadRemainderLoop(owing, d, remaining, totalRemainingDue);
      }
      distribution := RoundLoop(d);
    }
  }

  /** Phase 1 of `distributeAmount`: the first `forEach`. */
  method CoverMinimumsLoop(byDueDate: seq<Card>, amount: real) returns (d: Dict, remaining: real)
    ensures (d, remaining) == CoverMinimums(byDueDate, amount, [])
    ensures DistinctKeys(d)
  {
    d := [];
    remaining := amount;
    var i := 0;
    while i < |byDueDate|
      invariant 0 <= i <= |byDueDate|
      invariant DistinctKeys(d)
      invariant CoverMinimums(byDueDate[i..], remaining, d) == CoverMinimums(byDueDate, amount, [])
    {
      var card := byDueDate[i];
      assert byDueDate[i..][0] == card && byDueDate[i..][1..] == byDueDate[i + 1..];
      if remaining > 0.0 {
        var toAllocate := Min(card.minimumDue, remaining);
        SetKeys(d, card.id, toAllocate);
        d := Set(d, card.id, toAllocate);
        remaining := remaining - toAllocate;
      }
      i := i + 1;
    }
  }

  /** Phase 2 of `distributeAmount`: the `forEach` over the cards that still owe. */
  method SpreadRemainderLoop(owing: seq<Card>, d0: Dict, remaining: real, totalRemainingDue: real) returns (d: Dict)
    requires owing == [] || totalRemainingDue != 0.0
    requires DistinctKeys(d0)
    ensures d == SpreadRemainder(owing, d0, remaining, totalRemainingDue)
    ensures DistinctKeys(d)
  {
    d := d0;
    var j := 0;
    while j < |owing|
      invariant 0 <= j <= |owing|
      invariant DistinctKeys(d)
      invariant SpreadRemainder(owing[j..], d, remaining, totalRemainingDue)
        == SpreadRemainder(owing, d0, remaining, totalRemainingDue)
    {
      var card := owing[j];
      var currentAllocation := Get(d, card.id);
      var remainingDue := card.totalDue - currentAllocation;
      var proportion := remainingDue / totalRemainingDue;
      var additional := Min(remaining * proportion, remainingDue);
      SpreadRemainderNext(owing, j, d, remaining, totalRemainingDue, currentAllocation, remainingDue, proportion, additional);
      SetKeys(d, card.id, currentAllocation + additional);
      d := Set(d, card.id, currentAllocation + additional);
      j := j + 1;
    }
  }

  /** One iteration of phase 2 is one step of `SpreadRemainder`. */
  lemma SpreadRemainderNext(owing: seq<Card>, j: nat, d: Dict, remaining: real, total: real,
                            current: real, remainingDue: real, proportion: real, additional: real)
    requires j < |owing| && total != 0.0
    requires current == Get(d, owing[j].id) && remainingDue == owing[j].totalDue - current
    requires proportion == remainingDue / total && additional == Min(remaining * proportion, remainingDue)
    ensures SpreadRemainder(owing[j..], d, remaining, total)
      == SpreadRemainder(owing[j + 1..], Set(d, owing[j].id, current + additional), remaining, total)
  {
    assert owing[j..][0] == owing[j] && owing[j..][1..] == owing[j + 1..];
    assert additional == ExtraShare(owing[j], d, remaining, total);
  }

  /** The rounding loop of `distributeAmount`: every entry, in key order, to cents. */
  method RoundLoop(d0: Dict) returns (d: Dict)
    requires DistinctKeys(d0)
    ensures d == MapValues(d0, RoundCents)
  {
    d := d0;
    var keys := Keys(d);
    var k := 0;
    while k < |keys|
      invariant 0 <= k <= |keys| && |d| == |d0| == |keys|
      invariant Keys(d) == keys == Keys(d0)
      invariant forall m :: 0 <= m < k ==> d[m] == Entry(d0[m].key, RoundCents(d0[m].value))
      invariant forall m :: k <= m < |d| ==> d[m] == d0[m]
    {
      assert DistinctKeys(d) by {
        assert forall m :: 0 <= m < |d| ==> d[m].key == keys[m] == d0[m].key;
      }
      IndexOfDistinct(d, k);
      d := Set(d, keys[k], RoundCents(Get(d, keys[k])));
      k := k + 1;
    }
  }

  /** The payment `makePayment` records. */
  function ReceiptFor(request: PaymentRequest, now: nat, userId: string, receiptDraw: real): (p: Payment)
    requires IsRandom(receiptDraw)
    ensures p.status == Completed && p.userId == userId && p.date == now
    ensures p.cards == request.cards && p.totalAmount == request.totalAmount
  {
    var receipt := (receiptDraw * 1000000.0).Floor;
    Payment("payment-" + NatToString(now), userId, now, request.cards, request.totalAmount,
            request.paymentMethod, Completed, Some("RCPT-" + NatToString(receipt)))
  }
}
