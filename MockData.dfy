/**
 * The demo data the card store loads for a signed-in user, and the
 * days-remaining arithmetic of the card tiles.
 *
 * A date string `yyyy-MM-dd` is represented by the timestamp it parses to
 * (UTC midnight of that day), so `format(addDays(new Date(), k), 'yyyy-MM-dd')`
 * is `today + k * DayMs` where `today` is the timestamp of today's date.
 * `Math.random()` values are passed in as draws in [0, 1).
 */
module MockData {
  import opened Wrappers
  import opened Seqs
  import opened Cards
  import opened JsNumber
  import opened JsText

  /** `1000 * 60 * 60 * 24`. */
  const DayMs: int := 86400000

  function DaysFrom(today: int, k: int): int { today + k * DayMs }

  /** `generateMockCards(userId)`. */
  function MockCards(userId: string, today: int): (r: seq<Card>)
  {
    [ Card("card-1", userId, "Sapphire Reserve", "Chase", "**** **** **** 4567", "05/28",
           DaysFrom(today, 5), 45000.0, 2250.0, "#1B4B9F"),
      Card("card-2", userId, "Gold Card", "American Express", "**** **** **** 8901", "09/26",
           DaysFrom(today, 12), 32500.0, 1625.0, "#97974F"),
      Card("card-3", userId, "Platinum Card", "American Express", "**** **** **** 2345", "11/27",
           DaysFrom(today, 3), 18750.0, 937.5, "#6C6C6C"),
      Card("card-4", userId, "Venture X", "Capital One", "**** **** **** 6789", "07/25",
           DaysFrom(today, 18), 27600.0, 1380.0, "#004977") ]
  }

  /** The four demo cards: their ids, owner, 5% minimum dues and well-formedness. */
  lemma MockCardsFacts(userId: string, today: int)
    ensures var r := MockCards(userId, today);
      && |r| == 4
      && (forall i :: 0 <= i < 4 ==> r[i].id == "card-" + NatToString(i + 1))
      && (forall c :: c in r ==> c.userId == userId && c.minimumDue == c.totalDue * 0.05)
      && (forall c :: c in r ==> c.dueDate > today)
      && WellFormed(r)
  {
    var r := MockCards(userId, today);
    assert NatToString(1) == "1" && NatToString(2) == "2" && NatToString(3) == "3" && NatToString(4) == "4";
    assert DistinctIds(r) by {
      assert forall i :: 0 <= i < 4 ==> r[i].id[5] == DigitChar(i + 1);
    }
  }

  /**
   * The `Math.random()` results one payment consumes: the order the random
   * comparator leaves the cards in, the draw behind the number of cards, and
   * one draw per card for its amount.
   */
  datatype PaymentDraw = PaymentDraw(order: seq<Card>, countDraw: real, amountDraws: seq<real>)

  predicate IsRandom(r: real) { 0.0 <= r < 1.0 }

  /** What any run of the generator can produce: a reordering and draws in [0, 1). */
  ghost predicate ValidDraw(cards: seq<Card>, draw: PaymentDraw)
  {
    && multiset(draw.order) == multiset(cards)
    && IsRandom(draw.countDraw)
    && |draw.amountDraws| == |cards|
    && forall k :: 0 <= k < |draw.amountDraws| ==> IsRandom(draw.amountDraws[k])
  }

  /** `Math.ceil(Math.random() * cards.length)`: how many of the shuffled cards are paid. */
  function PaidCount(n: nat, countDraw: real): (k: int)
    requires IsRandom(countDraw)
    ensures 0 <= k <= n
    ensures k == 0 <==> countDraw == 0.0 || n == 0
  {
    var k := Ceil(countDraw * n as real);
    if n > 0 && countDraw > 0.0 then
      assert countDraw * n as real > 0.0;
      k
    else k
  }

  const PaymentMethods: seq<string> := ["bank_transfer", "debit_card", "apple_pay"]

  /** The card amounts: `Math.round(card.minimumDue + Math.random() * card.totalDue * 0.5)`. */
  function CardPayments(chosen: seq<Card>, amountDraws: seq<real>): (r: seq<CardAmount>)
    requires |chosen| <= |amountDraws|
    ensures |r| == |chosen|
    ensures forall k :: 0 <= k < |r| ==> r[k].cardId == chosen[k].id
  {
    seq(|chosen|, k requires 0 <= k < |chosen| =>
      CardAmount(chosen[k].id, Round(chosen[k].minimumDue + amountDraws[k] * chosen[k].totalDue * 0.5) as real))
  }

  /** The payment generated for the date with the given index. */
  function MockPayment(userId: string, cards: seq<Card>, date: int, index: nat, draw: PaymentDraw): Payment
    requires ValidDraw(cards, draw)
  {
    assert |draw.order| == |multiset(draw.order)| == |multiset(cards)| == |cards|;
    var chosen := draw.order[..PaidCount(|cards|, draw.countDraw)];
    var items := CardPayments(chosen, draw.amountDraws);
    Payment("payment-" + NatToString(index + 1), userId, date, items, PaidTotal(items),
            PaymentMethods[index % 3], Completed, Some("RCPT-" + NatToString(100000 + index)))
  }

  /** The four past dates: 30, 22, 15 and 7 days ago. */
  function PastDates(today: int): seq<int>
  {
    [DaysFrom(today, -30), DaysFrom(today, -22), DaysFrom(today, -15), DaysFrom(today, -7)]
  }

  /** `generateMockPayments(userId, cards)`. */
  function MockPayments(userId: string, cards: seq<Card>, today: int, draws: seq<PaymentDraw>): (r: seq<Payment>)
    requires |draws| == 4 && forall i :: 0 <= i < 4 ==> ValidDraw(cards, draws[i])
    ensures |r| == 4
  {
    var dates := PastDates(today);
    seq(4, i requires 0 <= i < 4 && ValidDraw(cards, draws[i]) => MockPayment(userId, cards, dates[i], i, draws[i]))
  }

  /**
   * Each demo payment: its id, receipt, status, date and method follow its
   * index; its total is the sum of its card amounts; and it pays distinct
   * cards drawn from `cards`.
   */
  lemma MockPaymentsFacts(userId: string, cards: seq<Card>, today: int, draws: seq<PaymentDraw>, i: nat)
    requires |draws| == 4 && forall i :: 0 <= i < 4 ==> ValidDraw(cards, draws[i])
    requires DistinctIds(cards)
    requires i < 4
    ensures var p := MockPayments(userId, cards, today, draws)[i];
      && p.id == "payment-" + NatToString(i + 1)
      && p.userId == userId
      && p.receiptId == Some("RCPT-" + NatToString(100000 + i))
      && p.status == Completed
      && p.date == today - [30, 22, 15, 7][i] * DayMs
      && p.paymentMethod == PaymentMethods[i % 3]
      && p.totalAmount == PaidTotal(p.cards)
      && |p.cards| <= |cards|
      && (forall k :: 0 <= k < |p.cards| ==> IsCardId(cards, p.cards[k].cardId))
      && (forall k, l :: 0 <= k < l < |p.cards| ==> p.cards[k].cardId != p.cards[l].cardId)
  {
    var draw := draws[i];
    assert ValidDraw(cards, draw);
    PermutationKeeps(cards, draw.order);
    PermutationKeepsDistinctIds(cards, draw.order);
    var n := PaidCount(|cards|, draw.countDraw);
    var chosen := draw.order[..n];
    var p := MockPayments(userId, cards, today, draws)[i];
    assert p == MockPayment(userId, cards, PastDates(today)[i], i, draw);
    assert p.cards == CardPayments(chosen, draw.amountDraws);
    forall k | 0 <= k < |p.cards| ensures IsCardId(cards, p.cards[k].cardId) {
      assert chosen[k] == draw.order[k] && draw.order[k] in cards;
    }
    forall k, l | 0 <= k < l < |p.cards| ensures p.cards[k].cardId != p.cards[l].cardId {
      assert chosen[k] == draw.order[k] && chosen[l] == draw.order[l];
    }
  }

  /** `getDaysRemaining(dueDate)` with the current time `now`: whole days, rounded up. */
  function DaysRemaining(due: int, now: int): (r: int)
    ensures (r - 1) * DayMs < due - now <= r * DayMs
  {
    var r := Ceil((due - now) as real / DayMs as real);
    assert (r - 1) as real * DayMs as real < (due - now) as real <= r as real * DayMs as real;
    r
  }

  /** Exactly k days ahead gives k; any part of a further day counts as a whole one. */
  lemma DaysRemainingExact(due: int, now: int, k: int)
    ensures due - now == k * DayMs ==> DaysRemaining(due, now) == k
    ensures (k - 1) * DayMs < due - now <= k * DayMs ==> DaysRemaining(due, now) == k
  {
  }

  /** A later due date never shows fewer days; due now shows 0 and a past date at most 0. */
  lemma DaysRemainingOrder(due: int, due': int, now: int)
    ensures due <= due' ==> DaysRemaining(due, now) <= DaysRemaining(due', now)
    ensures DaysRemaining(now, now) == 0
    ensures due <= now ==> DaysRemaining(due, now) <= 0
  {
    DaysRemainingExact(now, now, 0);
  }
}
