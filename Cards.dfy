/**
 * The records of the payment dashboard: credit cards and payments, with the
 * sums and the due-date ordering the pages compute over them.
 *
 * Money is a Dafny `real` (exact rational arithmetic, no floating-point drift).
 * A date is the millisecond timestamp that `new Date(s).getTime()` yields for
 * the record's date string.
 */
module Cards {
  import opened Wrappers
  import opened Seqs

  datatype Card = Card(
    id: string,
    userId: string,
    cardName: string,
    bankName: string,
    cardNumber: string,
    expiryDate: string,
    dueDate: int,
    totalDue: real,
    minimumDue: real,
    color: string)

  datatype CardAmount = CardAmount(cardId: string, amount: real)

  datatype PaymentStatus = Pending | Completed | Failed

  datatype Payment = Payment(
    id: string,
    userId: string,
    date: int,
    cards: seq<CardAmount>,
    totalAmount: real,
    paymentMethod: string,
    status: PaymentStatus,
    receiptId: Option<string>)

  /** `Partial<CreditCard>`: the fields an update overrides. */
  datatype CardUpdate = CardUpdate(
    id: Option<string>,
    userId: Option<string>,
    cardName: Option<string>,
    bankName: Option<string>,
    cardNumber: Option<string>,
    expiryDate: Option<string>,
    dueDate: Option<int>,
    totalDue: Option<real>,
    minimumDue: Option<real>,
    color: Option<string>)

  /** An update that sets only the two balances, as a payment does. */
  function BalanceUpdate(totalDue: real, minimumDue: real): CardUpdate
  {
    CardUpdate(None, None, None, None, None, None, None, Some(totalDue), Some(minimumDue), None)
  }

  /** `{ ...card, ...updates }`: every field the update carries wins. */
  function Merge(c: Card, u: CardUpdate): (r: Card)
  {
    Card(
      u.id.GetOr(c.id), u.userId.GetOr(c.userId), u.cardName.GetOr(c.cardName),
      u.bankName.GetOr(c.bankName), u.cardNumber.GetOr(c.cardNumber),
      u.expiryDate.GetOr(c.expiryDate), u.dueDate.GetOr(c.dueDate),
      u.totalDue.GetOr(c.totalDue), u.minimumDue.GetOr(c.minimumDue), u.color.GetOr(c.color))
  }

  /** No two cards share an id. */
  ghost predicate DistinctIds(cards: seq<Card>)
  {
    forall i, j :: 0 <= i < |cards| && 0 <= j < |cards| && i != j ==> cards[i].id != cards[j].id
  }

  /** The expected relation between the two balances: 0 <= minimumDue <= totalDue. */
  ghost predicate ConsistentDues(cards: seq<Card>)
  {
    forall c :: c in cards ==> 0.0 <= c.minimumDue <= c.totalDue
  }

  /** The cards the store is expected to hold: distinct ids and 0 <= minimumDue <= totalDue. */
  ghost predicate WellFormed(cards: seq<Card>)
  {
    DistinctIds(cards) && ConsistentDues(cards)
  }

  /** `id` is the id of some card of `cards`. */
  predicate IsCardId(cards: seq<Card>, id: string)
  {
    exists c :: c in cards && c.id == id
  }

  /** `cards.find(c => c.id === id)`: the first card with the id, if any. */
  function Find(cards: seq<Card>, id: string): (r: Option<Card>)
    ensures r.Some? ==> r.value in cards && r.value.id == id
    ensures r.Some? ==> exists k :: 0 <= k < |cards| && cards[k] == r.value && forall j :: 0 <= j < k ==> cards[j].id != id
    ensures r.None? <==> !IsCardId(cards, id)
    decreases |cards|
  {
    if cards == [] then None
    else if cards[0].id == id then Some(cards[0])
    else (assert forall c :: c in cards && c !in cards[1..] ==> c == cards[0];
          Find(cards[1..], id))
  }

  function AmountOf(a: CardAmount): real { a.amount }

  /** `items.reduce((sum, item) => sum + item.amount, 0)`: what a list of payment items adds up to. */
  function PaidTotal(items: seq<CardAmount>): real { SumOf(items, AmountOf) }

  function TotalDueOf(c: Card): real { c.totalDue }
  function MinimumDueOf(c: Card): real { c.minimumDue }
  function SlackOf(c: Card): real { c.totalDue - c.minimumDue }

  /** `cards.reduce((sum, card) => sum + card.totalDue, 0)`. */
  function TotalDue(cards: seq<Card>): real { SumOf(cards, TotalDueOf) }

  /** `cards.reduce((sum, card) => sum + card.minimumDue, 0)`. */
  function TotalMinimumDue(cards: seq<Card>): real { SumOf(cards, MinimumDueOf) }

  lemma {:induction false} SlackSum(cards: seq<Card>)
    ensures SumOf(cards, SlackOf) == TotalDue(cards) - TotalMinimumDue(cards)
    decreases |cards|
  {
    if cards != [] {
      SlackSum(cards[1..]);
    }
  }

  lemma DueSumsOrdered(cards: seq<Card>)
    requires ConsistentDues(cards)
    ensures 0.0 <= TotalMinimumDue(cards) <= TotalDue(cards)
  {
    SumOfNonNegative(cards, MinimumDueOf);
    SumOfNonNegative(cards, SlackOf);
    SlackSum(cards);
  }

  // ---------------------------------------------------------------------------
  // Ordering. `Array.prototype.sort` with a numeric comparator `key(a) - key(b)`
  // is a stable ascending sort on `key`; the model is a stable insertion sort.

  ghost predicate SortedBy(s: seq<Card>, key: Card -> real)
  {
    forall i, j :: 0 <= i < j < |s| ==> key(s[i]) <= key(s[j])
  }

  /** Inserts `x` before the first element whose key is not smaller. */
  function Insert(x: Card, s: seq<Card>, key: Card -> real): (r: seq<Card>)
    ensures multiset(r) == multiset(s) + multiset{x}
    ensures |r| == |s| + 1
    decreases |s|
  {
    if s == [] then [x]
    else if key(x) <= key(s[0]) then [x] + s
    else
      assert s == [s[0]] + s[1..];
      [s[0]] + Insert(x, s[1..], key)
  }

  lemma {:induction false} InsertSorted(x: Card, s: seq<Card>, key: Card -> real)
    requires SortedBy(s, key)
    ensures SortedBy(Insert(x, s, key), key)
    ensures forall y :: y in Insert(x, s, key) ==> y == x || y in s
    decreases |s|
  {
    if s != [] && key(x) > key(s[0]) {
      assert SortedBy(s[1..], key);
      InsertSorted(x, s[1..], key);
      InsertSortedStep(x, s, key);
    }
  }

  /** The inductive step of `InsertSorted`: `x` goes after the first card. */
  lemma InsertSortedStep(x: Card, s: seq<Card>, key: Card -> real)
    requires SortedBy(s, key) && s != [] && key(x) > key(s[0])
    requires SortedBy(Insert(x, s[1..], key), key)
    requires forall y :: y in Insert(x, s[1..], key) ==> y == x || y in s[1..]
    ensures SortedBy(Insert(x, s, key), key)
    ensures forall y :: y in Insert(x, s, key) ==> y == x || y in s
  {
    var t := Insert(x, s[1..], key);
    var r := [s[0]] + t;
    assert Insert(x, s, key) == r;
    forall i, j | 0 <= i < j < |r| ensures key(r[i]) <= key(r[j]) {
      if i == 0 {
        assert r[j] in t;
        if r[j] != x {
          var k :| 0 <= k < |s[1..]| && s[1..][k] == r[j];
          assert s[k + 1] == r[j];
        }
      } else {
        assert r[i] == t[i - 1] && r[j] == t[j - 1];
      }
    }
    forall y | y in r ensures y == x || y in s {
      if y != s[0] {
        assert y in t;
      }
    }
  }

  /** `[...cards].sort((a, b) => key(a) - key(b))`. */
  function SortBy(s: seq<Card>, key: Card -> real): (r: seq<Card>)
    ensures multiset(r) == multiset(s)
    ensures |r| == |s|
    ensures SortedBy(r, key)
    decreases |s|
  {
    if s == [] then []
    else
      assert s == [s[0]] + s[1..];
      var t := SortBy(s[1..], key);
      InsertSorted(s[0], t, key);
      Insert(s[0], t, key)
  }

  function DueDateKey(c: Card): real { c.dueDate as real }

  /** `[...cards].sort((a, b) => new Date(a.dueDate).getTime() - new Date(b.dueDate).getTime())`. */
  function SortByDueDate(cards: seq<Card>): seq<Card>
  {
    SortBy(cards, DueDateKey)
  }

  /** Due dates never decrease along `s`. */
  ghost predicate DueOrdered(s: seq<Card>)
  {
    forall i, j :: 0 <= i < j < |s| ==> s[i].dueDate <= s[j].dueDate
  }

  /** The due-date sort reorders the cards, earliest due first. */
  lemma SortByDueDateFacts(cards: seq<Card>)
    ensures multiset(SortByDueDate(cards)) == multiset(cards)
    ensures |SortByDueDate(cards)| == |cards|
    ensures DueOrdered(SortByDueDate(cards))
  {
    var s := SortByDueDate(cards);
    assert forall i, j :: 0 <= i < j < |s| ==> DueDateKey(s[i]) <= DueDateKey(s[j]);
  }

  /** A permutation keeps the properties stated per card and per id. */
  lemma PermutationKeeps(a: seq<Card>, b: seq<Card>)
    requires multiset(a) == multiset(b)
    ensures forall c :: c in a <==> c in b
    ensures |a| == |b|
    ensures ConsistentDues(a) ==> ConsistentDues(b)
    ensures TotalDue(a) == TotalDue(b) && TotalMinimumDue(a) == TotalMinimumDue(b)
  {
    assert forall c :: c in a <==> c in multiset(a);
    assert forall c :: c in b <==> c in multiset(b);
    assert |a| == |multiset(a)| == |multiset(b)| == |b|;
    SumOfPermutation(a, b, TotalDueOf);
    SumOfPermutation(a, b, MinimumDueOf);
  }

  /** Distinct ids survive a permutation. */
  lemma PermutationKeepsDistinctIds(a: seq<Card>, b: seq<Card>)
    requires multiset(a) == multiset(b)
    requires DistinctIds(a)
    ensures DistinctIds(b)
  {
    forall i, j | 0 <= i < |b| && 0 <= j < |b| && i != j
      ensures b[i].id != b[j].id
    {
      assert b[i] in multiset(a) && b[j] in multiset(a);
      if b[i] == b[j] {
        TwiceCounted(b, i, j);
        OnceCounted(a, b[i]);
        assert false;
      } else {
        DifferentCardsDifferentIds(a, b[i], b[j]);
      }
    }
  }

  lemma DifferentCardsDifferentIds(s: seq<Card>, x: Card, y: Card)
    requires DistinctIds(s) && x in s && y in s && x != y
    ensures x.id != y.id
  {
    var p :| 0 <= p < |s| && s[p] == x;
    var q :| 0 <= q < |s| && s[q] == y;
  }

  lemma TwiceCounted(s: seq<Card>, i: nat, j: nat)
    requires i < |s| && j < |s| && i != j && s[i] == s[j]
    ensures multiset(s)[s[i]] >= 2
  {
    var lo, hi := if i < j then i else j, if i < j then j else i;
    assert s == s[..hi] + [s[hi]] + s[hi + 1..];
    assert s[..hi][lo] == s[hi];
    assert multiset(s) == multiset(s[..hi]) + multiset{s[hi]} + multiset(s[hi + 1..]);
  }

  lemma OnceCounted(s: seq<Card>, x: Card)
    requires DistinctIds(s)
    ensures multiset(s)[x] <= 1
    decreases |s|
  {
    if s != [] {
      assert s == [s[0]] + s[1..];
      assert DistinctIds(s[1..]) by {
        forall i, j | 0 <= i < |s[1..]| && 0 <= j < |s[1..]| && i != j
          ensures s[1..][i].id != s[1..][j].id
        {
          assert s[1..][i] == s[i + 1] && s[1..][j] == s[j + 1];
        }
      }
      OnceCounted(s[1..], x);
      if s[0] == x {
        assert x !in s[1..] by {
          forall k | 0 <= k < |s[1..]| ensures s[1..][k] != x { assert s[1..][k] == s[k + 1]; }
        }
      }
    }
  }
}
