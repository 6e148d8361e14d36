/**
 * The dashboard (`Dashboard`): the total due, the pay-all distribution,
 * the two-card preview and the three upcoming due dates.
 *
 * The upcoming list comes from `cards.sort(...)`, which reorders the card
 * store's own array in place, so every reader of the store sees the cards in
 * due-date order afterwards. The model copies the store's list into an
 * array, sorts that array in place and writes it back to the store.
 */
module Dashboard {
  import opened Wrappers
  import opened Seqs
  import opened Dict
  import opened Cards
  import opened JsNumber
  import opened Allocation
  import opened CardStore

  /** What the dashboard shows once the store has loaded. */
  datatype DashboardView = DashboardView(
    totalDue: real,
    autoDistribution: Dict,
    preview: seq<Card>,
    upcoming: seq<Card>)

  /**
   * `cards.sort((a, b) => dueDate(a) - dueDate(b))` on the array itself:
   * an insertion sort by swaps, afterwards a due-date ordered reordering of
   * the former contents.
   */
  method SortByDueDateInPlace(a: array<Card>)
    modifies a
    ensures DueOrdered(a[..])
    ensures multiset(a[..]) == multiset(old(a[..]))
  {
    var i := 0;
    while i < a.Length
      invariant 0 <= i <= a.Length
      invariant DueOrdered(a[..i])
      invariant multiset(a[..]) == multiset(old(a[..]))
    {
      InsertDown(a, i);
      i := i + 1;
    }
    assert a[..a.Length] == a[..];
  }

  /** One pass of the insertion sort: `a[i]` sinks into the ordered prefix `a[..i]`. */
  method InsertDown(a: array<Card>, i: nat)
    requires i < a.Length && DueOrdered(a[..i])
    modifies a
    ensures DueOrdered(a[..i + 1])
    ensures multiset(a[..]) == multiset(old(a[..]))
  {
    var j := i;
    OrderedButStart(a[..], i);
    while j > 0 && a[j - 1].dueDate > a[j].dueDate
      invariant 0 <= j <= i < a.Length
      invariant OrderedBut(a[..], i, j)
      invariant multiset(a[..]) == multiset(old(a[..]))
    {
      ghost var b := a[..];
      a[j - 1], a[j] := a[j], a[j - 1];
      assert a[..] == Swapped(b, j);
      SwappedStep(b, i, j);
      j := j - 1;
    }
    OrderedButDone(a[..], i, j);
  }

  /** `s` with the cards at `j - 1` and `j` exchanged. */
  function Swapped(s: seq<Card>, j: nat): (r: seq<Card>)
    requires 0 < j < |s|
    ensures |r| == |s| && multiset(r) == multiset(s)
  {
    s[j - 1 := s[j]][j := s[j - 1]]
  }

  /**
   * The state inside one insertion pass: `s[..i + 1]` is ordered apart from
   * the card at `j`, which is due before every card after it.
   */
  ghost predicate OrderedBut(s: seq<Card>, i: nat, j: nat)
    requires j <= i < |s|
  {
    && (forall p, q :: 0 <= p < q <= i && p != j && q != j ==> s[p].dueDate <= s[q].dueDate)
    && (forall q :: j < q <= i ==> s[j].dueDate < s[q].dueDate)
  }

  lemma OrderedButStart(s: seq<Card>, i: nat)
    requires i < |s| && DueOrdered(s[..i])
    ensures OrderedBut(s, i, i)
  {
    forall p, q | 0 <= p < q <= i && p != i && q != i ensures s[p].dueDate <= s[q].dueDate {
      assert s[p] == s[..i][p] && s[q] == s[..i][q];
    }
  }

  lemma SwappedStep(s: seq<Card>, i: nat, j: nat)
    requires 0 < j <= i < |s| && OrderedBut(s, i, j) && s[j - 1].dueDate > s[j].dueDate
    ensures OrderedBut(Swapped(s, j), i, j - 1)
  {
  }

  lemma OrderedButDone(s: seq<Card>, i: nat, j: nat)
    requires j <= i < |s| && OrderedBut(s, i, j)
    requires j == 0 || s[j - 1].dueDate <= s[j].dueDate
    ensures DueOrdered(s[..i + 1])
  {
    forall p, q | 0 <= p < q <= i ensures s[p].dueDate <= s[q].dueDate {
      if p == j && j > 0 {
        assert s[j - 1].dueDate <= s[q].dueDate;
      } else if q == j && j > 0 && p < j - 1 {
        assert s[p].dueDate <= s[j - 1].dueDate;
      }
    }
  }

  /** A fresh array holding `cards`. */
  method ToArray(cards: seq<Card>) returns (a: array<Card>)
    ensures fresh(a) && a[..] == cards
  {
    a := new Card[|cards|](i requires 0 <= i < |cards| => cards[i]);
  }

  /**
   * One render of the dashboard. While the store is loading it shows only a
   * spinner and leaves the cards alone; otherwise it shows the total due,
   * the distribution of that total, the first two cards, and, after sorting
   * the store's cards by due date, the first three of them.
   */
  method Render(store: CardStore) returns (view: Option<DashboardView>)
    modifies store
    ensures store.user == old(store.user) && store.payments == old(store.payments)
    ensures store.loading == old(store.loading)
    ensures old(store.loading) ==> view.None? && store.cards == old(store.cards)
    ensures !old(store.loading) ==> (
      && view.Some?
      && view.value.totalDue == TotalDue(old(store.cards))
      && view.value.autoDistribution == Distribution(old(store.cards), TotalDue(old(store.cards)))
      && view.value.preview == old(store.cards)[..MinInt(2, |old(store.cards)|)]
      && multiset(store.cards) == multiset(old(store.cards)) && DueOrdered(store.cards)
      && view.value.upcoming == store.cards[..MinInt(3, |store.cards|)])
    ensures TotalDue(store.cards) == TotalDue(old(store.cards))
  {
    var totalDue := TotalDue(store.cards);
    var autoDistribution := store.DistributeAmount(totalDue);
    if store.loading {
      return None;
    }
    var cards := store.cards;
    var preview := cards[..MinInt(2, |cards|)];
    var a := ToArray(cards);
    SortByDueDateInPlace(a);
    store.cards := a[..];
    PermutationKeeps(cards, store.cards);
    view := Some(DashboardView(totalDue, autoDistribution, preview, store.cards[..MinInt(3, |store.cards|)]));
  }

  /**
   * The upcoming list of a due-date ordered reordering of the cards: at most
   * three cards, all from the store, earliest due first, and every card left
   * out is due no earlier than every card shown.
   */
  lemma UpcomingAreEarliest(cards: seq<Card>, sorted: seq<Card>)
    requires multiset(sorted) == multiset(cards) && DueOrdered(sorted)
    ensures var u := sorted[..MinInt(3, |sorted|)];
      && |u| == MinInt(3, |cards|)
      && DueOrdered(u)
      && (forall x :: x in u ==> x in cards)
      && (forall c :: c in cards ==> c in u || forall x :: x in u ==> x.dueDate <= c.dueDate)
  {
    var u := sorted[..MinInt(3, |sorted|)];
    PermutationKeeps(cards, sorted);
    forall c | c in cards && c !in u ensures forall x :: x in u ==> x.dueDate <= c.dueDate {
      var k :| 0 <= k < |sorted| && sorted[k] == c;
      assert k >= |u|;
      forall x | x in u ensures x.dueDate <= c.dueDate {
        var m :| 0 <= m < |u| && u[m] == x;
        assert sorted[m] == x;
      }
    }
  }

  /**
   * Paying the total due: for store cards with `0 <= minimumDue <= totalDue`
   * and whole-cent balances, the distribution pays every card exactly its
   * total due and names no other card.
   */
  lemma PayAllInFull(cards: seq<Card>)
    requires WellFormed(cards)
    requires forall c :: c in cards ==> (c.totalDue * 100.0).Floor as real == c.totalDue * 100.0
    ensures forall c :: c in cards ==> Get(Distribution(cards, TotalDue(cards)), c.id) == c.totalDue
    ensures forall k :: HasKey(Distribution(cards, TotalDue(cards)), k) ==> IsCardId(cards, k)
  {
    DistributionPaysInFull(cards, TotalDue(cards));
    forall k | HasKey(Distribution(cards, TotalDue(cards)), k) ensures IsCardId(cards, k) {
      DistributionRounded(cards, TotalDue(cards), k);
      UnroundedKeys(cards, TotalDue(cards), k);
    }
  }
}
