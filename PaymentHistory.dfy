/**
 * The payment history page (`PaymentHistoryPage`): the filter over the
 * store's payments (search term, selected cards, date range), the card
 * toggle, clearing the filters, and the count on the filter button.
 *
 * A date bound is `None` for the empty field and otherwise the timestamp of
 * the chosen day; a payment's date is its timestamp, so the comparisons
 * `new Date(payment.date) < new Date(from)` are comparisons of timestamps.
 */
module PaymentHistory {
  import opened Wrappers
  import opened Seqs
  import opened Cards
  import opened JsText

  /** The page's filter state; the search term is kept apart from the other filters. */
  datatype Filters = Filters(
    searchTerm: string,
    showFilter: bool,
    selectedCardIds: seq<string>,
    from: Option<int>,
    to: Option<int>)

  /** The state the page starts with. */
  const NoFilters: Filters := Filters("", false, [], None, None)

  /** `payment.cards.map(card => card.cardId)`. */
  function CardIdsOf(items: seq<CardAmount>): (r: seq<string>)
    ensures |r| == |items| && forall k :: 0 <= k < |items| ==> r[k] == items[k].cardId
    decreases |items|
  {
    if items == [] then [] else [items[0].cardId] + CardIdsOf(items[1..])
  }

  /** `selected.some(id => ids.includes(id))`. */
  function SomeIncluded(selected: seq<string>, ids: seq<string>): (b: bool)
    ensures b <==> exists id :: id in selected && id in ids
    decreases |selected|
  {
    if selected == [] then false
    else selected[0] in ids || SomeIncluded(selected[1..], ids)
  }

  /** `payment.receiptId?.toLowerCase().includes(term)`: no receipt is no match. */
  predicate ReceiptMatches(receiptId: Option<string>, term: string)
  {
    receiptId.Some? && Matches(receiptId.value, term)
  }

  /** The callback of `payments.filter(...)`: each guard that fails drops the payment. */
  predicate Keeps(f: Filters, p: Payment)
  {
    if f.searchTerm != "" && !Matches(p.id, f.searchTerm) && !ReceiptMatches(p.receiptId, f.searchTerm) then false
    else if |f.selectedCardIds| > 0 && !SomeIncluded(f.selectedCardIds, CardIdsOf(p.cards)) then false
    else if f.from.Some? && p.date < f.from.value then false
    else if f.to.Some? && p.date > f.to.value then false
    else true
  }

  /** `filteredPayments`: the payments the filters keep, in their order. */
  function FilteredPayments(payments: seq<Payment>, f: Filters): (r: seq<Payment>)
    ensures forall p :: p in r <==> p in payments && Keeps(f, p)
    ensures IsSubsequence(r, payments)
  {
    FilterIsSubsequence(payments, (p: Payment) => Keeps(f, p));
    Filter(payments, (p: Payment) => Keeps(f, p))
  }

  /**
   * What the filter keeps: a payment whose id or receipt id contains the
   * term (ignoring case; without a receipt, only the id counts), that
   * covers some selected card when cards are selected, and whose date lies
   * within the bounds, both of them inclusive.
   */
  lemma KeepsExactly(f: Filters, p: Payment)
    ensures Keeps(f, p) <==>
      && (f.searchTerm == "" || Matches(p.id, f.searchTerm)
          || (p.receiptId.Some? && Matches(p.receiptId.value, f.searchTerm)))
      && (f.selectedCardIds == [] || exists k :: 0 <= k < |p.cards| && p.cards[k].cardId in f.selectedCardIds)
      && (f.from.None? || f.from.value <= p.date)
      && (f.to.None? || p.date <= f.to.value)
  {
    var ids := CardIdsOf(p.cards);
    if (exists id :: id in f.selectedCardIds && id in ids) {
      var id :| id in f.selectedCardIds && id in ids;
      var k :| 0 <= k < |ids| && ids[k] == id;
      assert p.cards[k].cardId in f.selectedCardIds;
    }
    if (exists k :: 0 <= k < |p.cards| && p.cards[k].cardId in f.selectedCardIds) {
      var k :| 0 <= k < |p.cards| && p.cards[k].cardId in f.selectedCardIds;
      assert ids[k] in ids;
    }
  }

  /** With no search term, no selected card and no date bound, every payment is shown, in order. */
  lemma NoFiltersKeepAll(payments: seq<Payment>, f: Filters)
    requires f.searchTerm == "" && f.selectedCardIds == [] && f.from.None? && f.to.None?
    ensures FilteredPayments(payments, f) == payments
  {
    FilterAll(payments, (p: Payment) => Keeps(f, p));
  }

  /** `handleCardFilterToggle(cardId)`: drop every occurrence of a selected id, append an unselected one. */
  function Toggled(selected: seq<string>, cardId: string): (r: seq<string>)
    ensures cardId in r <==> cardId !in selected
    ensures forall id :: id != cardId ==> (id in r <==> id in selected)
    ensures cardId !in selected ==> r == selected + [cardId]
    ensures cardId in selected ==> IsSubsequence(r, selected)
  {
    if cardId in selected then
      FilterIsSubsequence(selected, (id: string) => id != cardId);
      Filter(selected, (id: string) => id != cardId)
    else selected + [cardId]
  }

  /** No card id is selected twice. */
  ghost predicate NoDuplicates(s: seq<string>)
  {
    forall i, j :: 0 <= i < j < |s| ==> s[i] != s[j]
  }

  /**
   * Toggling keeps a selection free of duplicates, so the count on the
   * filter button is a number of distinct cards: one more after selecting
   * a card, one fewer after deselecting it.
   */
  lemma ToggledDistinct(selected: seq<string>, cardId: string)
    requires NoDuplicates(selected)
    ensures NoDuplicates(Toggled(selected, cardId))
    ensures |Toggled(selected, cardId)| == if cardId in selected then |selected| - 1 else |selected| + 1
  {
    if cardId in selected {
      FilterDropsOne(selected, cardId, (id: string) => id != cardId);
    }
  }

  lemma {:induction false} FilterDropsOne(s: seq<string>, x: string, p: string -> bool)
    requires NoDuplicates(s)
    requires forall id :: p(id) <==> id != x
    ensures NoDuplicates(Filter(s, p))
    ensures |Filter(s, p)| == if x in s then |s| - 1 else |s|
    decreases |s|
  {
    if s != [] {
      assert NoDuplicates(s[1..]) by {
        forall i, j | 0 <= i < j < |s[1..]| ensures s[1..][i] != s[1..][j] {
          assert s[i + 1] != s[j + 1];
        }
      }
      assert s[0] !in s[1..] by {
        forall k | 0 <= k < |s[1..]| ensures s[1..][k] != s[0] {
          assert s[k + 1] != s[0];
        }
      }
      FilterDropsOne(s[1..], x, p);
      assert x in s <==> x == s[0] || x in s[1..];
    }
  }

  /** Toggling an unselected card twice restores the selection. */
  lemma ToggleTwice(selected: seq<string>, cardId: string)
    requires cardId !in selected
    ensures Toggled(Toggled(selected, cardId), cardId) == selected
  {
    var p := (id: string) => id != cardId;
    FilterAppendDropped(selected, cardId, p);
    FilterAll(selected, p);
  }

  lemma {:induction false} FilterAppendDropped(s: seq<string>, x: string, p: string -> bool)
    requires !p(x)
    ensures Filter(s + [x], p) == Filter(s, p)
    decreases |s|
  {
    if s == [] {
      assert [] + [x] == [x];
      assert Filter([x], p) == Filter([x][1..], p);
    } else {
      assert (s + [x])[0] == s[0] && (s + [x])[1..] == s[1..] + [x];
      FilterAppendDropped(s[1..], x, p);
    }
  }

  /** The selection after a toggle, the rest of the filters as they were. */
  function ToggleCard(f: Filters, cardId: string): Filters
  {
    f.(selectedCardIds := Toggled(f.selectedCardIds, cardId))
  }

  /** `clearFilters`: no selected cards, no date bounds, the panel closed; the search term stays. */
  function ClearFilters(f: Filters): Filters
  {
    f.(selectedCardIds := [], from := None, to := None, showFilter := false)
  }

  /** After clearing, only the search term filters, and the filter button shows no count. */
  lemma ClearedFilters(payments: seq<Payment>, f: Filters)
    ensures FilteredPayments(payments, ClearFilters(f))
      == FilteredPayments(payments, NoFilters.(searchTerm := f.searchTerm))
    ensures ClearFilters(f).searchTerm == f.searchTerm && !ClearFilters(f).showFilter
    ensures FilterCount(ClearFilters(f)) == None
  {
    var g := NoFilters.(searchTerm := f.searchTerm);
    var h := ClearFilters(f);
    FilterSameKeeps(payments, h, g);
  }

  lemma {:induction false} FilterSameKeeps(payments: seq<Payment>, f: Filters, g: Filters)
    requires forall p :: Keeps(f, p) == Keeps(g, p)
    ensures FilteredPayments(payments, f) == FilteredPayments(payments, g)
    decreases |payments|
  {
    if payments != [] {
      FilterSameKeeps(payments[1..], f, g);
    }
  }

  /**
   * The count on the filter button: shown only while a card is selected or
   * a date bound is set, and then the number of selected cards plus one
   * for the date range.
   */
  function FilterCount(f: Filters): (r: Option<nat>)
    ensures r.None? <==> f.selectedCardIds == [] && f.from.None? && f.to.None?
    ensures r.Some? ==> 1 <= r.value <= |f.selectedCardIds| + 1
    ensures r.Some? ==> r.value - |f.selectedCardIds| == (if f.from.Some? || f.to.Some? then 1 else 0)
  {
    if |f.selectedCardIds| > 0 || f.from.Some? || f.to.Some? then
      Some(|f.selectedCardIds| + (if f.from.Some? || f.to.Some? then 1 else 0))
    else None
  }
}
