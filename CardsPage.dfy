/**
 * The cards page (`CardsPage`): the search over the store's cards, the
 * card-number formatter of the add-card form, and the add-card form itself.
 *
 * The form's date field holds either nothing (the empty string) or a date,
 * represented by its timestamp; the number fields hold what
 * `parseFloat(text) || 0` gives, so an empty or unparsable entry is 0.
 */
module CardsPage {
  import opened Wrappers
  import opened Seqs
  import opened Cards
  import opened JsNumber
  import opened JsText
  import opened CardStore

  // ---------------------------------------------------------------------------
  // Search.

  /** The card name or the bank name contains the term, ignoring case. */
  predicate SearchHit(c: Card, term: string)
  {
    Matches(c.cardName, term) || Matches(c.bankName, term)
  }

  /** `filteredCards`: the cards the search term hits, in the store's order. */
  function FilteredCards(cards: seq<Card>, term: string): (r: seq<Card>)
    ensures forall c :: c in r <==> c in cards && SearchHit(c, term)
    ensures IsSubsequence(r, cards)
  {
    FilterIsSubsequence(cards, (c: Card) => SearchHit(c, term));
    Filter(cards, (c: Card) => SearchHit(c, term))
  }

  /** An empty search term shows every card, in order. */
  lemma SearchEmptyKeepsAll(cards: seq<Card>)
    ensures FilteredCards(cards, "") == cards
  {
    forall c | c in cards ensures SearchHit(c, "") {
      assert Lower("") == "";
      IncludesEmpty(Lower(c.cardName));
    }
    FilterAll(cards, (c: Card) => SearchHit(c, ""));
  }

  // ---------------------------------------------------------------------------
  // The card-number formatter.

  /**
   * `(v.match(/\d{4,16}/g) && matches[0]) || ''` on a string of digits: the
   * first run of 4 to 16 digits is the first 16 digits, or nothing at all
   * when there are fewer than 4.
   */
  function FirstRun(v: string): (r: string)
    requires AllDigits(v)
  {
    if |v| < 4 then "" else v[..MinInt(16, |v|)]
  }

  /** The pieces `m.substring(i, i + 4)` for `i = from, from + 4, …` below `|m|`. */
  function Chunks(m: string, from: nat): seq<string>
    decreases |m| - from
  {
    if from >= |m| then [] else [m[from..MinInt(from + 4, |m|)]] + Chunks(m, from + 4)
  }

  /** `formatCardNumber(value)`. */
  function FormattedCardNumber(value: string): string
  {
    var parts := Chunks(FirstRun(KeepDigits(value)), 0);
    if |parts| > 0 then Join(parts, " ") else value
  }

  /** `formatCardNumber`, with its `for` loop stepping by 4. */
  method FormatCardNumber(value: string) returns (r: string)
    ensures r == FormattedCardNumber(value)
  {
    var v := KeepDigits(value);
    var run := FirstRun(v);
    var parts: seq<string> := [];
    var i: nat := 0;
    while i < |run|
      invariant parts + Chunks(run, i) == Chunks(run, 0)
      decreases |run| - i
    {
      parts := parts + [run[i..MinInt(i + 4, |run|)]];
      i := i + 4;
    }
    assert parts == Chunks(run, 0);
    if |parts| > 0 {
      r := Join(parts, " ");
    } else {
      r := value;
    }
  }

  /** `parts.join('')`. */
  function Concat(parts: seq<string>): string
    decreases |parts|
  {
    if parts == [] then "" else parts[0] + Concat(parts[1..])
  }

  /** Groups of four digits, the last one of one to four. */
  ghost predicate DigitGroups(gs: seq<string>)
  {
    && |gs| > 0
    && (forall k :: 0 <= k < |gs| ==> AllDigits(gs[k]) && 1 <= |gs[k]| <= 4)
    && (forall k :: 0 <= k < |gs| - 1 ==> |gs[k]| == 4)
  }

  /** The chunks of a run of digits are digit groups that spell the run out again. */
  lemma {:induction false} ChunksGroups(m: string, from: nat)
    requires AllDigits(m) && from < |m|
    ensures DigitGroups(Chunks(m, from))
    ensures Concat(Chunks(m, from)) == m[from..]
    ensures |Chunks(m, from)| == (|m| - from + 3) / 4
    decreases |m| - from
  {
    var head := m[from..MinInt(from + 4, |m|)];
    assert AllDigits(head) by {
      forall i | 0 <= i < |head| ensures IsDigit(head[i]) {
        assert head[i] == m[from + i];
      }
    }
    if from + 4 < |m| {
      ChunksGroups(m, from + 4);
      var rest := Chunks(m, from + 4);
      assert Chunks(m, from) == [head] + rest;
      assert m[from..] == head + m[from + 4..];
    } else {
      assert Chunks(m, from + 4) == [];
      assert Chunks(m, from) == [head];
    }
  }

  /** Joining with a one-character separator adds one character per gap. */
  lemma {:induction false} JoinLength(gs: seq<string>, sep: string)
    requires |gs| > 0
    ensures |Join(gs, sep)| == |Concat(gs)| + (|gs| - 1) * |sep|
    decreases |gs|
  {
    if |gs| > 1 {
      JoinLength(gs[1..], sep);
    }
  }

  /** Joining digit groups with spaces keeps exactly the groups' digits. */
  lemma {:induction false} JoinDigitGroups(gs: seq<string>)
    requires forall k :: 0 <= k < |gs| ==> AllDigits(gs[k])
    ensures KeepDigits(Join(gs, " ")) == Concat(gs)
    decreases |gs|
  {
    if |gs| == 1 {
      assert Concat(gs) == gs[0] + Concat([]);
    } else if |gs| > 1 {
      JoinDigitGroups(gs[1..]);
      var tail := Join(gs[1..], " ");
      KeepDigitsAppend(gs[0] + " ", tail);
      KeepDigitsAppend(gs[0], " ");
      assert KeepDigits(" ") == "";
      assert Join(gs, " ") == gs[0] + " " + tail;
    }
  }

  /** Joining digit groups with spaces gives only digits and spaces. */
  lemma {:induction false} JoinDigitsAndSpaces(gs: seq<string>)
    requires forall k :: 0 <= k < |gs| ==> AllDigits(gs[k])
    ensures forall i :: 0 <= i < |Join(gs, " ")| ==> IsDigit(Join(gs, " ")[i]) || Join(gs, " ")[i] == ' '
    decreases |gs|
  {
    if |gs| > 1 {
      JoinDigitsAndSpaces(gs[1..]);
      var tail := Join(gs[1..], " ");
      var r := Join(gs, " ");
      assert r == gs[0] + " " + tail;
      forall i | 0 <= i < |r| ensures IsDigit(r[i]) || r[i] == ' ' {
        if i < |gs[0]| {
          assert r[i] == gs[0][i];
        } else if i > |gs[0]| {
          assert r[i] == tail[i - |gs[0]| - 1];
        }
      }
    }
  }

  /**
   * With fewer than 4 digits the input comes back unchanged; otherwise the
   * output is the first 16 digits (or all of them) in groups of four, the
   * last of one to four, joined by single spaces: only digits and spaces,
   * its digits those first digits in order, and at most 19 characters long.
   */
  lemma FormattedShape(value: string)
    ensures var n := KeepDigits(value);
      |n| < 4 ==> FormattedCardNumber(value) == value
    ensures var n := KeepDigits(value);
      var r := FormattedCardNumber(value);
      var gs := Chunks(n[..MinInt(16, |n|)], 0);
      |n| >= 4 ==>
        && r == Join(gs, " ")
        && DigitGroups(gs) && Concat(gs) == n[..MinInt(16, |n|)]
        && KeepDigits(r) == n[..MinInt(16, |n|)]
        && (forall i :: 0 <= i < |r| ==> IsDigit(r[i]) || r[i] == ' ')
        && |r| == MinInt(16, |n|) + |gs| - 1 <= 19
  {
    if |KeepDigits(value)| >= 4 {
      FormattedLong(value, KeepDigits(value));
    }
  }

  lemma FormattedLong(value: string, n: string)
    requires n == KeepDigits(value) && |n| >= 4
    ensures var r := FormattedCardNumber(value);
      var gs := Chunks(n[..MinInt(16, |n|)], 0);
      && r == Join(gs, " ")
      && DigitGroups(gs) && Concat(gs) == n[..MinInt(16, |n|)]
      && KeepDigits(r) == n[..MinInt(16, |n|)]
      && (forall i :: 0 <= i < |r| ==> IsDigit(r[i]) || r[i] == ' ')
      && |r| == MinInt(16, |n|) + |gs| - 1 <= 19
  {
    var run := n[..MinInt(16, |n|)];
    assert AllDigits(run) by {
      forall i | 0 <= i < |run| ensures IsDigit(run[i]) {
        assert run[i] == n[i];
      }
    }
    ChunksGroups(run, 0);
    var gs := Chunks(run, 0);
    assert run[0..] == run;
    assert FirstRun(n) == run;
    assert FormattedCardNumber(value) == Join(gs, " ");
    JoinLength(gs, " ");
    JoinDigitGroups(gs);
    JoinDigitsAndSpaces(gs);
  }

  /** Formatting an already formatted number changes nothing. */
  lemma FormatIdempotent(value: string)
    ensures FormattedCardNumber(FormattedCardNumber(value)) == FormattedCardNumber(value)
  {
    var n := KeepDigits(value);
    FormattedShape(value);
    if |n| >= 4 {
      var r := FormattedCardNumber(value);
      var run := n[..MinInt(16, |n|)];
      assert KeepDigits(r) == run;
      assert FirstRun(run) == run;
    }
  }

  // ---------------------------------------------------------------------------
  // The add-card form.

  /** The form's `Partial<CreditCard>`: an empty date field is `None`. */
  datatype CardForm = CardForm(
    cardName: string,
    bankName: string,
    cardNumber: string,
    expiryDate: string,
    dueDate: Option<int>,
    totalDue: real,
    minimumDue: real,
    color: string)

  /** The blank form the page starts with and returns to after adding a card. */
  const EmptyForm: CardForm := CardForm("", "", "", "", None, 0.0, 0.0, "#0F52BA")

  /** The validation that refuses to add: a required field is empty or the total due is 0. */
  predicate Incomplete(f: CardForm)
  {
    f.cardName == "" || f.bankName == "" || f.cardNumber == "" || f.expiryDate == ""
      || f.dueDate.None? || f.totalDue == 0.0
  }

  /**
   * `newCard.minimumDue || Math.round(newCard.totalDue * 0.05)`: an entered
   * minimum due is kept; a missing one (0) becomes 5% of the total due,
   * rounded to a whole amount.
   */
  function MinimumDueOrDefault(f: CardForm): (r: real)
    ensures f.minimumDue != 0.0 ==> r == f.minimumDue
    ensures f.minimumDue == 0.0 ==> r == r.Floor as real && f.totalDue * 0.05 - 0.5 < r <= f.totalDue * 0.05 + 0.5
  {
    if f.minimumDue != 0.0 then f.minimumDue else Round(f.totalDue * 0.05) as real
  }

  /** The default minimum due of a non-negative total due lies between 0 and the total due. */
  lemma DefaultMinimumConsistent(f: CardForm)
    requires f.minimumDue == 0.0 && f.totalDue >= 0.0
    ensures 0.0 <= MinimumDueOrDefault(f) <= f.totalDue
  {
    var r := MinimumDueOrDefault(f);
    if f.totalDue < 10.0 {
      assert r < 1.0;
    }
  }

  /** What `addCard` receives from a complete form. */
  function Details(f: CardForm): (d: CardDetails)
    requires !Incomplete(f)
    ensures d.dueDate == f.dueDate.value && d.minimumDue == MinimumDueOrDefault(f)
    ensures d.cardName == f.cardName && d.bankName == f.bankName && d.cardNumber == f.cardNumber
    ensures d.expiryDate == f.expiryDate && d.totalDue == f.totalDue && d.color == f.color
  {
    CardDetails(f.cardName, f.bankName, f.cardNumber, f.expiryDate, f.dueDate.value,
                f.totalDue, MinimumDueOrDefault(f), f.color)
  }

  /** The page's own state: the search term, whether the form is open, and the form. */
  class Page {
    var searchTerm: string
    var showAddCard: bool
    var newCard: CardForm

    constructor()
      ensures searchTerm == "" && !showAddCard && newCard == EmptyForm
    {
      searchTerm := "";
      showAddCard := false;
      newCard := EmptyForm;
    }

    /** The cards on show for the current search term. */
    function Visible(cards: seq<Card>): (r: seq<Card>)
      reads this
      ensures IsSubsequence(r, cards)
      ensures forall c :: c in r <==> c in cards && SearchHit(c, searchTerm)
    {
      FilteredCards(cards, searchTerm)
    }

    /** `handleCardNumberChange`: the number field holds the formatted input. */
    method HandleCardNumberChange(value: string)
      modifies this
      ensures newCard == old(newCard).(cardNumber := FormattedCardNumber(value))
      ensures searchTerm == old(searchTerm) && showAddCard == old(showAddCard)
    {
      var formattedValue := FormatCardNumber(value);
      newCard := newCard.(cardNumber := formattedValue);
    }

    /**
     * `handleAddCard`: an incomplete form changes nothing; a complete one
     * is handed to the store with its minimum due defaulted, and the form
     * is reset and closed.
     */
    method HandleAddCard(store: CardStore, now: nat)
      modifies this, store
      ensures searchTerm == old(searchTerm)
      ensures store.user == old(store.user) && store.payments == old(store.payments)
      ensures store.loading == old(store.loading)
      ensures Incomplete(old(newCard)) ==>
        newCard == old(newCard) && showAddCard == old(showAddCard) && store.cards == old(store.cards)
      ensures !Incomplete(old(newCard)) ==>
        && newCard == EmptyForm && !showAddCard
        && store.cards == (if old(store.user).None? then old(store.cards)
                           else old(store.cards) + [NewCard(Details(old(newCard)), "card-" + NatToString(now), old(store.user).value)])
    {
      if Incomplete(newCard) {
        return;
      }
      store.AddCard(Details(newCard), now);
      newCard := EmptyForm;
      showAddCard := false;
    }
  }
}
