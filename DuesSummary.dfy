/**
 * The payment summary panel (`DuesSummary`): the two totals, the list of
 * upcoming dues in due-date order, and the doughnut chart of the cards'
 * total dues in the order the cards were given.
 */
module DuesSummary {
  import opened Seqs
  import opened Cards

  /** The chart's labels, data and colours, one entry per card. */
  datatype Chart = Chart(labels: seq<string>, data: seq<real>, colors: seq<string>, borders: seq<string>)

  datatype Summary = Summary(totalDue: real, totalMinimumDue: real, upcoming: seq<Card>, chart: Chart)

  function CardNameOf(c: Card): string { c.cardName }
  function ColorOf(c: Card): string { c.color }
  function Id(x: real): real { x }

  /** `chartData`: the cards' names, total dues and colours, and a white border per card. */
  function ChartOf(cards: seq<Card>): Chart
  {
    Chart(MapSeq(cards, CardNameOf), MapSeq(cards, TotalDueOf), MapSeq(cards, ColorOf),
          MapSeq(cards, (c: Card) => "#ffffff"))
  }

  /** The panel for `cards`; the upcoming list sorts a copy, so `cards` keeps its order. */
  function SummaryOf(cards: seq<Card>): Summary
  {
    Summary(TotalDue(cards), TotalMinimumDue(cards), SortByDueDate(cards), ChartOf(cards))
  }

  /**
   * The upcoming list holds the same cards, earliest due first; for cards
   * with `0 <= minimumDue <= totalDue` the minimum total lies between zero
   * and the total due.
   */
  lemma SummaryLists(cards: seq<Card>)
    ensures var r := SummaryOf(cards);
      && multiset(r.upcoming) == multiset(cards)
      && |r.upcoming| == |cards|
      && DueOrdered(r.upcoming)
    ensures ConsistentDues(cards) ==> 0.0 <= SummaryOf(cards).totalMinimumDue <= SummaryOf(cards).totalDue
  {
    SortByDueDateFacts(cards);
    if ConsistentDues(cards) {
      DueSumsOrdered(cards);
    }
  }

  /**
   * The chart follows the given order, not the sorted one: entry `k` of each
   * array belongs to `cards[k]`, and the slices add up to the total shown.
   */
  lemma ChartAligned(cards: seq<Card>)
    ensures var c := SummaryOf(cards).chart;
      && |c.labels| == |cards| && |c.data| == |cards| && |c.colors| == |cards| && |c.borders| == |cards|
      && (forall k :: 0 <= k < |cards| ==>
            c.labels[k] == cards[k].cardName && c.data[k] == cards[k].totalDue
            && c.colors[k] == cards[k].color && c.borders[k] == "#ffffff")
      && SumOf(c.data, Id) == SummaryOf(cards).totalDue
  {
    MappedSum(cards);
  }

  lemma {:induction false} MappedSum(cards: seq<Card>)
    ensures SumOf(MapSeq(cards, TotalDueOf), Id) == TotalDue(cards)
    decreases |cards|
  {
    if cards != [] {
      MappedSum(cards[1..]);
      assert MapSeq(cards, TotalDueOf)[1..] == MapSeq(cards[1..], TotalDueOf);
    }
  }
}
