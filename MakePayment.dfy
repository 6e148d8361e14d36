/**
 * The payment page (`MakePaymentPage`): its own split of a consolidated
 * amount over the cards, the per-card amount editor, the initial state
 * taken from the navigation state, and the request it submits.
 *
 * The consolidated split differs from the card store's allocator:
 *
 *  1. Walking the cards in the store's order, every card receives
 *     `min(minimumDue, remaining)`, which is 0 once the money is gone, so
 *     every card gets an entry.
 *  2. Walking a copy sorted by total due, largest first, every card is
 *     topped up with as much of the rest as it still owes, until nothing
 *     is left.
 *
 * A number field's text is passed in as `Option<real>`: `None` is the
 * empty string a number input reports for a blank or unparsable entry.
 */
module MakePayment {
  import opened Wrappers
  import opened Seqs
  import opened Dict
  import opened Cards
  import opened JsNumber
  import opened Allocation
  import opened CardStore

  /** The ids of the cards, in order. */
  function Ids(s: seq<Card>): (r: seq<string>)
    ensures |r| == |s| && forall i :: 0 <= i < |s| ==> r[i] == s[i].id
    decreases |s|
  {
    if s == [] then [] else [s[0].id] + Ids(s[1..])
  }

  // ---------------------------------------------------------------------------
  // Specification of the consolidated split, step by step.

  /** `cards.forEach(c => (reset[c.id] = 0))`. */
  function ZeroOut(s: seq<Card>, d: Dict): Dict
    decreases |s|
  {
    if s == [] then d else ZeroOut(s[1..], Set(d, s[0].id, 0.0))
  }

  /** Phase 1: `payMin = Math.min(card.minimumDue, remaining)` for every card, in order. */
  function PayMinimums(s: seq<Card>, remaining: real, d: Dict): (Dict, real)
    decreases |s|
  {
    if s == [] then (d, remaining)
    else
      var x := Min(s[0].minimumDue, remaining);
      PayMinimums(s[1..], remaining - x, Set(d, s[0].id, x))
  }

  /** Phase 2: each card is topped up by `Math.min(totalDue - already, remaining)`. */
  function PayLargest(s: seq<Card>, remaining: real, d: Dict): (Dict, real)
    decreases |s|
  {
    if s == [] then (d, remaining)
    else if remaining <= 0.0 then PayLargest(s[1..], remaining, d)
    else
      var already := Get(d, s[0].id);
      var extra := Min(s[0].totalDue - already, remaining);
      PayLargest(s[1..], remaining - extra, Set(d, s[0].id, already + extra))
  }

  function LargestFirstKey(c: Card): real { -c.totalDue }

  /** `cards.slice().sort((a, b) => b.totalDue - a.totalDue)`. */
  function ByLargestBalance(cards: seq<Card>): seq<Card>
  {
    SortBy(cards, LargestFirstKey)
  }

  /** `handleConsolidatedAmountChange`'s `cardPayments` for the parsed amount. */
  function ConsolidatedSplit(cards: seq<Card>, amount: real): Dict
  {
    if amount <= 0.0 then ZeroOut(cards, [])
    else
      var (d, remaining) := PayMinimums(cards, amount, []);
      PayLargest(ByLargestBalance(cards), remaining, d).0
  }

  // ---------------------------------------------------------------------------
  // The consolidated split as the page computes it.

  /** The body of `handleConsolidatedAmountChange` after parsing: the loops that build `byId`. */
  method ConsolidatedSplitLoop(cards: seq<Card>, amount: real) returns (byId: Dict)
    ensures byId == ConsolidatedSplit(cards, amount)
  {
    if amount <= 0.0 {
      byId := ZeroOutLoop(cards);
      return;
    }
    var remaining;
    byId, remaining := MinimumsLoop(cards, amount);
    var byBalance := ByLargestBalance(cards);
    byId, remaining := LargestLoop(byBalance, remaining, byId);
  }

  /** `cards.forEach(c => (reset[c.id] = 0))` on an empty object. */
  method ZeroOutLoop(cards: seq<Card>) returns (byId: Dict)
    ensures byId == ZeroOut(cards, [])
  {
    byId := [];
    var i := 0;
    while i < |cards|
      invariant 0 <= i <= |cards|
      invariant ZeroOut(cards[i..], byId) == ZeroOut(cards, [])
    {
      assert cards[i..][0] == cards[i] && cards[i..][1..] == cards[i + 1..];
      byId := Set(byId, cards[i].id, 0.0);
      i := i + 1;
    }
  }

  /** Phase 1's `for` loop, starting from an empty object and the whole amount. */
  method MinimumsLoop(cards: seq<Card>, amount: real) returns (byId: Dict, remaining: real)
    ensures (byId, remaining) == PayMinimums(cards, amount, [])
  {
    byId, remaining := [], amount;
    var i := 0;
    while i < |cards|
      invariant 0 <= i <= |cards|
      invariant PayMinimums(cards[i..], remaining, byId) == PayMinimums(cards, amount, [])
    {
      var card := cards[i];
      assert cards[i..][0] == card && cards[i..][1..] == cards[i + 1..];
      var payMin := Min(card.minimumDue, remaining);
      byId := Set(byId, card.id, payMin);
      remaining := remaining - payMin;
      i := i + 1;
    }
  }

  /** Phase 2's `for` loop over the sorted copy. */
  method LargestLoop(byBalance: seq<Card>, amount: real, d: Dict) returns (byId: Dict, remaining: real)
    ensures (byId, remaining) == PayLargest(byBalance, amount, d)
  {
    byId, remaining := d, amount;
    var j := 0;
    while j < |byBalance|
      invariant 0 <= j <= |byBalance|
      invariant PayLargest(byBalance[j..], remaining, byId) == PayLargest(byBalance, amount, d)
    {
      var card := byBalance[j];
      assert byBalance[j..][0] == card && byBalance[j..][1..] == byBalance[j + 1..];
      if remaining > 0.0 {
        var already := Get(byId, card.id);
        var canPayMore := card.totalDue - already;
        var extra := Min(canPayMore, remaining);
        byId := Set(byId, card.id, already + extra);
        remaining := remaining - extra;
      }
      j := j + 1;
    }
  }

  // ---------------------------------------------------------------------------
  // Sums and arithmetic shared by both phases.

  /** Paying `min(cap, r)` out of `r` and then greedily out of the rest. */
  lemma CapThenRest(cap: real, r: real, rest: real)
    requires cap >= 0.0 && r >= 0.0 && rest >= 0.0
    ensures r - Min(cap, r) >= 0.0
    ensures Max(r - Min(cap, r) - rest, 0.0) == Max(r - (cap + rest), 0.0)
  {
  }

  /** What is left for a later card does not depend on how the pool is split up before it. */
  lemma PoolShift(cap: real, r: real, x: real, before: real, total: real)
    requires cap >= 0.0 && r >= 0.0 && before >= 0.0
    requires x == Min(cap, r) && total == cap + before
    ensures Max(r - x - before, 0.0) == Max(r - total, 0.0)
  {
  }

  /** The prefix sum before position j split into the first card and the rest. */
  lemma PrefixTail(s: seq<Card>, f: Card -> real, j: nat)
    requires forall c :: c in s ==> f(c) >= 0.0
    requires 0 < j < |s|
    ensures s[1..][j - 1] == s[j]
    ensures SumOf(s[..j], f) == f(s[0]) + SumOf(s[1..][..j - 1], f)
    ensures SumOf(s[1..][..j - 1], f) >= 0.0
  {
    SumOfPrefixTail(s, f, j);
    assert forall c :: c in s[1..] ==> c in s;
    SumOfPrefixBounds(s[1..], f, j - 1, j - 1);
  }

  /** The cards after the first: still well formed, and not sharing the first one's id. */
  lemma WellFormedTail(s: seq<Card>)
    requires WellFormed(s) && s != []
    ensures WellFormed(s[1..]) && NotAnIdOf(s[1..], s[0].id)
    ensures forall c :: c in s[1..] ==> c in s
  {
    DistinctTail(s);
    assert forall c :: c in s[1..] ==> c in s;
  }

  // ---------------------------------------------------------------------------
  // The zero-out.

  /** Every value of `d` is zero. */
  ghost predicate AllZero(d: Dict)
  {
    forall i :: 0 <= i < |d| ==> d[i].value == 0.0
  }

  lemma {:induction false} ZeroOutFacts(s: seq<Card>, d: Dict)
    requires AllZero(d)
    ensures AllZero(ZeroOut(s, d))
    ensures forall c :: c in s ==> HasKey(ZeroOut(s, d), c.id)
    ensures forall k :: HasKey(d, k) ==> HasKey(ZeroOut(s, d), k)
    decreases |s|
  {
    if s != [] {
      var d' := Set(d, s[0].id, 0.0);
      assert AllZero(d');
      SetSame(d, s[0].id, 0.0);
      forall k | HasKey(d, k) ensures HasKey(d', k) {
        if k != s[0].id {
          SetOther(d, s[0].id, 0.0, k);
        }
      }
      ZeroOutFacts(s[1..], d');
      assert forall c :: c in s ==> c == s[0] || c in s[1..];
    }
  }

  lemma {:induction false} ZeroOutKeys(s: seq<Card>, d: Dict)
    requires DistinctIds(s) && NoEntries(s, d)
    ensures Keys(ZeroOut(s, d)) == Keys(d) + Ids(s)
    decreases |s|
  {
    if s == [] {
      assert Keys(d) + Ids(s) == Keys(d);
    } else {
      var d' := Set(d, s[0].id, 0.0);
      assert !HasKey(d, s[0].id) by { assert s[0] in s; }
      SetKeys(d, s[0].id, 0.0);
      NoEntriesAfterSet(s, d, 0.0);
      ZeroOutKeys(s[1..], d');
      AppendId(Keys(d), s);
    }
  }

  lemma {:induction false} SumValuesAllZero(d: Dict)
    requires AllZero(d)
    ensures SumValues(d) == 0.0
    decreases |d|
  {
    if d != [] {
      SumValuesAllZero(d[1..]);
    }
  }

  lemma GetAllZero(d: Dict, k: string)
    requires AllZero(d)
    ensures Get(d, k) == 0.0
  {
  }

  // ---------------------------------------------------------------------------
  // Phase 1.

  lemma {:induction false} MinimumsFrame(s: seq<Card>, remaining: real, d: Dict, k: string)
    requires NotAnIdOf(s, k)
    ensures Lookup(PayMinimums(s, remaining, d).0, k) == Lookup(d, k)
    decreases |s|
  {
    if s != [] {
      var x := Min(s[0].minimumDue, remaining);
      assert forall c :: c in s[1..] ==> c in s;
      MinimumsFrame(s[1..], remaining - x, Set(d, s[0].id, x), k);
      SetOther(d, s[0].id, x, k);
    }
  }

  /** Left after phase 1: the amount less all minimum dues, or nothing. */
  lemma {:induction false} MinimumsLeft(s: seq<Card>, remaining: real, d: Dict)
    requires ConsistentDues(s) && remaining >= 0.0
    ensures PayMinimums(s, remaining, d).1 == Max(remaining - TotalMinimumDue(s), 0.0)
    decreases |s|
  {
    if s != [] {
      var x := Min(s[0].minimumDue, remaining);
      assert forall c :: c in s[1..] ==> c in s;
      SumOfNonNegative(s[1..], MinimumDueOf);
      CapThenRest(s[0].minimumDue, remaining, TotalMinimumDue(s[1..]));
      MinimumsLeft(s[1..], remaining - x, Set(d, s[0].id, x));
    }
  }

  /**
   * The card at position j receives its minimum due or what the cards
   * before it left over, whichever is smaller.
   */
  lemma {:induction false} MinimumsEntry(s: seq<Card>, remaining: real, d: Dict, j: nat)
    requires WellFormed(s) && remaining >= 0.0 && j < |s|
    ensures HasKey(PayMinimums(s, remaining, d).0, s[j].id)
    ensures Get(PayMinimums(s, remaining, d).0, s[j].id)
      == Min(s[j].minimumDue, Max(remaining - SumOf(s[..j], MinimumDueOf), 0.0))
    decreases j, 1
  {
    if j == 0 {
      MinimumsEntryFirst(s, remaining, d);
    } else {
      MinimumsEntryLater(s, remaining, d, j);
    }
  }

  lemma MinimumsEntryFirst(s: seq<Card>, remaining: real, d: Dict)
    requires WellFormed(s) && remaining >= 0.0 && s != []
    ensures HasKey(PayMinimums(s, remaining, d).0, s[0].id)
    ensures Get(PayMinimums(s, remaining, d).0, s[0].id) == Min(s[0].minimumDue, Max(remaining - SumOf(s[..0], MinimumDueOf), 0.0))
  {
    var x := Min(s[0].minimumDue, remaining);
    var d' := Set(d, s[0].id, x);
    assert PayMinimums(s, remaining, d) == PayMinimums(s[1..], remaining - x, d');
    WellFormedTail(s);
    MinimumsFrame(s[1..], remaining - x, d', s[0].id);
    SetSame(d, s[0].id, x);
    assert s[..0] == [];
  }

  lemma {:induction false} MinimumsEntryLater(s: seq<Card>, remaining: real, d: Dict, j: nat)
    requires WellFormed(s) && remaining >= 0.0 && 0 < j < |s|
    ensures HasKey(PayMinimums(s, remaining, d).0, s[j].id)
    ensures Get(PayMinimums(s, remaining, d).0, s[j].id)
      == Min(s[j].minimumDue, Max(remaining - SumOf(s[..j], MinimumDueOf), 0.0))
    decreases j, 0
  {
    var x := Min(s[0].minimumDue, remaining);
    var d' := Set(d, s[0].id, x);
    var t := s[1..];
    MinimumsUnfold(s, remaining, d);
    assert PayMinimums(s, remaining, d).0 == PayMinimums(t, remaining - x, d').0;
    MinimumsTail(s, remaining, j);
    MinimumsEntry(t, remaining - x, d', j - 1);
    var g := Get(PayMinimums(t, remaining - x, d').0, t[j - 1].id);
    var m := Max(remaining - x - SumOf(t[..j - 1], MinimumDueOf), 0.0);
    assert g == Min(t[j - 1].minimumDue, m);
    assert g == Get(PayMinimums(s, remaining, d).0, s[j].id);
    assert m == Max(remaining - SumOf(s[..j], MinimumDueOf), 0.0);
  }

  /** What phase 1 leaves after the first card, seen from card `j` of the rest. */
  lemma MinimumsTail(s: seq<Card>, remaining: real, j: nat)
    requires WellFormed(s) && remaining >= 0.0 && 0 < j < |s|
    ensures WellFormed(s[1..]) && remaining - Min(s[0].minimumDue, remaining) >= 0.0 && s[1..][j - 1] == s[j]
    ensures Max(remaining - Min(s[0].minimumDue, remaining) - SumOf(s[1..][..j - 1], MinimumDueOf), 0.0)
      == Max(remaining - SumOf(s[..j], MinimumDueOf), 0.0)
  {
    assert s[0] in s;
    WellFormedTail(s);
    PrefixTail(s, MinimumDueOf, j);
    CapThenRest(s[0].minimumDue, remaining, SumOf(s[1..][..j - 1], MinimumDueOf));
  }

  /** One step of phase 1. */
  lemma MinimumsUnfold(s: seq<Card>, remaining: real, d: Dict)
    requires s != []
    ensures PayMinimums(s, remaining, d)
      == PayMinimums(s[1..], remaining - Min(s[0].minimumDue, remaining), Set(d, s[0].id, Min(s[0].minimumDue, remaining)))
  {
  }

  lemma {:induction false} MinimumsKeys(s: seq<Card>, remaining: real, d: Dict)
    requires DistinctIds(s) && NoEntries(s, d)
    ensures Keys(PayMinimums(s, remaining, d).0) == Keys(d) + Ids(s)
    decreases |s|
  {
    if s == [] {
      assert Keys(d) + Ids(s) == Keys(d);
    } else {
      var x := Min(s[0].minimumDue, remaining);
      var d' := Set(d, s[0].id, x);
      assert PayMinimums(s, remaining, d) == PayMinimums(s[1..], remaining - x, d');
      assert !HasKey(d, s[0].id) by { assert s[0] in s; }
      SetKeys(d, s[0].id, x);
      NoEntriesAfterSet(s, d, x);
      MinimumsKeys(s[1..], remaining - x, d');
      AppendId(Keys(d), s);
    }
  }

  /** `ks + ids(s)` is `ks` with the first id appended, followed by the other ids. */
  lemma AppendId(ks: seq<string>, s: seq<Card>)
    requires s != []
    ensures ks + Ids(s) == (ks + [s[0].id]) + Ids(s[1..])
  {
  }

  /** Phase 1 moves money from `remaining` into the entries and creates none. */
  lemma {:induction false} MinimumsSum(s: seq<Card>, remaining: real, d: Dict)
    requires DistinctIds(s) && NoEntries(s, d)
    ensures SumValues(PayMinimums(s, remaining, d).0) + PayMinimums(s, remaining, d).1
      == SumValues(d) + remaining
    decreases |s|
  {
    if s != [] {
      var x := Min(s[0].minimumDue, remaining);
      assert s[0] in s;
      MinimumsUnfold(s, remaining, d);
      SumValuesSet(d, s[0].id, x);
      NoEntriesAfterSet(s, d, x);
      MinimumsSum(s[1..], remaining - x, Set(d, s[0].id, x));
    }
  }

  // ---------------------------------------------------------------------------
  // Phase 2.

  /** The cards of `s` whose entry is not exactly their minimum due. */
  function OffMinimum(s: seq<Card>, d: Dict): (r: seq<Card>)
    ensures forall c :: c in r ==> c in s && Get(d, c.id) != c.minimumDue
    decreases |s|
  {
    if s == [] then []
    else if Get(d, s[0].id) == s[0].minimumDue then OffMinimum(s[1..], d)
    else [s[0]] + OffMinimum(s[1..], d)
  }

  /** Every card of `s` holds exactly its minimum due. */
  ghost predicate AtMinimums(s: seq<Card>, d: Dict)
  {
    OffMinimum(s, d) == []
  }

  lemma {:induction false} AtMinimumsAt(s: seq<Card>, d: Dict, c: Card)
    requires AtMinimums(s, d) && c in s
    ensures Get(d, c.id) == c.minimumDue
    decreases |s|
  {
    if c != s[0] {
      AtMinimumsAt(s[1..], d, c);
    }
  }

  lemma {:induction false} AtMinimumsFromAll(s: seq<Card>, d: Dict)
    requires forall c :: c in s ==> Get(d, c.id) == c.minimumDue
    ensures AtMinimums(s, d)
    decreases |s|
  {
    if s != [] {
      assert s[0] in s;
      assert forall c :: c in s[1..] ==> c in s;
      AtMinimumsFromAll(s[1..], d);
    }
  }

  /** Setting an entry for another id keeps the cards at their minimum dues. */
  lemma {:induction false} AtMinimumsOther(s: seq<Card>, d: Dict, k: string, v: real)
    requires AtMinimums(s, d) && NotAnIdOf(s, k)
    ensures AtMinimums(s, Set(d, k, v))
    decreases |s|
  {
    if s != [] {
      assert s[0] in s;
      assert forall c :: c in s[1..] ==> c in s;
      SetOther(d, k, v, s[0].id);
      AtMinimumsOther(s[1..], d, k, v);
    }
  }

  lemma AtMinimumsAfterSet(s: seq<Card>, d: Dict, v: real)
    requires WellFormed(s) && s != [] && AtMinimums(s, d)
    ensures Get(d, s[0].id) == s[0].minimumDue
    ensures WellFormed(s[1..]) && NotAnIdOf(s[1..], s[0].id)
    ensures AtMinimums(s[1..], Set(d, s[0].id, v))
  {
    WellFormedTail(s);
    AtMinimumsOther(s[1..], d, s[0].id, v);
  }

  lemma {:induction false} LargestSkip(s: seq<Card>, remaining: real, d: Dict)
    requires remaining <= 0.0
    ensures PayLargest(s, remaining, d) == (d, remaining)
    decreases |s|
  {
    if s != [] {
      LargestSkip(s[1..], remaining, d);
    }
  }

  lemma {:induction false} LargestFrame(s: seq<Card>, remaining: real, d: Dict, k: string)
    requires NotAnIdOf(s, k)
    ensures Lookup(PayLargest(s, remaining, d).0, k) == Lookup(d, k)
    decreases |s|, 1
  {
    if s != [] {
      if remaining <= 0.0 {
        NotAnIdOfTail(s, k);
        LargestFrame(s[1..], remaining, d, k);
      } else {
        LargestFrameLater(s, remaining, d, k);
      }
    }
  }

  lemma {:induction false} LargestFrameLater(s: seq<Card>, remaining: real, d: Dict, k: string)
    requires s != [] && remaining > 0.0 && NotAnIdOf(s, k)
    ensures Lookup(PayLargest(s, remaining, d).0, k) == Lookup(d, k)
    decreases |s|, 0
  {
    NotAnIdOfTail(s, k);
    var already := Get(d, s[0].id);
    var extra := Min(s[0].totalDue - already, remaining);
    LargestFrame(s[1..], remaining - extra, Set(d, s[0].id, already + extra), k);
    SetOther(d, s[0].id, already + extra, k);
  }

  lemma NotAnIdOfTail(s: seq<Card>, k: string)
    requires s != [] && NotAnIdOf(s, k)
    ensures s[0].id != k && NotAnIdOf(s[1..], k)
  {
    assert s[0] in s;
    assert forall c :: c in s[1..] ==> c in s;
  }

  /** Left after phase 2: what phase 1 left less what the cards still owed, or nothing. */
  lemma {:induction false} LargestLeft(s: seq<Card>, remaining: real, d: Dict)
    requires WellFormed(s) && AtMinimums(s, d) && remaining >= 0.0
    ensures PayLargest(s, remaining, d).1 == Max(remaining - SumOf(s, SlackOf), 0.0)
    decreases |s|, 1
  {
    if s == [] {
    } else if remaining <= 0.0 {
      SumOfNonNegative(s, SlackOf);
      LargestSkip(s, remaining, d);
    } else {
      LargestLeftLater(s, remaining, d);
    }
  }

  lemma {:induction false} LargestLeftLater(s: seq<Card>, remaining: real, d: Dict)
    requires WellFormed(s) && AtMinimums(s, d) && remaining > 0.0 && s != []
    ensures PayLargest(s, remaining, d).1 == Max(remaining - SumOf(s, SlackOf), 0.0)
    decreases |s|, 0
  {
    var extra := Min(SlackOf(s[0]), remaining);
    AtMinimumsAfterSet(s, d, s[0].minimumDue + extra);
    assert s[0] in s;
    LargestLeft(s[1..], remaining - extra, Set(d, s[0].id, s[0].minimumDue + extra));
    SumOfNonNegative(s[1..], SlackOf);
    LargestLeftStep(s, remaining, d);
  }

  /** The step of `LargestLeftLater`, given the claim for the cards after the first. */
  lemma LargestLeftStep(s: seq<Card>, remaining: real, d: Dict)
    requires s != [] && remaining > 0.0
    requires Get(d, s[0].id) == s[0].minimumDue && SlackOf(s[0]) >= 0.0
    requires SumOf(s[1..], SlackOf) >= 0.0
    requires var extra := Min(SlackOf(s[0]), remaining);
      PayLargest(s[1..], remaining - extra, Set(d, s[0].id, s[0].minimumDue + extra)).1
        == Max(remaining - extra - SumOf(s[1..], SlackOf), 0.0)
    ensures PayLargest(s, remaining, d).1 == Max(remaining - SumOf(s, SlackOf), 0.0)
  {
    var extra, d' := LargestFirstStep(s, remaining, d);
    CapThenRest(SlackOf(s[0]), remaining, SumOf(s[1..], SlackOf));
  }

  /** One step of phase 2 on a card that holds its minimum due. */
  lemma LargestFirstStep(s: seq<Card>, remaining: real, d: Dict) returns (extra: real, d': Dict)
    requires s != [] && remaining > 0.0 && Get(d, s[0].id) == s[0].minimumDue
    ensures extra == Min(SlackOf(s[0]), remaining) && remaining - extra >= 0.0
    ensures d' == Set(d, s[0].id, s[0].minimumDue + extra)
    ensures PayLargest(s, remaining, d) == PayLargest(s[1..], remaining - extra, d')
    ensures SumOf(s, SlackOf) == SlackOf(s[0]) + SumOf(s[1..], SlackOf)
  {
    extra := Min(SlackOf(s[0]), remaining);
    d' := Set(d, s[0].id, s[0].minimumDue + extra);
  }

  /**
   * The card at position j of the largest-first walk ends with its minimum
   * due plus what it still owed or what the earlier cards left over,
   * whichever is smaller.
   */
  lemma {:induction false} LargestEntry(s: seq<Card>, remaining: real, d: Dict, j: nat)
    requires WellFormed(s) && AtMinimums(s, d) && remaining >= 0.0 && j < |s|
    ensures Get(PayLargest(s, remaining, d).0, s[j].id)
      == s[j].minimumDue + Min(SlackOf(s[j]), Max(remaining - SumOf(s[..j], SlackOf), 0.0))
    decreases j, 1
  {
    if remaining <= 0.0 {
      LargestEntrySkip(s, remaining, d, j);
    } else if j == 0 {
      LargestEntryFirst(s, remaining, d);
    } else {
      LargestEntryLater(s, remaining, d, j);
    }
  }

  lemma LargestEntrySkip(s: seq<Card>, remaining: real, d: Dict, j: nat)
    requires WellFormed(s) && AtMinimums(s, d) && remaining <= 0.0 && j < |s|
    ensures Get(PayLargest(s, remaining, d).0, s[j].id)
      == s[j].minimumDue + Min(SlackOf(s[j]), Max(remaining - SumOf(s[..j], SlackOf), 0.0))
  {
    AtMinimumsAt(s, d, s[j]);
    LargestSkip(s, remaining, d);
    SumOfPrefixBounds(s, SlackOf, j, j);
  }

  lemma LargestEntryFirst(s: seq<Card>, remaining: real, d: Dict)
    requires WellFormed(s) && AtMinimums(s, d) && remaining > 0.0 && s != []
    ensures Get(PayLargest(s, remaining, d).0, s[0].id)
      == s[0].minimumDue + Min(SlackOf(s[0]), Max(remaining - SumOf(s[..0], SlackOf), 0.0))
  {
    assert s[0] in s;
    var extra, d' := LargestFirstStep(s, remaining, d);
    DistinctTail(s);
    LargestFrame(s[1..], remaining - extra, d', s[0].id);
    SetSame(d, s[0].id, s[0].minimumDue + extra);
  }

  /** A later card: what phase 2 does after the first card has been topped up. */
  lemma {:induction false} LargestEntryLater(s: seq<Card>, remaining: real, d: Dict, j: nat)
    requires WellFormed(s) && AtMinimums(s, d) && remaining > 0.0 && 0 < j < |s|
    ensures Get(PayLargest(s, remaining, d).0, s[j].id)
      == s[j].minimumDue + Min(SlackOf(s[j]), Max(remaining - SumOf(s[..j], SlackOf), 0.0))
    decreases j, 0
  {
    var extra := Min(SlackOf(s[0]), remaining);
    var t := s[1..];
    var d' := Set(d, s[0].id, s[0].minimumDue + extra);
    AtMinimumsAfterSet(s, d, s[0].minimumDue + extra);
    LargestEntry(t, remaining - extra, d', j - 1);
    assert s[0] in s;
    SumOfPrefixBounds(s[1..], SlackOf, j - 1, j - 1);
    LargestEntryStep(s, remaining, d, j);
  }

  /** The step of `LargestEntryLater`, given the claim for the cards after the first. */
  lemma LargestEntryStep(s: seq<Card>, remaining: real, d: Dict, j: nat)
    requires 0 < j < |s| && remaining > 0.0
    requires Get(d, s[0].id) == s[0].minimumDue && SlackOf(s[0]) >= 0.0
    requires SumOf(s[1..][..j - 1], SlackOf) >= 0.0
    requires var extra := Min(SlackOf(s[0]), remaining);
      Get(PayLargest(s[1..], remaining - extra, Set(d, s[0].id, s[0].minimumDue + extra)).0, s[1..][j - 1].id)
        == s[1..][j - 1].minimumDue
          + Min(SlackOf(s[1..][j - 1]), Max(remaining - extra - SumOf(s[1..][..j - 1], SlackOf), 0.0))
    ensures Get(PayLargest(s, remaining, d).0, s[j].id)
      == s[j].minimumDue + Min(SlackOf(s[j]), Max(remaining - SumOf(s[..j], SlackOf), 0.0))
  {
    var extra, d' := LargestFirstStep(s, remaining, d);
    var before := SumOf(s[1..][..j - 1], SlackOf);
    SumOfPrefixTail(s, SlackOf, j);
    assert s[1..][j - 1] == s[j];
    PoolShift(SlackOf(s[0]), remaining, extra, before, SumOf(s[..j], SlackOf));
  }

  /** Phase 2 moves money from `remaining` into the entries. */
  lemma {:induction false} LargestSum(s: seq<Card>, remaining: real, d: Dict)
    ensures SumValues(PayLargest(s, remaining, d).0) + PayLargest(s, remaining, d).1
      == SumValues(d) + remaining
    decreases |s|
  {
    if s != [] {
      if remaining <= 0.0 {
        LargestSum(s[1..], remaining, d);
      } else {
        var already := Get(d, s[0].id);
        var extra := Min(s[0].totalDue - already, remaining);
        var d' := Set(d, s[0].id, already + extra);
        LargestUnfold(s, remaining, d);
        assert PayLargest(s, remaining, d) == PayLargest(s[1..], remaining - extra, d');
        SumValuesSet(d, s[0].id, already + extra);
        LargestSum(s[1..], remaining - extra, d');
      }
    }
  }

  /** Phase 2 creates no entry when every card it visits has one already. */
  lemma {:induction false} LargestKeys(s: seq<Card>, remaining: real, d: Dict)
    requires forall c :: c in s ==> c.id in Keys(d)
    ensures Keys(PayLargest(s, remaining, d).0) == Keys(d)
    decreases |s|, 1
  {
    if s == [] {
    } else if remaining <= 0.0 {
      assert forall c :: c in s[1..] ==> c in s;
      LargestKeys(s[1..], remaining, d);
    } else {
      LargestKeysLater(s, remaining, d);
    }
  }

  lemma {:induction false} LargestKeysLater(s: seq<Card>, remaining: real, d: Dict)
    requires s != [] && remaining > 0.0
    requires forall c :: c in s ==> c.id in Keys(d)
    ensures Keys(PayLargest(s, remaining, d).0) == Keys(d)
    decreases |s|, 0
  {
    var already := Get(d, s[0].id);
    var extra := Min(s[0].totalDue - already, remaining);
    var d' := Set(d, s[0].id, already + extra);
    var after := PayLargest(s[1..], remaining - extra, d').0;
    LargestUnfold(s, remaining, d);
    assert PayLargest(s, remaining, d).0 == after;
    assert s[0] in s;
    OverwriteKeys(d, s[0].id, already + extra);
    assert forall c :: c in s[1..] ==> c in s;
    LargestKeys(s[1..], remaining - extra, d');
  }

  /** One step of phase 2 while money is left. */
  lemma LargestUnfold(s: seq<Card>, remaining: real, d: Dict)
    requires s != [] && remaining > 0.0
    ensures var extra := Min(s[0].totalDue - Get(d, s[0].id), remaining);
      PayLargest(s, remaining, d)
        == PayLargest(s[1..], remaining - extra, Set(d, s[0].id, Get(d, s[0].id) + extra))
  {
  }

  /** Overwriting a key keeps the keys. */
  lemma OverwriteKeys(d: Dict, k: string, v: real)
    requires k in Keys(d)
    ensures Keys(Set(d, k, v)) == Keys(d)
  {
    var i :| 0 <= i < |Keys(d)| && Keys(d)[i] == k;
    assert d[i].key == k;
    SetKeys(d, k, v);
  }

  // ---------------------------------------------------------------------------
  // What the consolidated split does.

  /** The largest-first copy of well-formed cards is a well-formed permutation, largest first. */
  lemma ByLargestBalanceFacts(cards: seq<Card>)
    requires WellFormed(cards)
    ensures var s := ByLargestBalance(cards);
      && WellFormed(s) && |s| == |cards|
      && (forall c :: c in s <==> c in cards)
      && (forall i, j :: 0 <= i < j < |s| ==> s[i].totalDue >= s[j].totalDue)
      && SumOf(s, SlackOf) == SumOf(cards, SlackOf)
  {
    var s := ByLargestBalance(cards);
    PermutationKeeps(cards, s);
    PermutationKeepsDistinctIds(cards, s);
    SumOfPermutation(cards, s, SlackOf);
    assert forall i, j :: 0 <= i < j < |s| ==> LargestFirstKey(s[i]) <= LargestFirstKey(s[j]);
  }

  /** With more than the minimum dues together, phase 1 pays every minimum due in full. */
  lemma MinimumsAllPaid(cards: seq<Card>, amount: real)
    requires WellFormed(cards) && amount > TotalMinimumDue(cards)
    ensures forall c :: c in cards ==> Get(PayMinimums(cards, amount, []).0, c.id) == c.minimumDue
  {
    var d := PayMinimums(cards, amount, []).0;
    DueSumsOrdered(cards);
    forall c | c in cards ensures Get(d, c.id) == c.minimumDue {
      var k :| 0 <= k < |cards| && cards[k] == c;
      MinimumsEntry(cards, amount, [], k);
      SumOfPrefixNext(cards, MinimumDueOf, k);
      SumOfPrefixBounds(cards, MinimumDueOf, k + 1, k + 1);
    }
  }

  /** The split has exactly one entry per card, in the store's order. */
  lemma SplitKeys(cards: seq<Card>, amount: real)
    requires DistinctIds(cards)
    ensures Keys(ConsolidatedSplit(cards, amount)) == Ids(cards)
    ensures DistinctKeys(ConsolidatedSplit(cards, amount))
  {
    if amount <= 0.0 {
      ZeroOutKeys(cards, []);
    } else {
      SplitKeysPositive(cards, amount);
    }
    IdKeysDistinct(ConsolidatedSplit(cards, amount), cards);
  }

  lemma SplitKeysPositive(cards: seq<Card>, amount: real)
    requires DistinctIds(cards) && amount > 0.0
    ensures Keys(ConsolidatedSplit(cards, amount)) == Ids(cards)
  {
    var (d, r) := PayMinimums(cards, amount, []);
    MinimumsKeys(cards, amount, []);
    var s := ByLargestBalance(cards);
    PermutationKeeps(cards, s);
    assert Keys(d) == Ids(cards) by { assert Keys([]) == []; }
    IdsListed(cards, s, Keys(d));
    LargestKeys(s, r, d);
  }

  /** Every card of a reordering of `cards` has its id among `ks` when `ks` lists the ids of `cards`. */
  lemma IdsListed(cards: seq<Card>, s: seq<Card>, ks: seq<string>)
    requires ks == Ids(cards) && forall c :: c in s ==> c in cards
    ensures forall c :: c in s ==> c.id in ks
  {
    forall c | c in s ensures c.id in ks {
      var k :| 0 <= k < |cards| && cards[k] == c;
      assert ks[k] == c.id;
    }
  }

  lemma IdKeysDistinct(d: Dict, cards: seq<Card>)
    requires DistinctIds(cards) && Keys(d) == Ids(cards)
    ensures DistinctKeys(d)
  {
    forall i, j | 0 <= i < j < |d| ensures d[i].key != d[j].key {
      assert d[i].key == Keys(d)[i] == cards[i].id;
      assert d[j].key == Keys(d)[j] == cards[j].id;
    }
  }

  /** A non-positive amount sets every card's entry to zero. */
  lemma SplitZeroes(cards: seq<Card>, amount: real)
    requires amount <= 0.0
    ensures forall c :: c in cards ==> HasKey(ConsolidatedSplit(cards, amount), c.id)
    ensures forall k :: Get(ConsolidatedSplit(cards, amount), k) == 0.0
    ensures SumValues(ConsolidatedSplit(cards, amount)) == 0.0
  {
    var u := ConsolidatedSplit(cards, amount);
    ZeroOutFacts(cards, []);
    SumValuesAllZero(u);
    forall k ensures Get(u, k) == 0.0 {
      GetAllZero(u, k);
    }
  }

  /**
   * Up to the sum of the minimum dues only phase 1 pays: card j, in the
   * store's order, receives its minimum due or what the earlier cards left.
   */
  lemma SplitWithinMinimums(cards: seq<Card>, amount: real, j: nat)
    requires WellFormed(cards)
    requires 0.0 < amount <= TotalMinimumDue(cards)
    requires j < |cards|
    ensures Get(ConsolidatedSplit(cards, amount), cards[j].id)
      == Min(cards[j].minimumDue, Max(amount - SumOf(cards[..j], MinimumDueOf), 0.0))
  {
    var (d, r) := PayMinimums(cards, amount, []);
    MinimumsLeft(cards, amount, []);
    LargestSkip(ByLargestBalance(cards), r, d);
    MinimumsEntry(cards, amount, [], j);
  }

  /**
   * Beyond the minimum dues, every card gets its minimum due, and the rest
   * fills the cards up in order of total due, largest first: card j of
   * that order receives what it still owes or what the cards before it
   * left over, whichever is smaller.
   */
  lemma SplitAboveMinimums(cards: seq<Card>, amount: real, j: nat)
    requires WellFormed(cards)
    requires amount > TotalMinimumDue(cards)
    requires j < |cards|
    ensures var s := ByLargestBalance(cards);
      Get(ConsolidatedSplit(cards, amount), s[j].id)
        == s[j].minimumDue + Min(SlackOf(s[j]), Max(amount - TotalMinimumDue(cards) - SumOf(s[..j], SlackOf), 0.0))
  {
    var (d, r) := PayMinimums(cards, amount, []);
    var s := ByLargestBalance(cards);
    DueSumsOrdered(cards);
    MinimumsLeft(cards, amount, []);
    MinimumsAllPaid(cards, amount);
    ByLargestBalanceFacts(cards);
    AtMinimumsFromAll(s, d);
    LargestEntry(s, r, d, j);
  }

  /** Each card's share lies between zero and its total due; below the minimums, its minimum due. */
  lemma SplitBoundsAt(cards: seq<Card>, amount: real, c: Card)
    requires WellFormed(cards) && c in cards
    ensures 0.0 <= Get(ConsolidatedSplit(cards, amount), c.id) <= c.totalDue
    ensures amount <= TotalMinimumDue(cards) ==> Get(ConsolidatedSplit(cards, amount), c.id) <= c.minimumDue
  {
    if amount <= 0.0 {
      SplitZeroes(cards, amount);
    } else if amount <= TotalMinimumDue(cards) {
      SplitBoundsWithin(cards, amount, c);
    } else {
      SplitBoundsAbove(cards, amount, c);
    }
  }

  lemma SplitBoundsWithin(cards: seq<Card>, amount: real, c: Card)
    requires WellFormed(cards) && c in cards && 0.0 < amount <= TotalMinimumDue(cards)
    ensures 0.0 <= Get(ConsolidatedSplit(cards, amount), c.id) <= c.minimumDue <= c.totalDue
  {
    var k :| 0 <= k < |cards| && cards[k] == c;
    SplitWithinMinimums(cards, amount, k);
  }

  lemma SplitBoundsAbove(cards: seq<Card>, amount: real, c: Card)
    requires WellFormed(cards) && c in cards && amount > TotalMinimumDue(cards)
    ensures 0.0 <= Get(ConsolidatedSplit(cards, amount), c.id) <= c.totalDue
  {
    var s := ByLargestBalance(cards);
    ByLargestBalanceFacts(cards);
    var k :| 0 <= k < |s| && s[k] == c;
    SplitAboveMinimums(cards, amount, k);
    ShareWithin(c.minimumDue, SlackOf(c), amount - TotalMinimumDue(cards) - SumOf(s[..k], SlackOf),
                Get(ConsolidatedSplit(cards, amount), c.id));
  }

  lemma ShareWithin(m: real, slack: real, left: real, g: real)
    requires 0.0 <= m && 0.0 <= slack && g == m + Min(slack, Max(left, 0.0))
    ensures 0.0 <= g <= m + slack
  {
  }

  /**
   * The entries add up to the amount, or to the whole total due when the
   * amount exceeds it, and to nothing for a non-positive amount.
   */
  lemma SplitTotal(cards: seq<Card>, amount: real)
    requires WellFormed(cards)
    ensures SumValues(ConsolidatedSplit(cards, amount)) == Min(Max(amount, 0.0), TotalDue(cards))
  {
    DueSumsOrdered(cards);
    if amount <= 0.0 {
      SplitZeroes(cards, amount);
    } else {
      SplitTotalPositive(cards, amount);
    }
  }

  lemma SplitTotalPositive(cards: seq<Card>, amount: real)
    requires WellFormed(cards) && amount > 0.0
    ensures SumValues(ConsolidatedSplit(cards, amount)) == Min(amount, TotalDue(cards))
  {
    var p := PayMinimums(cards, amount, []);
    var q := PayLargest(ByLargestBalance(cards), p.1, p.0);
    assert ConsolidatedSplit(cards, amount) == q.0;
    assert SumValues([]) == 0.0;
    MinimumsSum(cards, amount, []);
    LargestSum(ByLargestBalance(cards), p.1, p.0);
    SplitLeft(cards, amount);
    assert SumValues(q.0) == amount - Max(amount - TotalDue(cards), 0.0);
  }

  /** What the consolidated split leaves unassigned: the part of the amount above the total due. */
  lemma SplitLeft(cards: seq<Card>, amount: real)
    requires WellFormed(cards) && amount > 0.0
    ensures var p := PayMinimums(cards, amount, []);
      PayLargest(ByLargestBalance(cards), p.1, p.0).1 == Max(amount - TotalDue(cards), 0.0)
  {
    var p := PayMinimums(cards, amount, []);
    var s := ByLargestBalance(cards);
    DueSumsOrdered(cards);
    MinimumsLeft(cards, amount, []);
    if p.1 <= 0.0 {
      LargestSkip(s, p.1, p.0);
    } else {
      SplitLeftAbove(cards, amount);
    }
  }

  /** An amount above the minimums: phase 2 keeps what exceeds the total due. */
  lemma SplitLeftAbove(cards: seq<Card>, amount: real)
    requires WellFormed(cards) && amount > TotalMinimumDue(cards)
    ensures var p := PayMinimums(cards, amount, []);
      PayLargest(ByLargestBalance(cards), p.1, p.0).1 == Max(amount - TotalDue(cards), 0.0)
  {
    var p := PayMinimums(cards, amount, []);
    var s := ByLargestBalance(cards);
    DueSumsOrdered(cards);
    MinimumsLeft(cards, amount, []);
    assert p.1 == amount - TotalMinimumDue(cards);
    MinimumsAllPaid(cards, amount);
    ByLargestBalanceFacts(cards);
    AtMinimumsFromAll(s, p.0);
    LargestLeft(s, p.1, p.0);
    SlackSum(cards);
  }

  /**
   * Largest balance first: a card gets more than its minimum due only if
   * every card with a larger total due before it in the sorted copy is
   * paid in full.
   */
  lemma SplitLargestFirst(cards: seq<Card>, amount: real, i: nat, j: nat)
    requires WellFormed(cards)
    requires i < j < |cards|
    requires var s := ByLargestBalance(cards);
      Get(ConsolidatedSplit(cards, amount), s[j].id) > s[j].minimumDue
    ensures var s := ByLargestBalance(cards);
      && s[i].totalDue >= s[j].totalDue
      && Get(ConsolidatedSplit(cards, amount), s[i].id) == s[i].totalDue
  {
    var s := ByLargestBalance(cards);
    ByLargestBalanceFacts(cards);
    assert s[j] in cards;
    SplitBoundsAt(cards, amount, s[j]);
    SplitLargestFirstAbove(cards, amount, i, j);
  }

  lemma SplitLargestFirstAbove(cards: seq<Card>, amount: real, i: nat, j: nat)
    requires WellFormed(cards) && amount > TotalMinimumDue(cards)
    requires i < j < |cards|
    requires var s := ByLargestBalance(cards);
      Get(ConsolidatedSplit(cards, amount), s[j].id) > s[j].minimumDue
    ensures var s := ByLargestBalance(cards);
      Get(ConsolidatedSplit(cards, amount), s[i].id) == s[i].totalDue
  {
    var s := ByLargestBalance(cards);
    var u := ConsolidatedSplit(cards, amount);
    var a := amount - TotalMinimumDue(cards);
    var g := ShareAt(cards, amount, s, u, i);
    var g' := ShareAt(cards, amount, s, u, j);
    SlackPrefixes(cards, s, i, j);
    FullBefore(a, SumOf(s[..i], SlackOf), SlackOf(s[i]), SumOf(s[..i + 1], SlackOf), s[i].minimumDue, g,
               SumOf(s[..j], SlackOf), SlackOf(s[j]), s[j].minimumDue, g');
  }

  /** The slack ahead of two positions of the sorted copy, in the form `FullBefore` takes. */
  lemma SlackPrefixes(cards: seq<Card>, s: seq<Card>, i: nat, j: nat)
    requires WellFormed(cards) && s == ByLargestBalance(cards) && i < j < |cards|
    ensures j < |s| && SlackOf(s[i]) >= 0.0
    ensures SumOf(s[..i + 1], SlackOf) == SumOf(s[..i], SlackOf) + SlackOf(s[i])
    ensures SumOf(s[..i + 1], SlackOf) <= SumOf(s[..j], SlackOf)
  {
    ByLargestBalanceFacts(cards);
    assert s[i] in s;
    SumOfPrefixNext(s, SlackOf, i);
    SumOfPrefixBounds(s, SlackOf, i + 1, j);
  }

  /** The entry of the card at position `j` of the sorted copy `s`, in the form `SplitAboveMinimums` gives. */
  lemma ShareAt(cards: seq<Card>, amount: real, s: seq<Card>, u: Dict, j: nat) returns (g: real)
    requires WellFormed(cards) && amount > TotalMinimumDue(cards)
    requires s == ByLargestBalance(cards) && u == ConsolidatedSplit(cards, amount) && j < |cards|
    ensures j < |s|
    ensures g == Get(u, s[j].id)
    ensures g == s[j].minimumDue + Min(SlackOf(s[j]), Max(amount - TotalMinimumDue(cards) - SumOf(s[..j], SlackOf), 0.0))
  {
    SplitAboveMinimums(cards, amount, j);
    g := Get(u, s[j].id);
  }

  /**
   * A later card is topped up only when what an earlier one still owed is
   * covered in full: `g` and `g'` are the shares of the earlier and the
   * later card, `before` and `later` the slack of the cards ahead of each.
   */
  lemma FullBefore(a: real, before: real, slack: real, upTo: real, m: real, g: real,
                   later: real, slack': real, m': real, g': real)
    requires slack >= 0.0 && upTo == before + slack && upTo <= later
    requires g == m + Min(slack, Max(a - before, 0.0))
    requires g' == m' + Min(slack', Max(a - later, 0.0)) && g' > m'
    ensures g == m + slack
  {
  }

  /** The sum of the entries is what the cards of `s` are assigned, when the keys are their ids. */
  lemma {:induction false} SumValuesAllocated(s: seq<Card>, d: Dict)
    requires DistinctIds(s) && Keys(d) == Ids(s)
    ensures SumValues(d) == Allocated(s, d)
    decreases |s|
  {
    if s != [] {
      var t := d[1..];
      assert Keys(t) == Ids(s[1..]);
      DistinctTail(s);
      SumValuesAllocated(s[1..], t);
      assert d[0].key == s[0].id;
      forall c | c in s[1..] ensures Get(t, c.id) == Get(d, c.id) {
        assert IndexOf(d, c.id) == (match IndexOf(t, c.id) case None => None case Some(i) => Some(i + 1));
      }
      SumOfCongruent(s[1..], (c: Card) => Get(t, c.id), (c: Card) => Get(d, c.id));
    }
  }

  /** An amount covering the total due pays every card in full. */
  lemma SplitPaysInFull(cards: seq<Card>, amount: real)
    requires WellFormed(cards)
    requires amount >= TotalDue(cards)
    ensures forall c :: c in cards ==> Get(ConsolidatedSplit(cards, amount), c.id) == c.totalDue
  {
    var u := ConsolidatedSplit(cards, amount);
    DueSumsOrdered(cards);
    SplitKeys(cards, amount);
    SplitTotal(cards, amount);
    SumValuesAllocated(cards, u);
    forall c | c in cards ensures Get(u, c.id) <= c.totalDue {
      SplitBoundsAt(cards, amount, c);
    }
    SumOfAtBound(cards, (c: Card) => Get(u, c.id), TotalDueOf);
  }

  // ---------------------------------------------------------------------------
  // The page state.

  datatype Tab = Consolidated | Individual

  /** `location.state`: a card picked elsewhere, or a distribution computed elsewhere. */
  datatype NavigationState = NavigationState(selectedCardId: Option<string>, autoDistribution: Option<Dict>)

  /** `parseFloat(value) || 0`. */
  function AmountOrZero(input: Option<real>): real
  {
    match input
    case None => 0.0
    case Some(x) => x
  }

  /**
   * `Math.min(Math.max(0, amount), card ? card.totalDue : 0)`: the entry the
   * amount editor stores for a card.
   */
  function ClampedAmount(cards: seq<Card>, cardId: string, amount: real): (r: real)
    ensures IsCardId(cards, cardId) && ConsistentDues(cards) ==>
      0.0 <= r <= Find(cards, cardId).value.totalDue
    ensures IsCardId(cards, cardId) && 0.0 <= amount <= Find(cards, cardId).value.totalDue ==> r == amount
    ensures IsCardId(cards, cardId) && amount > Find(cards, cardId).value.totalDue ==>
      r == Find(cards, cardId).value.totalDue
    ensures IsCardId(cards, cardId) && amount < 0.0 && Find(cards, cardId).value.totalDue >= 0.0 ==> r == 0.0
    ensures !IsCardId(cards, cardId) ==> r == 0.0
  {
    var maxAmount := match Find(cards, cardId) case Some(c) => c.totalDue case None => 0.0;
    Min(Max(0.0, amount), maxAmount)
  }

  predicate Positive(e: Entry) { e.value > 0.0 }

  /** A payment item read back as a dictionary entry. */
  function AsEntries(items: seq<CardAmount>): (r: Dict)
    ensures |r| == |items| && forall k :: 0 <= k < |items| ==> r[k] == Entry(items[k].cardId, items[k].amount)
  {
    seq(|items|, k requires 0 <= k < |items| => Entry(items[k].cardId, items[k].amount))
  }

  /**
   * `Object.entries(d).filter(([_, amount]) => amount > 0).map(...)`: the
   * entries with a positive amount, as `{ cardId, amount }` items, in the
   * dictionary's order and with their multiplicity.
   */
  function PaymentItems(d: Dict): (r: seq<CardAmount>)
    ensures forall a :: a in r ==> a.amount > 0.0 && Entry(a.cardId, a.amount) in d
    ensures forall e :: e in d && e.value > 0.0 ==> CardAmount(e.key, e.value) in r
    ensures AsEntries(r) == Filter(d, Positive)
    ensures IsSubsequence(AsEntries(r), d)
    ensures |r| <= |d|
    decreases |d|
  {
    if d == [] then []
    else
      var rest := PaymentItems(d[1..]);
      var r := if d[0].value > 0.0 then [CardAmount(d[0].key, d[0].value)] + rest else rest;
      PaymentItemsStep(d, rest, r);
      r
  }

  /** One element of `PaymentItems`: the head entry is kept exactly when it is positive. */
  lemma PaymentItemsStep(d: Dict, rest: seq<CardAmount>, r: seq<CardAmount>)
    requires d != []
    requires AsEntries(rest) == Filter(d[1..], Positive)
    requires r == if d[0].value > 0.0 then [CardAmount(d[0].key, d[0].value)] + rest else rest
    ensures AsEntries(r) == Filter(d, Positive)
    ensures forall a :: a in r ==> a.amount > 0.0 && Entry(a.cardId, a.amount) in d
    ensures forall e :: e in d && e.value > 0.0 ==> CardAmount(e.key, e.value) in r
    ensures IsSubsequence(AsEntries(r), d)
    ensures |r| <= |d|
  {
    FilterIsSubsequence(d, Positive);
    forall a | a in r ensures a.amount > 0.0 && Entry(a.cardId, a.amount) in d {
      AsEntriesIn(r, a);
    }
    forall e | e in d && e.value > 0.0 ensures CardAmount(e.key, e.value) in r {
      AsEntriesIn(r, CardAmount(e.key, e.value));
    }
  }

  /** An item is in the list exactly when its entry is in the list read back as entries. */
  lemma AsEntriesIn(items: seq<CardAmount>, a: CardAmount)
    ensures a in items <==> Entry(a.cardId, a.amount) in AsEntries(items)
  {
    var e := AsEntries(items);
    if a in items {
      var k :| 0 <= k < |items| && items[k] == a;
      assert e[k] == Entry(a.cardId, a.amount);
    }
    if Entry(a.cardId, a.amount) in e {
      var k :| 0 <= k < |e| && e[k] == Entry(a.cardId, a.amount);
      assert items[k] == a;
    }
  }

  /** `handleProceedToPayment`'s request: none for a non-positive total. */
  function PaymentData(totalAmount: real, cardPayments: Dict): (r: Option<PaymentRequest>)
    ensures r.None? <==> totalAmount <= 0.0
    ensures r.Some? ==> r.value.totalAmount == totalAmount && r.value.paymentMethod == "bank_transfer"
    ensures r.Some? ==> forall a :: a in r.value.cards ==> a.amount > 0.0 && Entry(a.cardId, a.amount) in cardPayments
    ensures r.Some? ==> forall e :: e in cardPayments && e.value > 0.0 ==> CardAmount(e.key, e.value) in r.value.cards
    ensures r.Some? ==> AsEntries(r.value.cards) == Filter(cardPayments, Positive)
    ensures r.Some? ==> IsSubsequence(AsEntries(r.value.cards), cardPayments)
  {
    if totalAmount <= 0.0 then None
    else Some(PaymentRequest(PaymentItems(cardPayments), totalAmount, "bank_transfer"))
  }

  /** With no negative entry, the items add up to all the entries. */
  lemma {:induction false} PaymentItemsTotal(d: Dict)
    requires forall i :: 0 <= i < |d| ==> d[i].value >= 0.0
    ensures PaidTotal(PaymentItems(d)) == SumValues(d)
    decreases |d|
  {
    if d != [] {
      PaymentItemsTotal(d[1..]);
    }
  }

  /**
   * After a consolidated amount is entered, the request records that amount
   * as its total while its items add up to at most the total due.
   */
  lemma ConsolidatedRequest(cards: seq<Card>, amount: real)
    requires WellFormed(cards) && amount > 0.0
    ensures var r := PaymentData(amount, ConsolidatedSplit(cards, amount));
      && r.Some? && r.value.totalAmount == amount
      && PaidTotal(r.value.cards) == Min(amount, TotalDue(cards))
  {
    var u := ConsolidatedSplit(cards, amount);
    SplitKeys(cards, amount);
    SplitTotal(cards, amount);
    forall i | 0 <= i < |u| ensures u[i].value >= 0.0 {
      assert u[i].key == Keys(u)[i] == cards[i].id;
      IndexOfDistinct(u, i);
      assert cards[i] in cards;
      SplitBoundsAt(cards, amount, cards[i]);
    }
    PaymentItemsTotal(u);
  }

  /** The page's own state; the store's cards are passed to each handler. */
  class PaymentPage {
    var activeTab: Tab
    var totalAmount: real
    var cardPayments: Dict

    constructor()
      ensures activeTab == Consolidated && totalAmount == 0.0 && cardPayments == []
    {
      activeTab := Consolidated;
      totalAmount := 0.0;
      cardPayments := [];
    }

    /**
     * The `useEffect` on `[cards, location.state]`: a pre-selected card is
     * paid its minimum due on the individual tab, an automatic distribution
     * is taken over with its sum as the total, and without navigation state
     * every card starts at zero.
     */
    method Initialize(cards: seq<Card>, state: Option<NavigationState>)
      modifies this
      ensures state.None? ==>
        cardPayments == ZeroOut(cards, []) && totalAmount == old(totalAmount) && activeTab == old(activeTab)
      ensures state.Some? && state.value.selectedCardId.Some? && state.value.selectedCardId.value != "" ==>
        var id := state.value.selectedCardId.value;
        if IsCardId(cards, id) then
          && activeTab == Individual
          && cardPayments == [Entry(id, Find(cards, id).value.minimumDue)]
          && totalAmount == Find(cards, id).value.minimumDue
        else unchanged(this)
      ensures state.Some? && !(state.value.selectedCardId.Some? && state.value.selectedCardId.value != "") ==>
        if state.value.autoDistribution.Some? then
          && cardPayments == state.value.autoDistribution.value
          && totalAmount == SumValues(state.value.autoDistribution.value)
          && activeTab == old(activeTab)
        else unchanged(this)
    {
      match state
      case None =>
        var initialPayments: Dict := [];
        var i := 0;
        while i < |cards|
          invariant 0 <= i <= |cards|
          invariant ZeroOut(cards[i..], initialPayments) == ZeroOut(cards, [])
        {
          assert cards[i..][0] == cards[i] && cards[i..][1..] == cards[i + 1..];
          initialPayments := Set(initialPayments, cards[i].id, 0.0);
          i := i + 1;
        }
        cardPayments := initialPayments;
      case Some(st) =>
        if st.selectedCardId.Some? && st.selectedCardId.value != "" {
          var id := st.selectedCardId.value;
          match Find(cards, id)
          case Some(card) =>
            activeTab := Individual;
            cardPayments := [Entry(id, card.minimumDue)];
            totalAmount := card.minimumDue;
          case None =>
        } else if st.autoDistribution.Some? {
          cardPayments := st.autoDistribution.value;
          totalAmount := SumValues(st.autoDistribution.value);
        }
    }

    /** `handleConsolidatedAmountChange`: the amount becomes the total and is split over the cards. */
    method ConsolidatedAmountChange(cards: seq<Card>, input: Option<real>)
      modifies this
      ensures totalAmount == AmountOrZero(input)
      ensures cardPayments == ConsolidatedSplit(cards, AmountOrZero(input))
      ensures activeTab == old(activeTab)
    {
      var amount := AmountOrZero(input);
      totalAmount := amount;
      cardPayments := ConsolidatedSplitLoop(cards, amount);
    }

    /**
     * `handleIndividualAmountChange`: the card's entry becomes the clamped
     * amount, the others stay, and the total is the sum of all entries.
     */
    method IndividualAmountChange(cards: seq<Card>, cardId: string, input: Option<real>)
      modifies this
      ensures cardPayments == Set(old(cardPayments), cardId, ClampedAmount(cards, cardId, AmountOrZero(input)))
      ensures totalAmount == SumValues(cardPayments)
      ensures activeTab == old(activeTab)
    {
      var amount := AmountOrZero(input);
      var newAmount := ClampedAmount(cards, cardId, amount);
      cardPayments := Set(cardPayments, cardId, newAmount);
      totalAmount := SumValues(cardPayments);
    }

    /** `handleProceedToPayment`: the request handed to the store's `makePayment`, if any. */
    function ProceedRequest(): (r: Option<PaymentRequest>)
      reads this
      ensures r.None? <==> totalAmount <= 0.0
      ensures r.Some? ==> r.value.totalAmount == totalAmount && r.value.paymentMethod == "bank_transfer"
      ensures r.Some? ==> AsEntries(r.value.cards) == Filter(cardPayments, Positive)
      ensures r.Some? ==> IsSubsequence(AsEntries(r.value.cards), cardPayments)
    {
      PaymentData(totalAmount, cardPayments)
    }
  }

  /**
   * One edit of the amount editor: the edited card's entry becomes the
   * clamped amount, every other entry keeps its value, and the total moves
   * by the change of that one entry.
   */
  lemma IndividualEdit(cards: seq<Card>, payments: Dict, cardId: string, amount: real, other: string)
    requires other != cardId
    ensures var r := Set(payments, cardId, ClampedAmount(cards, cardId, amount));
      && Get(r, cardId) == ClampedAmount(cards, cardId, amount)
      && Get(r, other) == Get(payments, other)
      && HasKey(r, other) == HasKey(payments, other)
      && SumValues(r) == SumValues(payments) - Get(payments, cardId) + ClampedAmount(cards, cardId, amount)
  {
    var v := ClampedAmount(cards, cardId, amount);
    SetSame(payments, cardId, v);
    SetOther(payments, cardId, v, other);
    SumValuesSet(payments, cardId, v);
  }
}
