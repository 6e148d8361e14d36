/**
 * The primary payment allocator of the card store (`distributeAmount`):
 * a lump sum is split over the cards in two phases.
 *
 *  1. Walking the cards in ascending due-date order, each card receives
 *     `min(minimumDue, remaining)` while money remains; once it is gone the
 *     remaining cards receive no entry at all.
 *  2. If money is still left, every card whose total due exceeds what it has
 *     received gets an extra share proportional to its remaining due,
 *     capped at that remaining due. The pool is not decremented in phase 2.
 *
 * Finally every entry is rounded to cents with `Math.round(x * 100) / 100`.
 *
 * The functions below follow the source's loops one step at a time; the
 * lemmas state what the allocation does for cards whose balances satisfy
 * `0 <= minimumDue <= totalDue` and whose ids are distinct, in exact
 * arithmetic and before the rounding.
 */
module Allocation {
  import opened Wrappers
  import opened Seqs
  import opened Dict
  import opened Cards
  import opened JsNumber

  // ---------------------------------------------------------------------------
  // Specification of the allocation, step by step.

  /** Phase 1: the `forEach` over the due-date ordered cards. */
  function CoverMinimums(s: seq<Card>, remaining: real, d: Dict): (Dict, real)
    decreases |s|
  {
    if s == [] then (d, remaining)
    else if remaining <= 0.0 then CoverMinimums(s[1..], remaining, d)
    else
      var x := Min(s[0].minimumDue, remaining);
      CoverMinimums(s[1..], remaining - x, Set(d, s[0].id, x))
  }

  /** `card.totalDue - (distribution[card.id] || 0)`. */
  function RemainingDue(c: Card, d: Dict): real
  {
    c.totalDue - Get(d, c.id)
  }

  /** `cardsByDueDate.filter(card => card.totalDue > (distribution[card.id] || 0))`. */
  function WithRemainingDue(s: seq<Card>, d: Dict): (e: seq<Card>)
    ensures forall c :: c in e <==> c in s && RemainingDue(c, d) > 0.0
  {
    Filter(s, (c: Card) => c.totalDue > Get(d, c.id))
  }

  /** `cardsWithRemainingDue.reduce((sum, card) => sum + remaining due, 0)`. */
  function TotalRemainingDue(e: seq<Card>, d: Dict): real
  {
    SumOf(e, (c: Card) => RemainingDue(c, d))
  }

  /** The phase-2 divisor is positive whenever there is a card to divide over. */
  lemma RemainingDuePositive(s: seq<Card>, d: Dict)
    ensures WithRemainingDue(s, d) != [] ==> TotalRemainingDue(WithRemainingDue(s, d), d) > 0.0
  {
    var e := WithRemainingDue(s, d);
    if e != [] {
      SumOfPositive(e, (c: Card) => RemainingDue(c, d));
    }
  }

  /** `Math.min(remainingAmount * (remainingDue / totalRemainingDue), remainingDue)`. */
  function ExtraShare(c: Card, d: Dict, leftover: real, total: real): real
    requires total != 0.0
  {
    CappedShare(RemainingDue(c, d), leftover, total)
  }

  /** A due's proportional part `leftover * (due / total)` of a pool, capped at the due. */
  function CappedShare(due: real, leftover: real, total: real): real
    requires total != 0.0
  {
    Min(leftover * (due / total), due)
  }

  /** Phase 2: the `forEach` over the cards that still owe something. */
  function SpreadRemainder(e: seq<Card>, d: Dict, leftover: real, total: real): Dict
    requires e == [] || total != 0.0
    decreases |e|
  {
    if e == [] then d
    else SpreadRemainder(e[1..], SpreadStep(e[0], d, leftover, total), leftover, total)
  }

  /** One iteration of phase 2: `distribution[card.id] = (distribution[card.id] || 0) + extra`. */
  function SpreadStep(c: Card, d: Dict, leftover: real, total: real): Dict
    requires total != 0.0
  {
    Set(d, c.id, Get(d, c.id) + ExtraShare(c, d, leftover, total))
  }

  lemma SpreadStepSame(c: Card, d: Dict, leftover: real, total: real)
    requires total != 0.0
    ensures Get(SpreadStep(c, d, leftover, total), c.id) == Get(d, c.id) + ExtraShare(c, d, leftover, total)
  {
    SetSame(d, c.id, Get(d, c.id) + ExtraShare(c, d, leftover, total));
  }

  lemma SpreadStepOther(c: Card, d: Dict, leftover: real, total: real, k: string)
    requires total != 0.0 && k != c.id
    ensures Lookup(SpreadStep(c, d, leftover, total), k) == Lookup(d, k)
    ensures Get(SpreadStep(c, d, leftover, total), k) == Get(d, k)
  {
    SetOther(d, c.id, Get(d, c.id) + ExtraShare(c, d, leftover, total), k);
  }

  /** The distribution before the final rounding loop. */
  function Unrounded(cards: seq<Card>, amount: real): Dict
  {
    Phases(SortByDueDate(cards), amount)
  }

  /** The two phases over cards already in due-date order. */
  function Phases(s: seq<Card>, amount: real): Dict
  {
    var (d1, remaining) := CoverMinimums(s, amount, []);
    if remaining > 0.0 then
      var e := WithRemainingDue(s, d1);
      RemainingDuePositive(s, d1);
      SpreadRemainder(e, d1, remaining, TotalRemainingDue(e, d1))
    else d1
  }

  /** The value `distributeAmount(amount)` returns. */
  function Distribution(cards: seq<Card>, amount: real): Dict
  {
    MapValues(Unrounded(cards, amount), RoundCents)
  }

  // ---------------------------------------------------------------------------
  // Sums over the cards of what a dictionary assigns them.

  /** The money a dictionary assigns to the cards of `s` (a missing entry counts 0). */
  function Allocated(s: seq<Card>, d: Dict): real
  {
    SumOf(s, (c: Card) => Get(d, c.id))
  }

  lemma AllocatedPermutation(a: seq<Card>, b: seq<Card>, d: Dict)
    requires multiset(a) == multiset(b)
    ensures Allocated(a, d) == Allocated(b, d)
  {
    SumOfPermutation(a, b, (c: Card) => Get(d, c.id));
  }

  /** No id of `s` is `k`. */
  predicate NotAnIdOf(s: seq<Card>, k: string)
  {
    forall c :: c in s ==> c.id != k
  }

  /** None of the cards of `s` has an entry in `d`. */
  ghost predicate NoEntries(s: seq<Card>, d: Dict)
  {
    forall c :: c in s ==> !HasKey(d, c.id)
  }

  lemma AllocatedNoEntries(s: seq<Card>, d: Dict)
    requires NoEntries(s, d)
    ensures Allocated(s, d) == 0.0
  {
    SumOfCongruent(s, (c: Card) => Get(d, c.id), (c: Card) => 0.0);
    SumOfZeroConstant(s);
  }

  lemma {:induction false} SumOfZeroConstant(s: seq<Card>)
    ensures SumOf(s, (c: Card) => 0.0) == 0.0
    decreases |s|
  {
    if s != [] {
      SumOfZeroConstant(s[1..]);
    }
  }

  lemma DistinctTail(s: seq<Card>)
    requires s != [] && DistinctIds(s)
    ensures DistinctIds(s[1..])
    ensures NotAnIdOf(s[1..], s[0].id)
  {
    forall i, j | 0 <= i < |s[1..]| && 0 <= j < |s[1..]| && i != j
      ensures s[1..][i].id != s[1..][j].id
    {
      assert s[1..][i] == s[i + 1] && s[1..][j] == s[j + 1];
    }
    forall c | c in s[1..] ensures c.id != s[0].id {
      var k :| 0 <= k < |s[1..]| && s[1..][k] == c;
      assert s[k + 1] == c;
    }
  }

  // ---------------------------------------------------------------------------
  // Phase 1.

  /** Once the money is gone phase 1 changes nothing. */
  lemma {:induction false} CoverSkip(s: seq<Card>, remaining: real, d: Dict)
    requires remaining <= 0.0
    ensures CoverMinimums(s, remaining, d) == (d, remaining)
    decreases |s|
  {
    if s != [] {
      CoverSkip(s[1..], remaining, d);
    }
  }

  /** Phase 1 touches only the entries of the cards it walks over. */
  lemma {:induction false} CoverFrame(s: seq<Card>, remaining: real, d: Dict, k: string)
    requires NotAnIdOf(s, k)
    ensures Lookup(CoverMinimums(s, remaining, d).0, k) == Lookup(d, k)
    decreases |s|
  {
    if s != [] {
      if remaining <= 0.0 {
        CoverFrame(s[1..], remaining, d, k);
      } else {
        var x := Min(s[0].minimumDue, remaining);
        CoverFrame(s[1..], remaining - x, Set(d, s[0].id, x), k);
        SetOther(d, s[0].id, x, k);
      }
    }
  }

  /** What is left after phase 1: the amount less all minimum dues, or nothing. */
  lemma {:induction false} CoverLeftover(s: seq<Card>, remaining: real, d: Dict)
    requires forall c :: c in s ==> c.minimumDue >= 0.0
    ensures CoverMinimums(s, remaining, d).1
      == if remaining > 0.0 then Max(remaining - TotalMinimumDue(s), 0.0) else remaining
    decreases |s|
  {
    if s == [] {
    } else if remaining <= 0.0 {
      CoverSkip(s, remaining, d);
    } else {
      var x := Min(s[0].minimumDue, remaining);
      assert forall c :: c in s[1..] ==> c in s;
      CoverLeftover(s[1..], remaining - x, Set(d, s[0].id, x));
      AllocatedCons(s, d);
      SumOfNonNegative(s[1..], MinimumDueOf);
      MinStep(s[0].minimumDue, remaining, TotalMinimumDue(s[1..]));
    }
  }

  /**
   * Which cards phase 1 reaches and what they get: the card at position j
   * of the walk has an entry exactly when the amount exceeds the minimum
   * dues of the cards before it, and then receives its minimum due or
   * whatever is left, whichever is smaller.
   */
  lemma {:induction false} CoverEntry(s: seq<Card>, remaining: real, d: Dict, j: nat)
    requires DistinctIds(s) && forall c :: c in s ==> c.minimumDue >= 0.0
    requires NoEntries(s, d)
    requires j < |s|
    ensures HasKey(CoverMinimums(s, remaining, d).0, s[j].id) <==> remaining > SumOf(s[..j], MinimumDueOf)
    ensures HasKey(CoverMinimums(s, remaining, d).0, s[j].id) ==>
      Get(CoverMinimums(s, remaining, d).0, s[j].id)
        == Min(s[j].minimumDue, remaining - SumOf(s[..j], MinimumDueOf))
    decreases j, 1
  {
    if remaining <= 0.0 {
      CoverSkip(s, remaining, d);
      assert s[j] in s;
      SumOfPrefixBounds(s, MinimumDueOf, 0, j);
    } else if j == 0 {
      CoverEntryFirst(s, remaining, d);
    } else {
      CoverEntryLater(s, remaining, d, j);
    }
  }

  lemma CoverEntryFirst(s: seq<Card>, remaining: real, d: Dict)
    requires DistinctIds(s) && s != [] && remaining > 0.0
    ensures Get(CoverMinimums(s, remaining, d).0, s[0].id) == Min(s[0].minimumDue, remaining)
    ensures HasKey(CoverMinimums(s, remaining, d).0, s[0].id)
    ensures s[..0] == []
  {
    var x := Min(s[0].minimumDue, remaining);
    var d' := Set(d, s[0].id, x);
    assert CoverMinimums(s, remaining, d) == CoverMinimums(s[1..], remaining - x, d');
    DistinctTail(s);
    CoverFrame(s[1..], remaining - x, d', s[0].id);
    SetSame(d, s[0].id, x);
  }

  lemma {:induction false} CoverEntryLater(s: seq<Card>, remaining: real, d: Dict, j: nat)
    requires DistinctIds(s) && forall c :: c in s ==> c.minimumDue >= 0.0
    requires NoEntries(s, d)
    requires 0 < j < |s| && remaining > 0.0
    ensures HasKey(CoverMinimums(s, remaining, d).0, s[j].id) <==> remaining > SumOf(s[..j], MinimumDueOf)
    ensures HasKey(CoverMinimums(s, remaining, d).0, s[j].id) ==>
      Get(CoverMinimums(s, remaining, d).0, s[j].id)
        == Min(s[j].minimumDue, remaining - SumOf(s[..j], MinimumDueOf))
    decreases j, 0
  {
    var x := Min(s[0].minimumDue, remaining);
    var d' := Set(d, s[0].id, x);
    var t := s[1..];
    var res := CoverMinimums(t, remaining - x, d');
    assert CoverMinimums(s, remaining, d) == res;
    PrefixSplit(s, j);
    NoEntriesAfterSet(s, d, x);
    CoverEntry(t, remaining - x, d', j - 1);
  }

  /** The minimum dues before position j: the first card's plus those of the rest. */
  lemma PrefixSplit(s: seq<Card>, j: nat)
    requires forall c :: c in s ==> c.minimumDue >= 0.0
    requires 0 < j < |s|
    ensures s[1..][j - 1] == s[j]
    ensures SumOf(s[..j], MinimumDueOf) == s[0].minimumDue + SumOf(s[1..][..j - 1], MinimumDueOf)
    ensures SumOf(s[1..][..j - 1], MinimumDueOf) >= 0.0
    ensures forall c :: c in s[1..] ==> c.minimumDue >= 0.0
  {
    SumOfPrefixTail(s, MinimumDueOf, j);
    assert forall c :: c in s[1..] ==> c in s;
    SumOfPrefixBounds(s[1..], MinimumDueOf, j - 1, j - 1);
  }

  /** After phase 1 handles the first card, the others still have no entry. */
  lemma NoEntriesAfterSet(s: seq<Card>, d: Dict, x: real)
    requires DistinctIds(s) && s != []
    requires NoEntries(s, d)
    ensures DistinctIds(s[1..])
    ensures NoEntries(s[1..], Set(d, s[0].id, x))
  {
    DistinctTail(s);
    forall c | c in s[1..] ensures !HasKey(Set(d, s[0].id, x), c.id) {
      assert c in s;
      SetOther(d, s[0].id, x, c.id);
    }
  }

  /** Phase 1 hands out the smaller of the amount and the sum of the minimum dues. */
  lemma {:induction false} CoverSum(s: seq<Card>, remaining: real, d: Dict)
    requires DistinctIds(s) && forall c :: c in s ==> c.minimumDue >= 0.0
    requires NoEntries(s, d)
    ensures Allocated(s, CoverMinimums(s, remaining, d).0)
      == if remaining > 0.0 then Min(remaining, TotalMinimumDue(s)) else 0.0
    decreases |s|
  {
    if s == [] {
    } else if remaining <= 0.0 {
      CoverSkip(s, remaining, d);
      AllocatedNoEntries(s, d);
    } else {
      var x := Min(s[0].minimumDue, remaining);
      NoEntriesAfterSet(s, d, x);
      assert forall c :: c in s[1..] ==> c in s;
      CoverSum(s[1..], remaining - x, Set(d, s[0].id, x));
      CoverSumStep(s, remaining, d);
    }
  }

  /** The inductive step of `CoverSum`, given its claim for the other cards. */
  lemma CoverSumStep(s: seq<Card>, remaining: real, d: Dict)
    requires DistinctIds(s) && forall c :: c in s ==> c.minimumDue >= 0.0
    requires s != [] && remaining > 0.0
    requires var x := Min(s[0].minimumDue, remaining);
      Allocated(s[1..], CoverMinimums(s[1..], remaining - x, Set(d, s[0].id, x)).0)
        == if remaining - x > 0.0 then Min(remaining - x, TotalMinimumDue(s[1..])) else 0.0
    ensures Allocated(s, CoverMinimums(s, remaining, d).0) == Min(remaining, TotalMinimumDue(s))
  {
    var x := Min(s[0].minimumDue, remaining);
    var res := CoverMinimums(s[1..], remaining - x, Set(d, s[0].id, x));
    assert CoverMinimums(s, remaining, d) == res;
    CoverFirstKept(s, remaining - x, d, x);
    assert forall c :: c in s[1..] ==> c in s;
    SumOfNonNegative(s[1..], MinimumDueOf);
    AllocatedCons(s, res.0);
    MinStep(s[0].minimumDue, remaining, TotalMinimumDue(s[1..]));
  }

  lemma AllocatedCons(s: seq<Card>, d: Dict)
    requires s != []
    ensures Allocated(s, d) == Get(d, s[0].id) + Allocated(s[1..], d)
    ensures TotalMinimumDue(s) == s[0].minimumDue + TotalMinimumDue(s[1..])
  {
  }

  /** Phase 1's arithmetic for one card: paying min(m, r) first, then the rest. */
  lemma MinStep(m: real, r: real, rest: real)
    requires m >= 0.0 && r > 0.0 && rest >= 0.0
    ensures Min(m, r) + (if r - Min(m, r) > 0.0 then Min(r - Min(m, r), rest) else 0.0) == Min(r, m + rest)
    ensures (if r - Min(m, r) > 0.0 then Max(r - Min(m, r) - rest, 0.0) else r - Min(m, r))
      == Max(r - (m + rest), 0.0)
  {
  }

  /** The first card's entry survives the rest of phase 1. */
  lemma CoverFirstKept(s: seq<Card>, remaining: real, d: Dict, x: real)
    requires DistinctIds(s) && s != []
    ensures Get(CoverMinimums(s[1..], remaining, Set(d, s[0].id, x)).0, s[0].id) == x
  {
    DistinctTail(s);
    CoverFrame(s[1..], remaining, Set(d, s[0].id, x), s[0].id);
    SetSame(d, s[0].id, x);
  }

  // ---------------------------------------------------------------------------
  // Phase 2.

  lemma {:induction false} SpreadFrame(e: seq<Card>, d: Dict, leftover: real, total: real, k: string)
    requires e == [] || total != 0.0
    requires NotAnIdOf(e, k)
    ensures Lookup(SpreadRemainder(e, d, leftover, total), k) == Lookup(d, k)
    decreases |e|
  {
    if e != [] {
      assert e[0] in e;
      assert NotAnIdOf(e[1..], k) by {
        forall c | c in e[1..] ensures c in e { }
      }
      SpreadFrame(e[1..], SpreadStep(e[0], d, leftover, total), leftover, total, k);
      SpreadStepOther(e[0], d, leftover, total, k);
    }
  }

  /** Each card of phase 2 ends with what it had plus its capped proportional share. */
  lemma {:induction false} SpreadValues(e: seq<Card>, d: Dict, leftover: real, total: real)
    requires total != 0.0
    requires DistinctIds(e)
    ensures forall c :: c in e ==>
      Get(SpreadRemainder(e, d, leftover, total), c.id) == Get(d, c.id) + ExtraShare(c, d, leftover, total)
    decreases |e|
  {
    if e != [] {
      DistinctTail(e);
      SpreadValues(e[1..], SpreadStep(e[0], d, leftover, total), leftover, total);
      forall c | c in e
        ensures Get(SpreadRemainder(e, d, leftover, total), c.id) == Get(d, c.id) + ExtraShare(c, d, leftover, total)
      {
        SpreadValuesStep(e, d, leftover, total, c);
      }
    }
  }

  /** The extra share depends on the dictionary only through the card's remaining due. */
  lemma ExtraShareSame(c: Card, d: Dict, d': Dict, leftover: real, total: real)
    requires total != 0.0 && Get(d, c.id) == Get(d', c.id)
    ensures ExtraShare(c, d, leftover, total) == ExtraShare(c, d', leftover, total)
  {
    var x := RemainingDue(c, d);
    assert RemainingDue(c, d') == x;
  }

  /** The inductive step of `SpreadValues`, for one card. */
  lemma SpreadValuesStep(e: seq<Card>, d: Dict, leftover: real, total: real, c: Card)
    requires total != 0.0 && DistinctIds(e) && c in e
    requires var d' := SpreadStep(e[0], d, leftover, total);
      forall c :: c in e[1..] ==>
        Get(SpreadRemainder(e[1..], d', leftover, total), c.id) == Get(d', c.id) + ExtraShare(c, d', leftover, total)
    ensures Get(SpreadRemainder(e, d, leftover, total), c.id) == Get(d, c.id) + ExtraShare(c, d, leftover, total)
  {
    var d' := SpreadStep(e[0], d, leftover, total);
    var r := SpreadRemainder(e[1..], d', leftover, total);
    assert SpreadRemainder(e, d, leftover, total) == r;
    DistinctTail(e);
    if c in e[1..] {
      assert Get(r, c.id) == Get(d', c.id) + ExtraShare(c, d', leftover, total);
      SpreadStepOther(e[0], d, leftover, total, c.id);
      ExtraShareSame(c, d, d', leftover, total);
    } else {
      assert c == e[0];
      SpreadFrame(e[1..], d', leftover, total, e[0].id);
      SpreadStepSame(e[0], d, leftover, total);
    }
  }

  lemma {:induction false} FilterDistinct(s: seq<Card>, p: Card -> bool)
    requires DistinctIds(s)
    ensures DistinctIds(Filter(s, p))
    decreases |s|
  {
    if s != [] {
      DistinctTail(s);
      FilterDistinct(s[1..], p);
      if p(s[0]) {
        var f := Filter(s[1..], p);
        var r := [s[0]] + f;
        forall i, j | 0 <= i < |r| && 0 <= j < |r| && i != j ensures r[i].id != r[j].id {
          if i == 0 {
            assert r[j] == f[j - 1] && r[j] in s[1..];
          } else if j == 0 {
            assert r[i] == f[i - 1] && r[i] in s[1..];
          } else {
            assert r[i] == f[i - 1] && r[j] == f[j - 1];
          }
        }
      }
    }
  }

  // ---------------------------------------------------------------------------
  // What the allocation amounts to.

  /**
   * A card's part of the money left after every minimum due is met, when
   * `slack` is the total of all cards' `totalDue - minimumDue`: its
   * proportional share of the leftover, capped at its own slack.
   */
  function SlackShare(c: Card, leftover: real, slack: real): real
  {
    if slack > 0.0 then CappedShare(SlackOf(c), leftover, slack) else 0.0
  }

  lemma SlackShareBounds(c: Card, leftover: real, slack: real)
    requires leftover >= 0.0 && SlackOf(c) >= 0.0
    ensures 0.0 <= SlackShare(c, leftover, slack) <= SlackOf(c)
    ensures slack > 0.0 && leftover <= slack ==> SlackShare(c, leftover, slack) == (leftover / slack) * SlackOf(c)
    ensures slack > 0.0 && leftover >= slack ==> SlackShare(c, leftover, slack) == SlackOf(c)
  {
    if slack > 0.0 {
      var q := SlackOf(c) / slack;
      assert q >= 0.0;
      assert leftover * q == (leftover / slack) * SlackOf(c);
      if leftover <= slack {
        assert leftover / slack <= 1.0;
        assert (leftover / slack) * SlackOf(c) <= SlackOf(c);
      } else {
        assert leftover / slack >= 1.0;
        assert (leftover / slack) * SlackOf(c) >= SlackOf(c);
      }
    }
  }

  lemma SharesScaled(s: seq<Card>, leftover: real, slack: real, share: Card -> real, f: Card -> real, k: real)
    requires ConsistentDues(s) && 0.0 <= leftover <= slack && slack > 0.0
    requires share == ((c: Card) => SlackShare(c, leftover, slack))
    requires f == SlackOf && k == leftover / slack
    ensures forall c :: c in s ==> share(c) == k * f(c)
  {
    forall c | c in s ensures share(c) == k * f(c) {
      SlackShareBounds(c, leftover, slack);
    }
  }

  lemma SharesBelowSlack(s: seq<Card>, leftover: real, slack: real)
    requires ConsistentDues(s) && 0.0 <= leftover <= slack && slack > 0.0
    ensures SumOf(s, (c: Card) => SlackShare(c, leftover, slack)) == (leftover / slack) * SumOf(s, SlackOf)
  {
    var share := (c: Card) => SlackShare(c, leftover, slack);
    var k := leftover / slack;
    SharesScaled(s, leftover, slack, share, SlackOf, k);
    ScaledSum(s, SlackOf, share, k);
  }

  lemma {:induction false} ScaledSum(s: seq<Card>, f: Card -> real, g: Card -> real, k: real)
    requires forall c :: c in s ==> g(c) == k * f(c)
    ensures SumOf(s, g) == k * SumOf(s, f)
    decreases |s|
  {
    if s != [] {
      assert forall c :: c in s[1..] ==> c in s;
      ScaledSum(s[1..], f, g, k);
    }
  }

  lemma DivTimes(a: real, b: real)
    requires b != 0.0
    ensures (a / b) * b == a
  {
  }

  lemma {:induction false} SharesAboveSlack(s: seq<Card>, leftover: real, slack: real)
    requires ConsistentDues(s) && leftover >= slack && leftover >= 0.0
    requires slack > 0.0 || forall c :: c in s ==> SlackOf(c) == 0.0
    ensures SumOf(s, (c: Card) => SlackShare(c, leftover, slack)) == SumOf(s, SlackOf)
    decreases |s|
  {
    if s != [] {
      assert ConsistentDues(s[1..]) && (slack > 0.0 || forall c :: c in s[1..] ==> SlackOf(c) == 0.0) by {
        assert forall c :: c in s[1..] ==> c in s;
      }
      SharesAboveSlack(s[1..], leftover, slack);
      SlackShareBounds(s[0], leftover, slack);
    }
  }

  /** The shares add up to the leftover, or to the whole slack when the leftover exceeds it. */
  lemma SlackSharesSum(s: seq<Card>, leftover: real, slack: real)
    requires ConsistentDues(s) && leftover > 0.0
    requires slack == SumOf(s, SlackOf)
    ensures SumOf(s, (c: Card) => SlackShare(c, leftover, slack)) == Min(leftover, slack)
  {
    SumOfNonNegative(s, SlackOf);
    if slack > 0.0 && leftover <= slack {
      SharesWithinSlack(s, leftover, slack);
    } else {
      if slack == 0.0 {
        SumOfZero(s, SlackOf);
      }
      SharesAboveSlack(s, leftover, slack);
    }
  }

  lemma SharesWithinSlack(s: seq<Card>, leftover: real, slack: real)
    requires ConsistentDues(s) && 0.0 <= leftover <= slack && slack > 0.0
    requires slack == SumOf(s, SlackOf)
    ensures SumOf(s, (c: Card) => SlackShare(c, leftover, slack)) == leftover
  {
    SharesBelowSlack(s, leftover, slack);
    DivTimes(leftover, slack);
  }

  /** Phase 1 with more money than all minimum dues: every card gets its minimum due. */
  lemma CoverAll(s: seq<Card>, amount: real)
    requires DistinctIds(s) && ConsistentDues(s)
    requires amount > TotalMinimumDue(s)
    ensures forall c :: c in s ==> Get(CoverMinimums(s, amount, []).0, c.id) == c.minimumDue
    ensures CoverMinimums(s, amount, []).1 == amount - TotalMinimumDue(s)
  {
    var d1 := CoverMinimums(s, amount, []).0;
    forall c | c in s ensures Get(d1, c.id) == c.minimumDue {
      var j :| 0 <= j < |s| && s[j] == c;
      assert s[..|s|] == s;
      SumOfPrefixNext(s, MinimumDueOf, j);
      SumOfPrefixBounds(s, MinimumDueOf, j + 1, |s|);
      CoverEntry(s, amount, [], j);
    }
    CoverLeftover(s, amount, []);
  }

  /** Phase 2's divisor, the remaining due after phase 1, is the total slack. */
  lemma RemainingDueIsSlack(s: seq<Card>, d: Dict)
    requires ConsistentDues(s)
    requires forall c :: c in s ==> Get(d, c.id) == c.minimumDue
    ensures TotalRemainingDue(WithRemainingDue(s, d), d) == TotalDue(s) - TotalMinimumDue(s)
  {
    var e := WithRemainingDue(s, d);
    SumOfCongruent(e, (c: Card) => RemainingDue(c, d), SlackOf);
    SumOfFilterZero(s, (c: Card) => c.totalDue > Get(d, c.id), SlackOf);
    SlackSum(s);
  }

  lemma SortedWellFormed(cards: seq<Card>)
    requires WellFormed(cards)
    ensures WellFormed(SortByDueDate(cards))
    ensures forall c :: c in SortByDueDate(cards) <==> c in cards
    ensures TotalDue(SortByDueDate(cards)) == TotalDue(cards)
    ensures TotalMinimumDue(SortByDueDate(cards)) == TotalMinimumDue(cards)
  {
    PermutationKeeps(cards, SortByDueDate(cards));
    PermutationKeepsDistinctIds(cards, SortByDueDate(cards));
  }

  /** Phase 2 after every card received its minimum due, seen from one card. */
  lemma SpreadAfterMinimums(s: seq<Card>, d: Dict, leftover: real, c: Card)
    requires DistinctIds(s) && ConsistentDues(s) && c in s
    requires forall c :: c in s ==> Get(d, c.id) == c.minimumDue
    ensures WithRemainingDue(s, d) == [] || TotalRemainingDue(WithRemainingDue(s, d), d) != 0.0
    ensures Get(SpreadRemainder(WithRemainingDue(s, d), d, leftover, TotalRemainingDue(WithRemainingDue(s, d), d)), c.id)
      == c.minimumDue + SlackShare(c, leftover, TotalRemainingDue(WithRemainingDue(s, d), d))
  {
    RemainingDuePositive(s, d);
    if c in WithRemainingDue(s, d) {
      SpreadOwing(s, d, leftover, c);
    } else {
      SpreadSettled(s, d, leftover, c);
    }
  }

  /** A card that still owes after phase 1 gets its proportional share. */
  lemma SpreadOwing(s: seq<Card>, d: Dict, leftover: real, c: Card)
    requires DistinctIds(s) && c in WithRemainingDue(s, d)
    requires Get(d, c.id) == c.minimumDue
    requires TotalRemainingDue(WithRemainingDue(s, d), d) > 0.0
    ensures Get(SpreadRemainder(WithRemainingDue(s, d), d, leftover, TotalRemainingDue(WithRemainingDue(s, d), d)), c.id)
      == c.minimumDue + SlackShare(c, leftover, TotalRemainingDue(WithRemainingDue(s, d), d))
  {
    var e := WithRemainingDue(s, d);
    var total := TotalRemainingDue(e, d);
    FilterDistinct(s, (c: Card) => c.totalDue > Get(d, c.id));
    SpreadValues(e, d, leftover, total);
    assert Get(SpreadRemainder(e, d, leftover, total), c.id) == Get(d, c.id) + ExtraShare(c, d, leftover, total);
    ExtraShareIsSlackShare(c, d, leftover, total);
  }

  lemma ExtraShareIsSlackShare(c: Card, d: Dict, leftover: real, total: real)
    requires total > 0.0 && Get(d, c.id) == c.minimumDue
    ensures ExtraShare(c, d, leftover, total) == SlackShare(c, leftover, total)
  {
    var x := SlackOf(c);
    assert RemainingDue(c, d) == x;
  }

  /** A card that owes nothing more after phase 1 is left as it is. */
  lemma SpreadSettled(s: seq<Card>, d: Dict, leftover: real, c: Card)
    requires DistinctIds(s) && ConsistentDues(s) && c in s && c !in WithRemainingDue(s, d)
    requires Get(d, c.id) == c.minimumDue
    requires WithRemainingDue(s, d) == [] || TotalRemainingDue(WithRemainingDue(s, d), d) != 0.0
    ensures Get(SpreadRemainder(WithRemainingDue(s, d), d, leftover, TotalRemainingDue(WithRemainingDue(s, d), d)), c.id)
      == c.minimumDue + SlackShare(c, leftover, TotalRemainingDue(WithRemainingDue(s, d), d))
  {
    var e := WithRemainingDue(s, d);
    var total := TotalRemainingDue(e, d);
    assert NotAnIdOf(e, c.id) by {
      forall c' | c' in e ensures c'.id != c.id {
        DifferentCardsDifferentIds(s, c, c');
      }
    }
    SpreadFrame(e, d, leftover, total, c.id);
    assert SlackOf(c) == 0.0;
    if total > 0.0 {
      assert SlackOf(c) / total == 0.0;
    }
  }

  // The two phases on a due-date ordered sequence of well-formed cards.

  /** Phase 1 covers every minimum due; phase 2 adds the card's share of the rest. */
  lemma PhasesAboveMinimumsAt(s: seq<Card>, amount: real, c: Card)
    requires WellFormed(s) && c in s
    requires amount > TotalMinimumDue(s)
    ensures Get(Phases(s, amount), c.id)
      == c.minimumDue + SlackShare(c, amount - TotalMinimumDue(s), TotalDue(s) - TotalMinimumDue(s))
  {
    var p := CoverMinimums(s, amount, []);
    CoverAll(s, amount);
    RemainingDueIsSlack(s, p.0);
    SpreadAfterMinimums(s, p.0, p.1, c);
  }

  lemma PhasesAboveMinimums(s: seq<Card>, amount: real)
    requires WellFormed(s)
    requires amount > TotalMinimumDue(s)
    ensures forall c :: c in s ==>
      Get(Phases(s, amount), c.id) == c.minimumDue + SlackShare(c, amount - TotalMinimumDue(s), TotalDue(s) - TotalMinimumDue(s))
  {
    forall c | c in s
      ensures Get(Phases(s, amount), c.id)
        == c.minimumDue + SlackShare(c, amount - TotalMinimumDue(s), TotalDue(s) - TotalMinimumDue(s))
    {
      PhasesAboveMinimumsAt(s, amount, c);
    }
  }

  /** Without money beyond the minimum dues only phase 1 runs. */
  lemma PhasesWithinMinimums(s: seq<Card>, amount: real, j: nat)
    requires WellFormed(s)
    requires amount <= TotalMinimumDue(s)
    requires j < |s|
    ensures HasKey(Phases(s, amount), s[j].id) <==> amount > SumOf(s[..j], MinimumDueOf)
    ensures Get(Phases(s, amount), s[j].id)
      == if amount > SumOf(s[..j], MinimumDueOf)
         then Min(s[j].minimumDue, amount - SumOf(s[..j], MinimumDueOf)) else 0.0
  {
    CoverLeftover(s, amount, []);
    CoverEntry(s, amount, [], j);
    if amount <= SumOf(s[..j], MinimumDueOf) {
      GetMissing(Phases(s, amount), s[j].id);
    }
  }

  lemma PhasesBoundsAt(s: seq<Card>, amount: real, c: Card)
    requires WellFormed(s) && c in s
    ensures 0.0 <= Get(Phases(s, amount), c.id) <= c.totalDue
  {
    if amount > TotalMinimumDue(s) {
      PhasesAboveMinimumsAt(s, amount, c);
      SlackShareBounds(c, amount - TotalMinimumDue(s), TotalDue(s) - TotalMinimumDue(s));
    } else {
      var j :| 0 <= j < |s| && s[j] == c;
      PhasesWithinMinimums(s, amount, j);
    }
  }

  lemma PhasesTotal(s: seq<Card>, amount: real)
    requires WellFormed(s)
    ensures Allocated(s, Phases(s, amount)) == Min(Max(amount, 0.0), TotalDue(s))
  {
    DueSumsOrdered(s);
    var u := Phases(s, amount);
    var m := TotalMinimumDue(s);
    if amount <= 0.0 {
      CoverSkip(s, amount, []);
      AllocatedNoEntries(s, u);
    } else if amount <= m {
      CoverLeftover(s, amount, []);
      CoverSum(s, amount, []);
    } else {
      PhasesTotalAbove(s, amount, u);
    }
  }

  lemma PhasesTotalAbove(s: seq<Card>, amount: real, u: Dict)
    requires WellFormed(s)
    requires amount > TotalMinimumDue(s)
    requires u == Phases(s, amount)
    ensures Allocated(s, u) == Min(amount, TotalDue(s))
  {
    var m := TotalMinimumDue(s);
    var slack := TotalDue(s) - m;
    var share := (c: Card) => SlackShare(c, amount - m, slack);
    PhasesAboveMinimums(s, amount);
    SumOfCongruent(s, (c: Card) => Get(u, c.id), (c: Card) => c.minimumDue + share(c));
    SumOfPlus(s, MinimumDueOf, share, (c: Card) => c.minimumDue + share(c));
    SlackSum(s);
    SlackSharesSum(s, amount - m, slack);
  }

  lemma {:induction false} CoverKeys(s: seq<Card>, remaining: real, d: Dict, k: string)
    requires HasKey(CoverMinimums(s, remaining, d).0, k)
    ensures HasKey(d, k) || IsCardId(s, k)
    decreases |s|
  {
    if s != [] {
      var x := Min(s[0].minimumDue, remaining);
      assert forall c :: c in s[1..] ==> c in s;
      if remaining <= 0.0 {
        CoverKeys(s[1..], remaining, d, k);
      } else {
        CoverKeys(s[1..], remaining - x, Set(d, s[0].id, x), k);
        if k != s[0].id {
          SetOther(d, s[0].id, x, k);
        }
      }
    }
  }

  lemma {:induction false} SpreadKeys(e: seq<Card>, d: Dict, leftover: real, total: real, k: string)
    requires e == [] || total != 0.0
    requires HasKey(SpreadRemainder(e, d, leftover, total), k)
    ensures HasKey(d, k) || IsCardId(e, k)
    decreases |e|
  {
    if e != [] {
      assert forall c :: c in e[1..] ==> c in e;
      SpreadKeys(e[1..], SpreadStep(e[0], d, leftover, total), leftover, total, k);
      if k != e[0].id {
        SpreadStepOther(e[0], d, leftover, total, k);
      }
    }
  }

  lemma PhasesKeys(s: seq<Card>, amount: real, k: string)
    requires HasKey(Phases(s, amount), k)
    ensures IsCardId(s, k)
  {
    var (d1, r) := CoverMinimums(s, amount, []);
    if r > 0.0 {
      var e := WithRemainingDue(s, d1);
      RemainingDuePositive(s, d1);
      SpreadKeys(e, d1, r, TotalRemainingDue(e, d1), k);
      if !HasKey(d1, k) {
        var c :| c in e && c.id == k;
        assert c in s;
      }
    }
    if HasKey(d1, k) {
      CoverKeys(s, amount, [], k);
    }
  }

  // The allocation of the store's cards, sorted by due date first.

  /**
   * With more money than all minimum dues together, every card receives its
   * minimum due plus its capped proportional share of the rest.
   */
  lemma UnroundedAboveMinimums(cards: seq<Card>, amount: real)
    requires WellFormed(cards)
    requires amount > TotalMinimumDue(cards)
    ensures forall c :: c in cards ==>
      Get(Unrounded(cards, amount), c.id)
        == c.minimumDue + SlackShare(c, amount - TotalMinimumDue(cards), TotalDue(cards) - TotalMinimumDue(cards))
  {
    SortedWellFormed(cards);
    PhasesAboveMinimums(SortByDueDate(cards), amount);
  }

  /**
   * With at most the sum of the minimum dues there is no second phase: in
   * due-date order, each card receives its minimum due, or what is left,
   * for as long as money remains, and the cards after that no entry.
   */
  lemma UnroundedWithinMinimums(cards: seq<Card>, amount: real, j: nat)
    requires WellFormed(cards)
    requires amount <= TotalMinimumDue(cards)
    requires j < |cards|
    ensures var s := SortByDueDate(cards);
      HasKey(Unrounded(cards, amount), s[j].id) <==> amount > SumOf(s[..j], MinimumDueOf)
    ensures var s := SortByDueDate(cards);
      Get(Unrounded(cards, amount), s[j].id)
        == if amount > SumOf(s[..j], MinimumDueOf)
           then Min(s[j].minimumDue, amount - SumOf(s[..j], MinimumDueOf)) else 0.0
  {
    SortedWellFormed(cards);
    PhasesWithinMinimums(SortByDueDate(cards), amount, j);
  }

  /** A non-positive amount is not distributed at all. */
  lemma UnroundedNothing(cards: seq<Card>, amount: real)
    requires amount <= 0.0
    ensures Unrounded(cards, amount) == []
    ensures Distribution(cards, amount) == []
  {
    CoverSkip(SortByDueDate(cards), amount, []);
  }

  /**
   * Minimum dues are met in due-date order: a card with a later due date
   * receives something only once every earlier card received at least its
   * minimum due.
   */
  lemma EarlierDueFirst(cards: seq<Card>, amount: real, i: nat, j: nat)
    requires WellFormed(cards)
    requires i < j < |cards|
    requires HasKey(Unrounded(cards, amount), SortByDueDate(cards)[j].id)
    ensures Get(Unrounded(cards, amount), SortByDueDate(cards)[i].id) >= SortByDueDate(cards)[i].minimumDue
  {
    var s := SortByDueDate(cards);
    SortedWellFormed(cards);
    assert s[i] in s;
    if amount > TotalMinimumDue(s) {
      PhasesAboveMinimumsAt(s, amount, s[i]);
      SlackShareBounds(s[i], amount - TotalMinimumDue(s), TotalDue(s) - TotalMinimumDue(s));
    } else {
      PhasesPriority(s, amount, i, j);
    }
  }

  lemma PhasesPriority(s: seq<Card>, amount: real, i: nat, j: nat)
    requires WellFormed(s)
    requires i < j < |s|
    requires amount <= TotalMinimumDue(s)
    requires HasKey(Phases(s, amount), s[j].id)
    ensures Get(Phases(s, amount), s[i].id) == s[i].minimumDue
  {
    var pi := SumOf(s[..i], MinimumDueOf);
    var pj := SumOf(s[..j], MinimumDueOf);
    PhasesWithinMinimums(s, amount, j);
    assert 0.0 <= s[i].minimumDue && pi + s[i].minimumDue <= pj by {
      assert s[i] in s;
      SumOfPrefixNext(s, MinimumDueOf, i);
      SumOfPrefixBounds(s, MinimumDueOf, i + 1, j);
    }
    PhasesWithinMinimums(s, amount, i);
  }

  /** No card is allotted more than it owes, nor a negative amount. */
  lemma UnroundedBounds(cards: seq<Card>, amount: real)
    requires WellFormed(cards)
    ensures forall c :: c in cards ==> 0.0 <= Get(Unrounded(cards, amount), c.id) <= c.totalDue
  {
    SortedWellFormed(cards);
    forall c | c in cards ensures 0.0 <= Get(Unrounded(cards, amount), c.id) <= c.totalDue {
      PhasesBoundsAt(SortByDueDate(cards), amount, c);
    }
  }

  /**
   * The cards together receive the whole amount, or their whole total due
   * when the amount exceeds it (nothing for a non-positive amount).
   */
  lemma UnroundedTotal(cards: seq<Card>, amount: real)
    requires WellFormed(cards)
    ensures Allocated(cards, Unrounded(cards, amount)) == Min(Max(amount, 0.0), TotalDue(cards))
  {
    var s := SortByDueDate(cards);
    SortedWellFormed(cards);
    PhasesTotal(s, amount);
    AllocatedPermutation(cards, s, Phases(s, amount));
  }

  /** An amount covering the total due pays every card in full. */
  lemma UnroundedPaysInFull(cards: seq<Card>, amount: real)
    requires WellFormed(cards)
    requires amount >= TotalDue(cards)
    ensures forall c :: c in cards ==> Get(Unrounded(cards, amount), c.id) == c.totalDue
  {
    var u := Unrounded(cards, amount);
    UnroundedBounds(cards, amount);
    UnroundedTotal(cards, amount);
    DueSumsOrdered(cards);
    SumOfAtBound(cards, (c: Card) => Get(u, c.id), TotalDueOf);
  }

  /** Only ids of the store's cards appear in the distribution. */
  lemma UnroundedKeys(cards: seq<Card>, amount: real, k: string)
    requires HasKey(Unrounded(cards, amount), k)
    ensures IsCardId(cards, k)
  {
    var s := SortByDueDate(cards);
    PermutationKeeps(cards, s);
    PhasesKeys(s, amount, k);
  }

  // ---------------------------------------------------------------------------
  // The rounded result.

  /**
   * The returned distribution has the same entries as the unrounded one,
   * each rounded to the nearest cent, so it is off by at most half a cent.
   */
  lemma DistributionRounded(cards: seq<Card>, amount: real, k: string)
    ensures HasKey(Distribution(cards, amount), k) <==> HasKey(Unrounded(cards, amount), k)
    ensures Get(Distribution(cards, amount), k) == RoundCents(Get(Unrounded(cards, amount), k))
    ensures -0.005 < Get(Distribution(cards, amount), k) - Get(Unrounded(cards, amount), k) <= 0.005
  {
    var u := Unrounded(cards, amount);
    LookupMapValues(u, RoundCents, k);
    if !HasKey(u, k) {
      GetMissing(u, k);
      assert Round(0.0) == 0;
    }
    RoundCentsClose(Get(u, k));
  }

  /** Cards whose total dues are whole cents are paid exactly their total due. */
  lemma DistributionPaysInFull(cards: seq<Card>, amount: real)
    requires WellFormed(cards)
    requires amount >= TotalDue(cards)
    requires forall c :: c in cards ==> (c.totalDue * 100.0).Floor as real == c.totalDue * 100.0
    ensures forall c :: c in cards ==> Get(Distribution(cards, amount), c.id) == c.totalDue
  {
    UnroundedPaysInFull(cards, amount);
    forall c | c in cards ensures Get(Distribution(cards, amount), c.id) == c.totalDue {
      DistributionRounded(cards, amount, c.id);
      var n := (c.totalDue * 100.0).Floor;
      assert c.totalDue == n as real / 100.0;
      RoundCentsOfCents(n);
    }
  }

  /** Rounding moves the cards' total by at most half a cent per card. */
  lemma DistributionTotal(cards: seq<Card>, amount: real)
    requires WellFormed(cards)
    ensures -0.005 * |cards| as real
      <= Allocated(cards, Distribution(cards, amount)) - Min(Max(amount, 0.0), TotalDue(cards))
      <= 0.005 * |cards| as real
  {
    var u := Unrounded(cards, amount);
    var r := Distribution(cards, amount);
    var n := |cards| as real;
    var target := Min(Max(amount, 0.0), TotalDue(cards));
    var diff := Allocated(cards, r) - Allocated(cards, u);
    assert forall k :: Get(r, k) == RoundCents(Get(u, k)) by {
      forall k ensures Get(r, k) == RoundCents(Get(u, k)) {
        DistributionRounded(cards, amount, k);
      }
    }
    RoundedSumClose(cards, u, r);
    assert Allocated(cards, u) == target by {
      UnroundedTotal(cards, amount);
    }
  }

  lemma RoundedSumClose(cards: seq<Card>, u: Dict, r: Dict)
    requires forall k :: Get(r, k) == RoundCents(Get(u, k))
    ensures -0.005 * |cards| as real <= Allocated(cards, r) - Allocated(cards, u) <= 0.005 * |cards| as real
  {
    forall c | c in cards ensures -0.005 <= Get(r, c.id) - Get(u, c.id) <= 0.005 {
      RoundCentsClose(Get(u, c.id));
    }
    SumOfClose(cards, (c: Card) => Get(r, c.id), (c: Card) => Get(u, c.id), 0.005);
  }
}
