/**
 * The card tile (`CreditCardUI`): the status dot coloured by the days left
 * until the due date, and the "day"/"days" label beside it.
 */
module CreditCardUI {
  import opened MockData

  datatype Status = Red | Yellow | Green

  /** `getStatusColor()`: three days or fewer (overdue included) red, up to seven yellow, else green. */
  function StatusColor(daysRemaining: int): (s: Status)
    ensures s == Red <==> daysRemaining <= 3
    ensures s == Yellow <==> 4 <= daysRemaining <= 7
    ensures s == Green <==> daysRemaining > 7
  {
    if daysRemaining <= 3 then Red
    else if daysRemaining <= 7 then Yellow
    else Green
  }

  /** More days left never makes the status more urgent. */
  lemma StatusMonotone(d: int, d': int)
    requires d <= d'
    ensures StatusColor(d) == Green ==> StatusColor(d') == Green
    ensures StatusColor(d') == Red ==> StatusColor(d) == Red
  {
  }

  /** The tile's status: the days left until `due` at time `now`. */
  function CardStatus(due: int, now: int): Status
  {
    StatusColor(DaysRemaining(due, now))
  }

  /** A card due within three days, or overdue, is red; one due more than a week ahead is green. */
  lemma CardStatusByTime(due: int, now: int)
    ensures due - now <= 3 * DayMs ==> CardStatus(due, now) == Red
    ensures due - now > 7 * DayMs ==> CardStatus(due, now) == Green
    ensures 3 * DayMs < due - now <= 7 * DayMs ==> CardStatus(due, now) == Yellow
  {
    var r := DaysRemaining(due, now);
    assert (r - 1) * DayMs < due - now <= r * DayMs;
    if due - now <= 3 * DayMs {
      assert (r - 1) * DayMs < 3 * DayMs;
    }
    if due - now > 7 * DayMs {
      assert 7 * DayMs < r * DayMs;
    }
  }

  /** `day{daysRemaining !== 1 ? 's' : ''}`. */
  function DayLabel(daysRemaining: int): (text: string)
    ensures text == "day" <==> daysRemaining == 1
    ensures text == "days" <==> daysRemaining != 1
  {
    "day" + (if daysRemaining != 1 then "s" else "")
  }
}
