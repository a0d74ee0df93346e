/** The "upcoming celebrations" screen: every contact whose date lies between
    the reference instant and five days after it, both bounds included. */
module CelebrationScreen {
  import opened Sequences
  import opened ContactModel
  import opened ContactStore

  const DayMs: int := 86_400_000
  /** The width of the celebration window. */
  const FiveDaysMs: int := 5 * DayMs

  /** `contactDate >= today && contactDate <= fiveDaysLater`. Both comparisons
      are false for an invalid date, so an unparseable date never matches. */
  predicate InWindow(date: Option<int>, today: int)
  {
    match date
    case None => false
    case Some(t) => today <= t && t <= today + FiveDaysMs
  }

  function InWindowOf(today: int): Contact -> bool
  {
    (c: Contact) => InWindow(c.date, today)
  }

  /** `result.filter(...)` over the rows of `SELECT * FROM contact`. */
  function Celebrations(rows: seq<Contact>, today: int): (r: seq<Contact>)
    ensures forall c :: c in r ==> c.date.Some? && today <= c.date.value <= today + FiveDaysMs
    ensures forall c :: c in rows && InWindow(c.date, today) ==> c in r
    ensures IsSubsequence(r, rows)
  {
    FilterIsSubsequence(rows, InWindowOf(today));
    Filter(rows, InWindowOf(today))
  }

  /** Both ends of the window are inclusive, the upper one exactly five days
      of milliseconds after the reference instant, and one millisecond
      beyond either end is outside. */
  lemma WindowBounds(today: int)
    ensures InWindow(Some(today), today)
    ensures InWindow(Some(today + 432_000_000), today)
    ensures !InWindow(Some(today - 1), today)
    ensures !InWindow(Some(today + 432_000_000 + 1), today)
  {
  }

  /** Dates are compared as full instants: a row dated before the reference
      instant (earlier the same day, or the same day of a past year), after
      the window, or with no valid date is left out. */
  lemma {:induction false} OutOfWindowExcluded(rows: seq<Contact>, today: int, c: Contact)
    requires c.date.None? || c.date.value < today || c.date.value > today + FiveDaysMs
    ensures c !in Celebrations(rows, today)
  {
  }

  /** The filter works row by row: the result over a concatenation is the
      concatenation of the results. With CelebrationsSingleton this fixes the
      result for every table. */
  lemma CelebrationsAppend(a: seq<Contact>, b: seq<Contact>, today: int)
    ensures Celebrations(a + b, today) == Celebrations(a, today) + Celebrations(b, today)
  {
    FilterAppend(a, b, InWindowOf(today));
  }

  /** A single row is kept exactly when its date is in the window. */
  lemma CelebrationsSingleton(c: Contact, today: int)
    ensures Celebrations([c], today) == if InWindow(c.date, today) then [c] else []
  {
    FilterSingleton(c, InWindowOf(today));
  }

  /** An empty table has no celebrations, and filtering the celebrations again
      with the same reference instant changes nothing. */
  lemma CelebrationsIdempotent(rows: seq<Contact>, today: int)
    ensures Celebrations([], today) == []
    ensures Celebrations(Celebrations(rows, today), today) == Celebrations(rows, today)
  {
    FilterIdempotent(rows, InWindowOf(today));
  }

  /** Two contacts, one two days ahead and one ten days ahead: only the first
      is celebrating soon. */
  lemma TwoContactScenario(today: int, alice: Contact, bob: Contact)
    requires alice.date == Some(today + 2 * DayMs)
    requires bob.date == Some(today + 10 * DayMs)
    ensures Celebrations([alice, bob], today) == [alice]
  {
    CelebrationsAppend([alice], [bob], today);
    CelebrationsSingleton(alice, today);
    CelebrationsSingleton(bob, today);
    assert [alice, bob] == [alice] + [bob];
  }

  /** The screen's state: the list it shows and its pull-to-refresh flag. */
  class CelebrationView {
    var celebrations: seq<Contact>
    var isRefreshing: bool

    constructor ()
      ensures celebrations == [] && !isRefreshing
    {
      celebrations := [];
      isRefreshing := false;
    }

    /** `loadCelebrations`: reads every row, keeps those in the window around
        `today`, and shows them. A failing query is caught and the list shown
        stays as it was. Opening the database happens before the `try`, so
        an open failure is not caught: the call rejects (`resolved` false)
        and the list again stays as it was. */
    method LoadCelebrations(table: ContactTable, today: int, openFault: bool, queryFault: bool)
      returns (resolved: bool, ok: bool)
      modifies this
      ensures resolved == !openFault
      ensures ok == (resolved && table.created && !queryFault)
      ensures celebrations == if ok then Celebrations(table.rows, today) else old(celebrations)
      ensures isRefreshing == old(isRefreshing)
    {
      if openFault {
        return false, false;
      }
      resolved := true;
      var result := table.ListAll(queryFault);
      ok := result.Ok?;
      if ok {
        celebrations := Celebrations(result.value, today);
      }
    }

    /** `onRefresh`: raises the refresh flag, awaits the reload, and lowers
        the flag. When the reload rejects, the statement that lowers the flag
        is never reached and the flag stays raised. */
    method OnRefresh(table: ContactTable, today: int, openFault: bool, queryFault: bool)
      modifies this
      ensures celebrations == if !openFault && table.created && !queryFault
                              then Celebrations(table.rows, today) else old(celebrations)
      ensures isRefreshing == openFault
    {
      isRefreshing := true;
      var resolved, _ := LoadCelebrations(table, today, openFault, queryFault);
      if resolved {
        isRefreshing := false;
      }
    }
  }
}
