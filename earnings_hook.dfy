/** The earnings hook: the in-memory list of earnings kept beside the store,
    and how fetching, saving today's amounts and deleting change it. The store
    itself is an oracle, passed in as the reply it gives to each request. */
module EarningsHook {
  import opened Records

  /** PostgreSQL's unique-violation code: a row for that date already exists. */
  const UniqueViolation: string := "23505"

  /** The row the hook asks the store to insert. */
  datatype InsertRequest = InsertRequest(date: Date, daily_amount: real, cash_amount: real)

  /** The update the hook asks for: new amounts for the row with that date
      (the `updated_at` timestamp it also sends is not modelled). */
  datatype UpdateRequest = UpdateRequest(date: Date, daily_amount: real, cash_amount: real)

  /** Which notice the hook shows after saving. */
  datatype SaveOutcome = Saved | Updated | Failed

  // ---------------------------------------------------------------------------
  // The list updates applied by the hook

  /** `prev.map(e => e.date === date ? row : e)`. */
  function ReplaceOnDate(prev: seq<Earning>, date: Date, row: Earning): (next: seq<Earning>)
    ensures |next| == |prev|
    ensures forall i :: 0 <= i < |prev| ==> next[i] == if prev[i].date == date then row else prev[i]
  {
    if prev == [] then []
    else [if prev[0].date == date then row else prev[0]] + ReplaceOnDate(prev[1..], date, row)
  }

  /** `prev.filter(e => e.id !== id)`. */
  function RemoveId(prev: seq<Earning>, id: string): (next: seq<Earning>)
    ensures |next| <= |prev|
    ensures forall e :: e in next <==> e in prev && e.id != id
  {
    if prev == [] then []
    else if prev[0].id == id then RemoveId(prev[1..], id)
    else [prev[0]] + RemoveId(prev[1..], id)
  }

  /** Number of entries of `s` with identity `id`. */
  function CountId(s: seq<Earning>, id: string): (n: nat)
    ensures n <= |s|
    ensures n == 0 <==> forall e :: e in s ==> e.id != id
  {
    if s == [] then 0 else (if s[0].id == id then 1 else 0) + CountId(s[1..], id)
  }

  /** The list after `fetchEarnings`: the rows the store returned (none when it
      returned no data), or the previous list when the request failed. */
  function AfterFetch(prev: seq<Earning>, reply: Reply<Option<seq<Earning>>>): (next: seq<Earning>)
    ensures reply.Err? ==> next == prev
    ensures reply.Ok? ==> forall e :: e in next <==> reply.data.Some? && e in reply.data.value
  {
    match reply
    case Ok(Some(rows)) => rows
    case Ok(None) => []
    case Err(_) => prev
  }

  /** The list after `addEarning`, given the store's reply to the insert and,
      consulted only after a unique violation, its reply to the update. */
  function AfterAdd(prev: seq<Earning>, today: Date, inserted: Reply<Earning>, updated: Reply<Earning>): (next: seq<Earning>)
    ensures |next| == |prev| + (if inserted.Ok? then 1 else 0)
    ensures inserted.Ok? ==> next[0] == inserted.data && next[1..] == prev
    ensures inserted.Err? ==> forall i :: 0 <= i < |prev| && prev[i].date != today ==> next[i] == prev[i]
    ensures inserted.Err? && inserted.code != UniqueViolation ==> next == prev
  {
    match inserted
    case Ok(row) => [row] + prev
    case Err(code) =>
      if code == UniqueViolation && updated.Ok? then ReplaceOnDate(prev, today, updated.data)
      else prev
  }

  /** The list after `deleteEarning(id)`, given the store's reply. */
  function AfterDelete(prev: seq<Earning>, id: string, deleted: Reply<()>): (next: seq<Earning>)
    ensures |next| <= |prev|
    ensures deleted.Err? ==> next == prev
    ensures deleted.Ok? ==> forall e :: e in next <==> e in prev && e.id != id
  {
    if deleted.Ok? then RemoveId(prev, id) else prev
  }

  // ---------------------------------------------------------------------------
  // Properties of the updates

  /** A successful fetch shows exactly the store's rows; a failed one keeps the old list. */
  lemma FetchReplacesOrKeeps(prev: seq<Earning>, reply: Reply<Option<seq<Earning>>>)
    ensures reply.Ok? && reply.data.Some? ==> AfterFetch(prev, reply) == reply.data.value
    ensures reply.Ok? && reply.data.None? ==> AfterFetch(prev, reply) == []
    ensures reply.Err? ==> AfterFetch(prev, reply) == prev
  {
  }

  /** A successful insert puts the new row in front of the old entries, which keep their order. */
  lemma InsertPrepends(prev: seq<Earning>, today: Date, row: Earning, updated: Reply<Earning>)
    ensures var next := AfterAdd(prev, today, Ok(row), updated);
      |next| == |prev| + 1 && next[0] == row && next[1..] == prev
  {
  }

  /** On a unique violation followed by a successful update, every entry dated today
      becomes the updated row; every other entry, and the length, stay as they were. */
  lemma ConflictReplacesToday(prev: seq<Earning>, today: Date, row: Earning)
    ensures var next := AfterAdd(prev, today, Err(UniqueViolation), Ok(row));
      |next| == |prev|
      && (forall i :: 0 <= i < |prev| && prev[i].date == today ==> next[i] == row)
      && (forall i :: 0 <= i < |prev| && prev[i].date != today ==> next[i] == prev[i])
  {
  }

  /** The update sends the new amounts themselves, not their sum with the old ones:
      when the store answers the update `AddEarning` sends with the row it asked for,
      today's entries carry exactly those amounts, whatever they held before. */
  lemma UpdateReplacesAmounts(prev: seq<Earning>, today: Date, dailyAmount: real, cashAmount: real,
                              update: UpdateRequest -> Reply<Earning>)
    requires update(UpdateRequest(today, dailyAmount, cashAmount)).Ok?
    requires update(UpdateRequest(today, dailyAmount, cashAmount)).data.date == today
    requires update(UpdateRequest(today, dailyAmount, cashAmount)).data.daily_amount == dailyAmount
    requires update(UpdateRequest(today, dailyAmount, cashAmount)).data.cash_amount == cashAmount
    ensures var next := AfterAdd(prev, today, Err(UniqueViolation), update(UpdateRequest(today, dailyAmount, cashAmount)));
      forall i :: 0 <= i < |prev| && prev[i].date == today ==>
        next[i].date == today && next[i].daily_amount == dailyAmount && next[i].cash_amount == cashAmount
  {
  }

  /** Any other insert error, or a failed update, leaves the list as it was. */
  lemma AddErrorKeeps(prev: seq<Earning>, today: Date, code: string, updated: Reply<Earning>)
    requires code != UniqueViolation || updated.Err?
    ensures AfterAdd(prev, today, Err(code), updated) == prev
  {
  }

  /** Saving twice on the same day: the second update overwrites the first, as if only
      the second had been made (provided the updated row keeps today's date). */
  lemma {:induction false} UpdateTwiceLastWins(prev: seq<Earning>, today: Date, first: Earning, second: Earning)
    requires first.date == today
    ensures ReplaceOnDate(ReplaceOnDate(prev, today, first), today, second) == ReplaceOnDate(prev, today, second)
  {
    if prev != [] {
      UpdateTwiceLastWins(prev[1..], today, first, second);
    }
  }

  /** Removal keeps order: removing from a concatenation removes from each part. */
  lemma {:induction false} RemoveIdAppend(a: seq<Earning>, b: seq<Earning>, id: string)
    ensures RemoveId(a + b, id) == RemoveId(a, id) + RemoveId(b, id)
  {
    if a == [] {
      assert a + b == b;
    } else {
      assert (a + b)[1..] == a[1..] + b;
      RemoveIdAppend(a[1..], b, id);
    }
  }

  /** Removal drops exactly the entries with that id. */
  lemma {:induction false} RemoveIdCount(prev: seq<Earning>, id: string)
    ensures |RemoveId(prev, id)| == |prev| - CountId(prev, id)
    ensures CountId(RemoveId(prev, id), id) == 0
  {
    if prev != [] {
      RemoveIdCount(prev[1..], id);
    }
  }

  /** Deleting an id that is not in the list changes nothing. */
  lemma {:induction false} RemoveAbsentId(prev: seq<Earning>, id: string)
    requires forall e :: e in prev ==> e.id != id
    ensures RemoveId(prev, id) == prev
  {
    if prev != [] {
      RemoveAbsentId(prev[1..], id);
    }
  }

  /** Deleting twice leaves the list as after one delete, whatever the store
      answers the second time. */
  lemma DeleteIdempotent(prev: seq<Earning>, id: string, second: Reply<()>)
    ensures var once := AfterDelete(prev, id, Ok(()));
      AfterDelete(once, id, second) == once
  {
    RemoveAbsentId(RemoveId(prev, id), id);
  }

  /** A failed delete leaves the list as it was. */
  lemma DeleteErrorKeeps(prev: seq<Earning>, id: string, code: string)
    ensures AfterDelete(prev, id, Err(code)) == prev
  {
  }

  // ---------------------------------------------------------------------------
  // The hook's state

  /** The hook's state: the earnings shown and whether the first fetch is still pending. */
  class EarningsStore {
    var earnings: seq<Earning>
    var loading: bool

    constructor ()
      ensures earnings == [] && loading
    {
      earnings := [];
      loading := true;
    }

    /** `fetchEarnings`: the store's rows (ordered by date, newest first) replace the
        list; on error the list is kept. Either way loading is over. */
    method FetchEarnings(reply: Reply<Option<seq<Earning>>>)
      modifies this
      ensures earnings == AfterFetch(old(earnings), reply)
      ensures !loading
    {
      match reply {
        case Ok(rows) =>
          earnings := if rows.Some? then rows.value else [];
        case Err(_) =>
      }
      loading := false;
    }

    /** `addEarning(dailyAmount, cashAmount)`: always for `today`, the clock's date,
        never a date given by the caller. The store answers each request through
        `insert` and `update`; the update is only sent after a unique violation. */
    method AddEarning(dailyAmount: real, cashAmount: real, today: Date,
                      insert: InsertRequest -> Reply<Earning>, update: UpdateRequest -> Reply<Earning>)
      returns (outcome: SaveOutcome)
      modifies this`earnings
      ensures earnings == AfterAdd(old(earnings), today,
                                   insert(InsertRequest(today, dailyAmount, cashAmount)),
                                   update(UpdateRequest(today, dailyAmount, cashAmount)))
      ensures outcome == Saved <==> insert(InsertRequest(today, dailyAmount, cashAmount)).Ok?
      ensures outcome == Updated <==>
        insert(InsertRequest(today, dailyAmount, cashAmount)) == Err(UniqueViolation)
        && update(UpdateRequest(today, dailyAmount, cashAmount)).Ok?
    {
      var inserted := insert(InsertRequest(today, dailyAmount, cashAmount));
      match inserted {
        case Ok(row) =>
          earnings := [row] + earnings;
          outcome := Saved;
        case Err(code) =>
          if code == UniqueViolation {
            var updated := update(UpdateRequest(today, dailyAmount, cashAmount));
            if updated.Ok? {
              earnings := ReplaceOnDate(earnings, today, updated.data);
              outcome := Updated;
            } else {
              outcome := Failed;
            }
          } else {
            outcome := Failed;
          }
      }
    }

    /** `deleteEarning(id)`: on success the entries with that id leave the list. */
    method DeleteEarning(id: string, delete: string -> Reply<()>)
      modifies this`earnings
      ensures earnings == AfterDelete(old(earnings), id, delete(id))
    {
      var deleted := delete(id);
      if deleted.Ok? {
        earnings := RemoveId(earnings, id);
      }
    }
  }
}
