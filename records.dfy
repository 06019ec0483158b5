/** Rows of the backing store as the hooks and the weekly summary page see them,
    and the shape of the store's replies. */
module Records {

  /** A calendar date, as a day number: the number of days since 1970-01-01,
      which was a Thursday. */
  type Date = int

  datatype Option<+T> = None | Some(value: T)

  /** The reply of the backing store to one request: the data it returned, or
      the error code it reported (`"23505"` is PostgreSQL's unique violation). */
  datatype Reply<+T> = Ok(data: T) | Err(code: string)

  /** One row of the `earnings` table. The date is the table's unique key;
      `total_amount` is computed by the store and may be null. */
  datatype Earning = Earning(
    id: string,
    date: Date,
    daily_amount: real,
    cash_amount: real,
    total_amount: Option<real>)

  /** One row of the `monthly_targets` table. */
  datatype MonthlyTarget = MonthlyTarget(
    id: string,
    month: int,
    year: int,
    target_amount: real)

  /** The singleton `settings` row: monthly costs and the platform's fee in percent. */
  datatype Settings = Settings(
    rent: real,
    motorcycle: real,
    tax: real,
    wolt_rate: real)

  /** JavaScript's `v || 0` on a nullable number: null becomes 0. The same value
      is what `sum + v` adds, since `+` turns null into 0. */
  function OrZero(v: Option<real>): (r: real)
    ensures v.Some? ==> r == v.value
    ensures r == 0.0 <==> v.None? || v.value == 0.0
  {
    if v.Some? then v.value else 0.0
  }
}
