/**
 * The booking ("order") record: what a visitor submits, and the row of the `users` table that
 * stores it together with its status.
 */
module Orders {
  import opened Wrappers
  import opened JsText
  import opened Store

  /** What a booking page submits (`UserData`). */
  datatype UserData = UserData(
    name: string,
    email: string,
    phone: string,
    address: Option<string>,
    notes: Option<string>,
    sourcePage: string,   // "package", "experience", "trip", or other text
    sourceId: string,
    sourceName: string,
    people: JsNumber,
    date: string,
    price: Option<int>
  )

  /** The columns of a stored order besides its id and creation time. */
  datatype OrderFields = OrderFields(
    name: string,
    email: string,
    phone: string,
    address: Option<string>,
    notes: Option<string>,
    sourcePage: string,
    sourceId: string,
    sourceName: string,
    people: JsNumber,
    date: string,
    price: Option<int>,
    status: string
  )

  type OrderRow = Row<OrderFields>

  /** `{ ...userData, status }` */
  function WithStatus(u: UserData, status: string): (o: OrderFields)
    ensures Submitted(o) == u && o.status == status
  {
    OrderFields(u.name, u.email, u.phone, u.address, u.notes, u.sourcePage, u.sourceId,
                u.sourceName, u.people, u.date, u.price, status)
  }

  /** The submitted part of a stored order. */
  function Submitted(o: OrderFields): UserData {
    UserData(o.name, o.email, o.phone, o.address, o.notes, o.sourcePage, o.sourceId,
             o.sourceName, o.people, o.date, o.price)
  }

  /** Changing the status of an order: the patch of an `update({ status })`. */
  function SetStatus(status: string): OrderFields -> OrderFields {
    (o: OrderFields) => o.(status := status)
  }
}
