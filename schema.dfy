/**
 * The record types of shared/schema.ts, as the in-memory store and the
 * routes use them. Nullable columns become `Option`; a field of a request
 * body that may be left out or set to null becomes `Input`.
 */
module Schema {
  import opened Common

  /** A body field as zod hands it over: left out, explicitly null, or given. */
  datatype Input<T> = Undefined | Null | Given(value: T)

  /** A stored emergency contact. `sendSms`/`sendEmail` are nullable booleans. */
  datatype Contact = Contact(
    id: int,
    name: string,
    phone: string,
    email: Option<string>,
    sendSms: Option<bool>,
    sendEmail: Option<bool>,
    userId: Option<int>)

  /** The validated body of a contact creation (`InsertContact`). */
  datatype NewContact = NewContact(
    name: string,
    phone: string,
    email: Input<string>,
    sendSms: Input<bool>,
    sendEmail: Input<bool>,
    userId: Input<int>)

  /**
   * A partial contact (`Partial<InsertContact>`): `None` leaves the field
   * alone, `Some(v)` overwrites it (for nullable fields `Some(None)` writes null).
   */
  datatype ContactPatch = ContactPatch(
    name: Option<string>,
    phone: Option<string>,
    email: Option<Option<string>>,
    sendSms: Option<Option<bool>>,
    sendEmail: Option<Option<bool>>,
    userId: Option<Option<int>>)

  datatype User = User(id: int, username: string, password: string)

  datatype NewUser = NewUser(username: string, password: string)

  /** One row of the notification log; `sentAt` is the clock's ISO text, taken as given. */
  datatype Notification = Notification(
    id: int,
    contactId: int,
    message: string,
    sentAt: string,
    success: bool,
    errorMessage: Option<string>)

  /**
   * A latitude or longitude: its numeric value (for JavaScript truthiness,
   * where only 0 is falsy) and its rendering in a template literal.
   */
  datatype Coordinate = Coordinate(value: real, text: string)

  datatype Location = Location(lat: Coordinate, lng: Coordinate)

  /** Contacts listed in strictly increasing id order; this also makes ids unique. */
  predicate IdsAscending(cs: seq<Contact>) {
    forall i, j :: 0 <= i < j < |cs| ==> cs[i].id < cs[j].id
  }

  predicate HasContact(cs: seq<Contact>, id: int) {
    exists i :: 0 <= i < |cs| && cs[i].id == id
  }

  /** Position of the contact with the given id, if any (`Map.get` on the contact table). */
  function IndexOfId(cs: seq<Contact>, id: int): (k: Option<nat>)
    ensures k.Some? ==> k.value < |cs| && cs[k.value].id == id
    ensures k.None? <==> !HasContact(cs, id)
  {
    if cs == [] then None
    else if cs[0].id == id then Some(0)
    else match IndexOfId(cs[1..], id)
      case None => assert forall i :: 0 < i < |cs| ==> cs[i] == cs[1..][i - 1]; None
      case Some(k) => Some(k + 1)
  }
}
