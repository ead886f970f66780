/**
 * The in-memory store (server/storage.ts, class `MemStorage`): a contact
 * table with an auto-increment id, an append-only notification log, a
 * settings record replaced as a whole, and a user table.
 *
 * The contact and user `Map`s are kept as sequences in insertion order,
 * which is the order `Map.values()` lists them in; `Map.set` on an existing
 * key keeps its position, and `Map.delete` removes it.
 */
module Storage {
  import opened Common
  import opened Schema

  /** The settings record; numbers as zod accepts them, so not only integers. */
  datatype AppSettings = AppSettings(countdownDuration: real, mild: real, moderate: real, severe: real)

  const InitialSettings := AppSettings(15.0, 7.0, 15.0, 35.0)

  /** `contact.email || null`: left out, null and the empty string all become null. */
  function EmailOrNull(email: Input<string>): (r: Option<string>)
    ensures r.None? <==> email.Undefined? || email.Null? || email == Given("")
    ensures r.Some? ==> email == Given(r.value)
  {
    match email
    case Given(e) => if e == "" then None else Some(e)
    case _ => None
  }

  /** `x === undefined ? default : x`, where an explicit null is kept. */
  function DefaultIfUndefined<T>(x: Input<T>, default: T): (r: Option<T>)
    ensures x.Undefined? ==> r == Some(default)
    ensures x.Null? ==> r.None?
    ensures x.Given? ==> r == Some(x.value)
  {
    match x
    case Undefined => Some(default)
    case Null => None
    case Given(v) => Some(v)
  }

  /** Lines 119-126: the stored form of a new contact. */
  function WithDefaults(c: NewContact, id: int): (r: Contact)
    ensures r.id == id && r.name == c.name && r.phone == c.phone
    ensures r.email == EmailOrNull(c.email)
    ensures r.sendSms == DefaultIfUndefined(c.sendSms, true)
    ensures r.sendEmail == DefaultIfUndefined(c.sendEmail, false)
    ensures c.userId.Undefined? || c.userId.Null? ==> r.userId.None?
    ensures c.userId.Given? ==> r.userId == Some(c.userId.value)
  {
    Contact(id, c.name, c.phone, EmailOrNull(c.email),
            DefaultIfUndefined(c.sendSms, true), DefaultIfUndefined(c.sendEmail, false),
            if c.userId.Given? then Some(c.userId.value) else None)
  }

  /** `{ ...contact, ...updatedFields }`: supplied fields win, the id stays. */
  function Merge(c: Contact, p: ContactPatch): (r: Contact)
    ensures r.id == c.id
    ensures r.name == (if p.name.Some? then p.name.value else c.name)
    ensures r.phone == (if p.phone.Some? then p.phone.value else c.phone)
    ensures r.email == (if p.email.Some? then p.email.value else c.email)
    ensures r.sendSms == (if p.sendSms.Some? then p.sendSms.value else c.sendSms)
    ensures r.sendEmail == (if p.sendEmail.Some? then p.sendEmail.value else c.sendEmail)
    ensures r.userId == (if p.userId.Some? then p.userId.value else c.userId)
  {
    Contact(
      c.id,
      if p.name.Some? then p.name.value else c.name,
      if p.phone.Some? then p.phone.value else c.phone,
      if p.email.Some? then p.email.value else c.email,
      if p.sendSms.Some? then p.sendSms.value else c.sendSms,
      if p.sendEmail.Some? then p.sendEmail.value else c.sendEmail,
      if p.userId.Some? then p.userId.value else c.userId)
  }

  /** Applying an empty patch changes nothing. */
  lemma MergeEmptyPatch(c: Contact)
    ensures Merge(c, ContactPatch(None, None, None, None, None, None)) == c
  {
  }

  predicate UserIdsAscending(us: seq<User>) {
    forall i, j :: 0 <= i < j < |us| ==> us[i].id < us[j].id
  }

  /** `users.get(id)`: the user stored under that id, if any. */
  function UserWithId(us: seq<User>, id: int): (r: Option<User>)
    ensures r.Some? <==> exists i :: 0 <= i < |us| && us[i].id == id
    ensures r.Some? ==> r.value in us && r.value.id == id
  {
    if us == [] then None
    else if us[0].id == id then Some(us[0])
    else
      var r := UserWithId(us[1..], id);
      assert forall i :: 0 < i < |us| ==> us[i] == us[1..][i - 1];
      r
  }

  /** `Array.from(users.values()).find(...)`: the first user with that name. */
  predicate IsFirstUserNamed(us: seq<User>, username: string, r: Option<User>) {
    match r
    case None => forall i :: 0 <= i < |us| ==> us[i].username != username
    case Some(u) =>
      exists k :: 0 <= k < |us| && us[k] == u && u.username == username &&
        forall i :: 0 <= i < k ==> us[i].username != username
  }

  class MemStorage {
    var users: seq<User>
    var contacts: seq<Contact>
    var notifications: seq<Notification>
    var settings: AppSettings
    var currentId: int
    var currentContactId: int

    /** Ids grow with insertion order and stay below the counters; log ids are 1..n. */
    ghost predicate Valid()
      reads this
    {
      && IdsAscending(contacts)
      && 1 <= currentContactId
      && (forall i :: 0 <= i < |contacts| ==> 1 <= contacts[i].id < currentContactId)
      && UserIdsAscending(users)
      && 1 <= currentId
      && (forall i :: 0 <= i < |users| ==> 1 <= users[i].id < currentId)
      && (forall i :: 0 <= i < |notifications| ==> notifications[i].id == i + 1)
    }

    /** Lines 54-87: empty tables, the initial settings and two sample contacts with ids 1 and 2. */
    constructor ()
      ensures Valid()
      ensures users == [] && notifications == [] && currentId == 1
      ensures settings == InitialSettings
      ensures |contacts| == 2 && contacts[0].id == 1 && contacts[1].id == 2
      ensures contacts[0].name == "John Doe" && contacts[0].phone == "+12345678901"
      ensures contacts[1].name == "Sarah Smith" && contacts[1].phone == "+19876543210"
      ensures currentContactId == 3
    {
      users := [];
      contacts := [];
      notifications := [];
      currentId := 1;
      currentContactId := 1;
      settings := InitialSettings;
      new;
      var john := CreateContact(NewContact("John Doe", "+12345678901", Given("john.doe@example.com"),
                                           Given(true), Given(false), Null));
      var sarah := CreateContact(NewContact("Sarah Smith", "+19876543210", Given("sarah.smith@example.com"),
                                            Given(true), Given(false), Null));
    }

    /** Lines 90-92. */
    method GetUser(id: int) returns (r: Option<User>)
      ensures r == UserWithId(users, id)
    {
      r := UserWithId(users, id);
    }

    /** Lines 94-98: the first user, in insertion order, with that username. */
    method GetUserByUsername(username: string) returns (r: Option<User>)
      ensures IsFirstUserNamed(users, username, r)
    {
      var i := 0;
      while i < |users|
        invariant 0 <= i <= |users|
        invariant forall k :: 0 <= k < i ==> users[k].username != username
      {
        if users[i].username == username {
          return Some(users[i]);
        }
        i := i + 1;
      }
      return None;
    }

    /** Lines 100-105: ids from the user counter, which contact creation never touches. */
    method CreateUser(u: NewUser) returns (r: User)
      requires Valid()
      modifies this
      ensures Valid()
      ensures r == User(old(currentId), u.username, u.password)
      ensures currentId == old(currentId) + 1
      ensures users == old(users) + [r]
      ensures contacts == old(contacts) && currentContactId == old(currentContactId)
      ensures notifications == old(notifications) && settings == old(settings)
    {
      r := User(currentId, u.username, u.password);
      currentId := currentId + 1;
      users := users + [r];
    }

    /** Lines 108-110: every contact, in insertion order. */
    method GetContacts() returns (r: seq<Contact>)
      ensures r == contacts
    {
      r := contacts;
    }

    /** Lines 112-114. */
    method GetContact(id: int) returns (r: Option<Contact>)
      requires Valid()
      ensures r.Some? <==> HasContact(contacts, id)
      ensures r.Some? ==> r.value in contacts && r.value.id == id
    {
      var k := IndexOfId(contacts, id);
      r := if k.Some? then Some(contacts[k.value]) else None;
    }

    /** Lines 116-129: the current counter is the id, then the counter moves on. */
    method CreateContact(c: NewContact) returns (r: Contact)
      requires Valid()
      modifies this
      ensures Valid()
      ensures r == WithDefaults(c, old(currentContactId))
      ensures currentContactId == old(currentContactId) + 1
      ensures contacts == old(contacts) + [r]
      ensures forall i :: 0 <= i < |old(contacts)| ==> old(contacts)[i].id < r.id
      ensures users == old(users) && currentId == old(currentId)
      ensures notifications == old(notifications) && settings == old(settings)
    {
      r := WithDefaults(c, currentContactId);
      currentContactId := currentContactId + 1;
      contacts := contacts + [r];
    }

    /**
     * Lines 131-138: an unknown id changes nothing; a known one is merged in
     * place, every other contact and the order untouched.
     */
    method UpdateContact(id: int, p: ContactPatch) returns (r: Option<Contact>)
      requires Valid()
      modifies this
      ensures Valid()
      ensures r.None? <==> !HasContact(old(contacts), id)
      ensures r.None? ==> contacts == old(contacts)
      ensures r.Some? ==>
        var k := IndexOfId(old(contacts), id).value;
        r.value == Merge(old(contacts)[k], p) && contacts == old(contacts)[k := r.value]
      ensures users == old(users) && currentId == old(currentId) && currentContactId == old(currentContactId)
      ensures notifications == old(notifications) && settings == old(settings)
    {
      var k := IndexOfId(contacts, id);
      if k.None? {
        return None;
      }
      var updated := Merge(contacts[k.value], p);
      contacts := contacts[k.value := updated];
      r := Some(updated);
    }

    /** Lines 140-142: true iff the id was there; afterwards it is gone and nothing else changed. */
    method DeleteContact(id: int) returns (deleted: bool)
      requires Valid()
      modifies this`contacts
      ensures Valid()
      ensures deleted <==> HasContact(old(contacts), id)
      ensures !HasContact(contacts, id)
      ensures forall c :: c in contacts <==> c in old(contacts) && c.id != id
      ensures !deleted ==> contacts == old(contacts)
      ensures deleted ==>
        var k := IndexOfId(old(contacts), id).value;
        contacts == old(contacts)[..k] + old(contacts)[k + 1..]
      ensures users == old(users) && currentId == old(currentId) && currentContactId == old(currentContactId)
      ensures notifications == old(notifications) && settings == old(settings)
    {
      var k := IndexOfId(contacts, id);
      if k.None? {
        assert forall c :: c in contacts ==> c.id != id;
        return false;
      }
      var rest := contacts[..k.value] + contacts[k.value + 1..];
      RemoveAtKeepsOthers(contacts, k.value, currentContactId, rest);
      contacts := rest;
      deleted := true;
    }

    /** Lines 145-154. */
    method GetSettings() returns (s: AppSettings)
      ensures s == settings
    {
      s := settings;
    }

    /** Lines 156-166: replaced wholesale, always reporting success. */
    method UpdateSettings(s: AppSettings) returns (ok: bool)
      modifies this`settings
      ensures ok && settings == s
    {
      settings := s;
      ok := true;
    }

    /** Lines 169-178: one entry appended, numbered one past the previous length. */
    method LogNotification(contactId: int, message: string, success: bool, errorMessage: Option<string>,
                           sentAt: string)
      requires Valid()
      modifies this`notifications
      ensures Valid()
      ensures notifications ==
        old(notifications) + [Notification(|old(notifications)| + 1, contactId, message, sentAt, success, errorMessage)]
    {
      notifications := notifications + [Notification(|notifications| + 1, contactId, message, sentAt, success, errorMessage)];
    }
  }

  /** Removing the contact at `k` from an ascending table removes exactly that id and keeps the order. */
  lemma RemoveAtKeepsOthers(cs: seq<Contact>, k: nat, bound: int, rest: seq<Contact>)
    requires IdsAscending(cs) && k < |cs|
    requires forall i :: 0 <= i < |cs| ==> 1 <= cs[i].id < bound
    requires rest == cs[..k] + cs[k + 1..]
    ensures IdsAscending(rest)
    ensures forall i :: 0 <= i < |rest| ==> 1 <= rest[i].id < bound
    ensures !HasContact(rest, cs[k].id)
    ensures forall c :: c in rest <==> c in cs && c.id != cs[k].id
  {
    assert |rest| == |cs| - 1;
    forall i | 0 <= i < |rest|
      ensures rest[i] == cs[if i < k then i else i + 1]
    {
      if i < k {
        assert rest[i] == cs[..k][i];
      } else {
        assert rest[i] == cs[k + 1..][i - k];
      }
    }
    forall c | c in cs && c.id != cs[k].id
      ensures c in rest
    {
      var i :| 0 <= i < |cs| && cs[i] == c;
      assert rest[if i < k then i else i - 1] == c;
    }
  }

}
