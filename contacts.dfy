/**
  The owner-scoped contact directory: every query and every change is
  filtered by the id of the user making the request. Queries are functions
  of the table; the operations that change it are methods of
  `ContactDirectory`.
*/
module Contacts {
  import opened Wrappers
  import opened Calendar
  import opened Errors
  import opened Models
  import opened Schemas
  import opened Like

  // ---------------------------------------------------------------------
  // Queries

  /** `db.query(Contact).filter(Contact.owner_id == owner).all()`, in table order. */
  function Owned(cs: seq<Contact>, owner: int): (r: seq<Contact>)
    ensures forall c :: c in r <==> c in cs && c.ownerId == owner
    ensures |r| <= |cs|
  {
    if cs == [] then []
    else (if cs[0].ownerId == owner then [cs[0]] else []) + Owned(cs[1..], owner)
  }

  /** Position of the first row with this id and this owner (the `.first()` of the filtered query). */
  function IndexOfContact(cs: seq<Contact>, contactId: int, owner: int): (r: Option<nat>)
    ensures r.Some? ==> r.value < |cs| && cs[r.value].id == contactId && cs[r.value].ownerId == owner
    ensures r.Some? ==> forall j :: 0 <= j < r.value ==> !(cs[j].id == contactId && cs[j].ownerId == owner)
    ensures r.None? <==> forall c :: c in cs ==> !(c.id == contactId && c.ownerId == owner)
  {
    if cs == [] then None
    else if cs[0].id == contactId && cs[0].ownerId == owner then Some(0)
    else match IndexOfContact(cs[1..], contactId, owner)
      case None => None
      case Some(k) => Some(k + 1)
  }

  /**
    `read_contact`: the contact with this id, provided the caller owns it.
    Another owner's contact is not returned even when its id is asked for.
  */
  function ReadContact(cs: seq<Contact>, contactId: int, owner: int): (r: Option<Contact>)
    ensures r.Some? ==> r.value in cs && r.value.id == contactId && r.value.ownerId == owner
    ensures r.None? <==> forall c :: c in cs ==> !(c.id == contactId && c.ownerId == owner)
  {
    match IndexOfContact(cs, contactId, owner)
    case None => None
    case Some(i) => Some(cs[i])
  }

  /** `get_all_contacts`: the owner's contacts after dropping `skip` of them, at most `limit`. */
  function AllContacts(cs: seq<Contact>, owner: int, skip: nat, limit: nat): (r: seq<Contact>)
    ensures var n := |Owned(cs, owner)|;
            |r| == if skip >= n then 0 else if limit < n - skip then limit else n - skip
    ensures forall i :: 0 <= i < |r| ==> r[i] == Owned(cs, owner)[skip + i]
    ensures forall c :: c in r ==> c in cs && c.ownerId == owner
  {
    var mine := Owned(cs, owner);
    if skip >= |mine| then []
    else if limit < |mine| - skip then mine[skip..skip + limit]
    else mine[skip..]
  }

  /** One optional filter of `get_contacts`: None or "" imposes nothing, otherwise `field ILIKE '%term%'`. */
  predicate TermMatches(term: Option<string>, field: string) {
    term.None? || term.value == "" || ILike(field, "%" + term.value + "%")
  }

  predicate SearchHit(c: Contact, owner: int, firstName: Option<string>, lastName: Option<string>, email: Option<string>) {
    c.ownerId == owner
    && TermMatches(firstName, c.firstName)
    && TermMatches(lastName, c.lastName)
    && TermMatches(email, c.email)
  }

  /** `get_contacts`: the owner's contacts passing every filter (they are ANDed), in table order. */
  function GetContacts(cs: seq<Contact>, owner: int, firstName: Option<string>, lastName: Option<string>, email: Option<string>): (r: seq<Contact>)
    ensures forall c :: c in r <==> c in cs && SearchHit(c, owner, firstName, lastName, email)
    ensures |r| <= |cs|
  {
    if cs == [] then []
    else (if SearchHit(cs[0], owner, firstName, lastName, email) then [cs[0]] else [])
         + GetContacts(cs[1..], owner, firstName, lastName, email)
  }

  /** Without filters the search lists all of the owner's contacts. */
  lemma {:induction false} GetContactsUnfiltered(cs: seq<Contact>, owner: int)
    ensures GetContacts(cs, owner, None, None, None) == Owned(cs, owner)
  {
    if cs != [] {
      GetContactsUnfiltered(cs[1..], owner);
    }
  }

  /** A filter given as a plain term (no `%`, `_` or backslash). */
  predicate PlainOrAbsent(term: Option<string>) {
    term.None? || Plain(term.value)
  }

  ghost predicate Contains(term: Option<string>, field: string) {
    term.None? || term.value == "" || ContainsIgnoringCase(field, term.value)
  }

  /**
    For plain search terms, `get_contacts` returns exactly the owner's
    contacts whose first name, last name and email each contain the
    corresponding non-empty term, ignoring case.
  */
  lemma SearchIsSubstringFilter(cs: seq<Contact>, owner: int, firstName: Option<string>, lastName: Option<string>, email: Option<string>, c: Contact)
    requires PlainOrAbsent(firstName) && PlainOrAbsent(lastName) && PlainOrAbsent(email)
    ensures c in GetContacts(cs, owner, firstName, lastName, email)
            <==> c in cs && c.ownerId == owner
                 && Contains(firstName, c.firstName) && Contains(lastName, c.lastName) && Contains(email, c.email)
  {
    if firstName.Some? { ContainsPattern(c.firstName, firstName.value); }
    if lastName.Some? { ContainsPattern(c.lastName, lastName.value); }
    if email.Some? { ContainsPattern(c.email, email.value); }
  }

  // ---------------------------------------------------------------------
  // Lemmas about the owner's view, used to show that a change made by one
  // owner leaves every other owner's contacts as they were.

  lemma {:induction false} OwnedAppend(a: seq<Contact>, b: seq<Contact>, owner: int)
    ensures Owned(a + b, owner) == Owned(a, owner) + Owned(b, owner)
  {
    if a == [] {
      assert a + b == b;
    } else {
      assert (a + b)[0] == a[0];
      assert (a + b)[1..] == a[1..] + b;
      OwnedAppend(a[1..], b, owner);
    }
  }

  /** A row of another owner contributes nothing to the owner's view. */
  lemma OwnedSkipsOther(front: seq<Contact>, c: Contact, back: seq<Contact>, owner: int)
    requires c.ownerId != owner
    ensures Owned(front + [c] + back, owner) == Owned(front + back, owner)
  {
    OwnedAppend(front + [c], back, owner);
    OwnedAppend(front, [c], owner);
    OwnedAppend(front, back, owner);
    assert Owned([c], owner) == [];
  }

  lemma OwnedReplaceOther(cs: seq<Contact>, i: nat, u: Contact, owner: int)
    requires i < |cs| && cs[i].ownerId != owner && u.ownerId != owner
    ensures Owned(cs[i := u], owner) == Owned(cs, owner)
  {
    var front, back := cs[..i], cs[i + 1..];
    assert cs == front + [cs[i]] + back;
    assert cs[i := u] == front + [u] + back;
    OwnedSkipsOther(front, cs[i], back, owner);
    OwnedSkipsOther(front, u, back, owner);
  }

  lemma OwnedRemoveOther(cs: seq<Contact>, i: nat, owner: int)
    requires i < |cs| && cs[i].ownerId != owner
    ensures Owned(cs[..i] + cs[i + 1..], owner) == Owned(cs, owner)
  {
    var front, back := cs[..i], cs[i + 1..];
    assert cs == front + [cs[i]] + back;
    OwnedSkipsOther(front, cs[i], back, owner);
  }

  /** Deleting a row keeps the keys unique, and leaves out exactly that row. */
  lemma RemoveKeepsKeys(cs: seq<Contact>, i: nat)
    requires i < |cs| && ContactEmailsUnique(cs) && ContactIdsUnique(cs)
    ensures var rest := cs[..i] + cs[i + 1..];
            && ContactEmailsUnique(rest) && ContactIdsUnique(rest)
            && (forall c :: c in rest ==> c in cs)
            && cs[i] !in rest
  {
    var rest := cs[..i] + cs[i + 1..];
    assert forall j :: 0 <= j < |rest| ==> rest[j] == if j < i then cs[j] else cs[j + 1];
    forall c | c in rest ensures c in cs && c.id != cs[i].id {
      var j :| 0 <= j < |rest| && rest[j] == c;
    }
  }

  /** Every owner other than `owner` sees the same contacts in `before` and `after`. */
  ghost predicate OthersUnchanged(before: seq<Contact>, after: seq<Contact>, owner: int) {
    forall other :: other != owner ==> Owned(after, other) == Owned(before, other)
  }

  // ---------------------------------------------------------------------
  // Partial update

  /**
    The field assignments of `update_contact`: a field is overwritten with
    the body's value exactly when that value is not null; the id, creation
    time and owner never change.
  */
  function ApplyUpdate(c: Contact, body: ContactUpdate): (r: Contact)
    ensures body.firstName.Some? ==> r.firstName == body.firstName.value
    ensures body.firstName.None? ==> r.firstName == c.firstName
    ensures body.lastName.Some? ==> r.lastName == body.lastName.value
    ensures body.lastName.None? ==> r.lastName == c.lastName
    ensures body.email.Some? ==> r.email == body.email.value
    ensures body.email.None? ==> r.email == c.email
    ensures body.phone.Some? ==> r.phone == body.phone.value
    ensures body.phone.None? ==> r.phone == c.phone
    ensures body.birthday.Some? ==> r.birthday == body.birthday.value
    ensures body.birthday.None? ==> r.birthday == c.birthday
    ensures body.additionalInfo.Some? ==> r.additionalInfo == body.additionalInfo
    ensures body.additionalInfo.None? ==> r.additionalInfo == c.additionalInfo
    ensures r.id == c.id && r.createdAt == c.createdAt && r.ownerId == c.ownerId
  {
    c.(firstName := if body.firstName.Some? then body.firstName.value else c.firstName,
       lastName := if body.lastName.Some? then body.lastName.value else c.lastName,
       email := if body.email.Some? then body.email.value else c.email,
       phone := if body.phone.Some? then body.phone.value else c.phone,
       birthday := if body.birthday.Some? then body.birthday.value else c.birthday,
       additionalInfo := if body.additionalInfo.Some? then body.additionalInfo else c.additionalInfo)
  }

  /** Applying the same partial update twice changes nothing more; an all-null update changes nothing. */
  lemma ApplyUpdateIdempotent(c: Contact, body: ContactUpdate)
    ensures ApplyUpdate(ApplyUpdate(c, body), body) == ApplyUpdate(c, body)
    ensures ApplyUpdate(c, ContactUpdate(None, None, None, None, None, None)) == c
  {
  }

  /** Some row other than row i already has this email. */
  predicate EmailTakenElsewhere(cs: seq<Contact>, i: int, email: string) {
    exists j :: 0 <= j < |cs| && j != i && cs[j].email == email
  }

  // ---------------------------------------------------------------------
  // Upcoming birthdays

  /** `d.replace(year=y)`; None is the `ValueError` raised for Feb 29 in a common year. */
  function ReplaceYear(d: Date, y: int): (r: Option<Date>)
    ensures r.Some? <==> ValidDate(Date(y, d.month, d.day))
    ensures r.Some? ==> r.value == Date(y, d.month, d.day)
  {
    var moved := Date(y, d.month, d.day);
    if ValidDate(moved) then Some(moved) else None
  }

  /**
    The birthday moved into today's year, and into the next year when that
    date has already passed; None when either `replace` raises.
  */
  function ProjectedBirthday(birthday: Date, today: Date): (r: Option<Date>)
    ensures r.Some? ==> ValidDate(r.value) && SameDayOfYear(r.value, birthday)
    ensures r.Some? ==> AtOrBefore(today, r.value)
    ensures r.Some? ==> r.value.year == today.year || r.value.year == today.year + 1
  {
    match ReplaceYear(birthday, today.year)
    case None => None
    case Some(thisYear) =>
      if Before(thisYear, today) then ReplaceYear(thisYear, today.year + 1) else Some(thisYear)
  }

  /** `today <= d <= today + timedelta(days=7)`. */
  predicate InUpcomingWeek(d: Date, today: Date)
    requires ValidDate(today)
  {
    AtOrBefore(today, d) && AtOrBefore(d, AddDays(today, 7))
  }

  predicate IsUpcoming(birthday: Date, today: Date)
    requires ValidDate(today)
  {
    match ProjectedBirthday(birthday, today)
    case None => false
    case Some(p) => InUpcomingWeek(p, today)
  }

  /** The contacts of `cs` whose birthday is upcoming, in order. */
  function UpcomingIn(cs: seq<Contact>, today: Date): (r: seq<Contact>)
    requires ValidDate(today)
    ensures forall c :: c in r <==> c in cs && IsUpcoming(c.birthday, today)
  {
    if cs == [] then []
    else
      var last := cs[|cs| - 1];
      UpcomingIn(cs[..|cs| - 1], today) + (if IsUpcoming(last.birthday, today) then [last] else [])
  }

  /** Both `replace` calls on this contact's birthday succeed. */
  predicate Projectable(c: Contact, today: Date) {
    ProjectedBirthday(c.birthday, today).Some?
  }

  /**
    What `get_upcoming_birthdays` yields for the owner's contacts `owned`,
    contact by contact: the `ValueError` of a Feb 29 birthday that cannot be
    projected is not caught, so it ends the whole request.
  */
  function UpcomingBirthdaysOf(owned: seq<Contact>, today: Date): (r: Result<seq<Contact>, Failure>)
    requires ValidDate(today)
    ensures r.Err? ==> r.error == Uncaught("ValueError")
    decreases |owned|
  {
    if owned == [] then Ok([])
    else
      var last := owned[|owned| - 1];
      match UpcomingBirthdaysOf(owned[..|owned| - 1], today)
      case Err(e) => Err(e)
      case Ok(earlier) =>
        match ProjectedBirthday(last.birthday, today)
        case None => Err(Uncaught("ValueError"))
        case Some(p) => Ok(earlier + (if InUpcomingWeek(p, today) then [last] else []))
  }

  /**
    The request fails exactly when some owned contact cannot be projected, and
    otherwise returns the owned contacts with an upcoming birthday, in order.
  */
  lemma {:induction false} UpcomingBirthdaysOfMeaning(owned: seq<Contact>, today: Date)
    requires ValidDate(today)
    ensures UpcomingBirthdaysOf(owned, today).Err? <==> exists c :: c in owned && !Projectable(c, today)
    ensures UpcomingBirthdaysOf(owned, today).Ok? ==> UpcomingBirthdaysOf(owned, today).value == UpcomingIn(owned, today)
    decreases |owned|
  {
    if owned != [] {
      var front, last := owned[..|owned| - 1], owned[|owned| - 1];
      assert owned == front + [last];
      UpcomingBirthdaysOfMeaning(front, today);
      var failed := exists c :: c in owned && !Projectable(c, today);
      if UpcomingBirthdaysOf(front, today).Err? {
        var c :| c in front && !Projectable(c, today);
        assert c in owned;
      } else if !Projectable(last, today) {
        assert last in owned;
      } else {
        forall c | c in owned ensures Projectable(c, today) {
          assert c in front || c == last;
        }
      }
    }
  }

  /** One more contact, whose birthday projects to `p`. */
  lemma UpcomingStep(owned: seq<Contact>, i: nat, today: Date, p: Date)
    requires ValidDate(today) && i < |owned|
    requires UpcomingBirthdaysOf(owned[..i], today).Ok?
    requires ProjectedBirthday(owned[i].birthday, today) == Some(p)
    ensures var earlier := UpcomingBirthdaysOf(owned[..i], today).value;
            UpcomingBirthdaysOf(owned[..i + 1], today)
            == if InUpcomingWeek(p, today) then Ok(earlier + [owned[i]]) else Ok(earlier)
  {
    assert owned[..i + 1][..i] == owned[..i];
    var earlier := UpcomingBirthdaysOf(owned[..i], today).value;
    assert earlier + [] == earlier;
  }

  /** A contact that cannot be projected fails the whole request. */
  lemma UpcomingFailure(owned: seq<Contact>, i: nat, today: Date)
    requires ValidDate(today) && i < |owned|
    requires ProjectedBirthday(owned[i].birthday, today).None?
    ensures UpcomingBirthdaysOf(owned, today) == Err(Uncaught("ValueError"))
  {
    UpcomingBirthdaysOfMeaning(owned, today);
    assert owned[i] in owned;
  }

  /** The two steps of the projection, once the first `replace` has succeeded. */
  lemma ProjectionSteps(birthday: Date, today: Date, thisYear: Date)
    requires ReplaceYear(birthday, today.year) == Some(thisYear)
    ensures ProjectedBirthday(birthday, today)
            == if Before(thisYear, today) then ReplaceYear(thisYear, today.year + 1) else Some(thisYear)
  {
  }

  /** Month and day agree. */
  predicate SameDayOfYear(a: Date, b: Date) {
    a.month == b.month && a.day == b.day
  }

  /**
    Projection fails exactly for a Feb 29 birthday when today's year is a
    common year, or when it is a leap year whose Feb 29 has passed (the
    next year is then a common year).
  */
  lemma ProjectionFailsIff(birthday: Date, today: Date)
    requires ValidDate(birthday) && ValidDate(today)
    ensures ProjectedBirthday(birthday, today).None?
            <==> birthday.month == 2 && birthday.day == 29
                 && (!IsLeap(today.year) || Before(Date(today.year, 2, 29), today))
  {
    if birthday.month == 2 && birthday.day == 29 && IsLeap(today.year) {
      assert !IsLeap(today.year + 1);
    }
  }

  /**
    A successful projection is the first date on or after today with the
    birthday's month and day.
  */
  lemma ProjectionIsNextOccurrence(birthday: Date, today: Date, q: Date)
    requires ValidDate(today)
    requires ProjectedBirthday(birthday, today).Some?
    ensures var p := ProjectedBirthday(birthday, today).value;
            ValidDate(p) && SameDayOfYear(p, birthday) && AtOrBefore(today, p)
            && (p.year == today.year || p.year == today.year + 1)
            && (SameDayOfYear(q, birthday) && AtOrBefore(today, q) ==> AtOrBefore(p, q))
  {
  }

  /**
    Every date of the coming week projects: the only birthday that can fail
    is Feb 29, and a Feb 29 at most seven days ahead lies in today's year,
    a leap year whose Feb 29 has not passed.
  */
  lemma WeekDateProjects(today: Date, k: nat)
    requires ValidDate(today) && k <= 7
    ensures ProjectedBirthday(AddDays(today, k), today).Some?
  {
    var q := AddDays(today, k);
    ProjectionFailsIff(q, today);
    if q.year != today.year {
      // q is in a later year, at most seven days after today: it is in January.
      var newYear := Date(q.year, 1, 1);
      AddDaysOrdinal(today, k);
      OrdinalOrder(today, newYear);
      if q.month > 1 {
        DaysBeforeMonthGrows(q.year, 1, q.month);
      }
      assert q.month == 1;
    }
  }

  /**
    A birthday is upcoming exactly when its month and day are those of one
    of the eight dates today, today + 1 day, ..., today + 7 days. (A Feb 29
    birthday that cannot be projected is never one of them.)
  */
  lemma UpcomingIffWithinEightDays(birthday: Date, today: Date)
    requires ValidDate(birthday) && ValidDate(today)
    ensures IsUpcoming(birthday, today)
            <==> exists k: nat :: k <= 7 && SameDayOfYear(AddDays(today, k), birthday)
  {
    if ProjectedBirthday(birthday, today).None? {
      ProjectionFailsIff(birthday, today);
      forall k: nat | k <= 7
        ensures !SameDayOfYear(AddDays(today, k), birthday)
      {
        WeekDateProjects(today, k);
        ProjectionFailsIff(AddDays(today, k), today);
      }
    } else {
      var p := ProjectedBirthday(birthday, today).value;
      ProjectionIsNextOccurrence(birthday, today, p);
      assert IsUpcoming(birthday, today) == InUpcomingWeek(p, today);
      if InUpcomingWeek(p, today) {
        WindowIsConsecutiveDays(today, p, 7);
        var k: nat :| k <= 7 && p == AddDays(today, k);
        assert SameDayOfYear(AddDays(today, k), birthday);
      }
      forall k: nat | k <= 7 && SameDayOfYear(AddDays(today, k), birthday)
        ensures InUpcomingWeek(p, today)
      {
        var q := AddDays(today, k);
        ProjectionIsNextOccurrence(birthday, today, q);
        EarlierStaysInWindow(today, p, k);
      }
    }
  }

  /** The offsets +3 and +6 days of the repository's unit tests, and the window's last day, on 2024-06-10. */
  lemma BirthdayExamplesInJune()
    ensures IsUpcoming(Date(2024, 6, 13), Date(2024, 6, 10))
    ensures IsUpcoming(Date(2024, 6, 16), Date(2024, 6, 10))
    ensures IsUpcoming(Date(2024, 6, 17), Date(2024, 6, 10))
  {
  }

  /** The offsets of the same tests that fall outside the window, on 2024-06-10. */
  lemma BirthdayExamplesOutsideWeek()
    ensures !IsUpcoming(Date(2024, 6, 9), Date(2024, 6, 10))
    ensures !IsUpcoming(Date(2024, 6, 18), Date(2024, 6, 10))
    ensures !IsUpcoming(Date(2024, 6, 20), Date(2024, 6, 10))
    ensures !IsUpcoming(Date(2024, 5, 31), Date(2024, 6, 10))
    ensures !IsUpcoming(Date(2024, 6, 25), Date(2024, 6, 10))
  {
  }

  /** On any day, a birthday falling on one of the next eight days (today included) is upcoming. */
  lemma ComingWeekIsUpcoming(today: Date, k: nat)
    requires ValidDate(today) && k <= 7
    ensures IsUpcoming(AddDays(today, k), today)
  {
    WeekDateProjects(today, k);
    UpcomingIffWithinEightDays(AddDays(today, k), today);
  }

  /** Across the year boundary, and the Feb 29 birthdays that fail or succeed. */
  lemma BirthdayExamplesAtYearEnds()
    ensures IsUpcoming(Date(1990, 1, 2), Date(2024, 12, 28))
    ensures ProjectedBirthday(Date(2000, 2, 29), Date(2025, 3, 1)).None?
    ensures ProjectedBirthday(Date(2000, 2, 29), Date(2024, 3, 1)).None?
    ensures IsUpcoming(Date(2000, 2, 29), Date(2024, 2, 25))
  {
  }

  // ---------------------------------------------------------------------
  // The table and the operations that change it

  class ContactDirectory {
    var contacts: seq<Contact>
    /** The next value of the `contacts.id` sequence. */
    var nextId: int

    ghost predicate Valid()
      reads this
    {
      && nextId >= 1
      && ContactEmailsUnique(contacts)
      && ContactIdsUnique(contacts)
      && (forall c :: c in contacts ==> 1 <= c.id < nextId && ValidDate(c.birthday))
    }

    constructor ()
      ensures Valid() && contacts == [] && nextId == 1
    {
      contacts := [];
      nextId := 1;
    }

    /**
      `create_contact`: inserts one row copying the body, owned by `user`.
      The UNIQUE constraint on `email` spans all owners, so an email that any
      contact already has makes the commit fail and nothing is inserted, but
      the failed INSERT has used up the next value of the id sequence.
    */
    method CreateContact(body: ContactBase, user: User, now: int) returns (r: Result<ContactResponse, Failure>)
      requires Valid() && ValidDate(body.birthday)
      modifies this
      ensures Valid()
      ensures OthersUnchanged(old(contacts), contacts, user.id)
      ensures (exists c :: c in old(contacts) && c.email == body.email) ==>
                r == Err(Uncaught("IntegrityError")) && contacts == old(contacts) && nextId == old(nextId) + 1
      ensures (forall c :: c in old(contacts) ==> c.email != body.email) ==>
                var added := Contact(old(nextId), body.firstName, body.lastName, body.email, body.phone,
                                     body.birthday, body.additionalInfo, now, user.id);
                && r == Ok(FromOrm(added))
                && r.value.base == body && r.value.ownerId == user.id
                && contacts == old(contacts) + [added]
                && nextId == old(nextId) + 1
    {
      if exists c :: c in contacts && c.email == body.email {
        nextId := nextId + 1;
        return Err(Uncaught("IntegrityError"));
      }
      var added := Contact(nextId, body.firstName, body.lastName, body.email, body.phone,
                           body.birthday, body.additionalInfo, now, user.id);
      forall other | other != user.id ensures Owned(contacts + [added], other) == Owned(contacts, other) {
        OwnedAppend(contacts, [added], other);
      }
      contacts := contacts + [added];
      nextId := nextId + 1;
      r := Ok(FromOrm(added));
    }

    /**
      `update_contact`: the caller's contact with this id gets the non-null
      fields of the body; no other field and no other row changes. A missing
      or foreign id gives None with nothing changed; an email that another
      contact has makes the commit fail.
    */
    method UpdateContact(contactId: int, body: ContactUpdate, user: User) returns (r: Result<Option<Contact>, Failure>)
      requires Valid()
      requires body.birthday.Some? ==> ValidDate(body.birthday.value)
      modifies this
      ensures Valid() && nextId == old(nextId)
      ensures OthersUnchanged(old(contacts), contacts, user.id)
      ensures IndexOfContact(old(contacts), contactId, user.id).None? ==>
                r == Ok(None) && contacts == old(contacts)
      ensures IndexOfContact(old(contacts), contactId, user.id).Some? ==>
                var i := IndexOfContact(old(contacts), contactId, user.id).value;
                var updated := ApplyUpdate(old(contacts)[i], body);
                if EmailTakenElsewhere(old(contacts), i, updated.email) then
                  r == Err(Uncaught("IntegrityError")) && contacts == old(contacts)
                else
                  r == Ok(Some(updated)) && contacts == old(contacts)[i := updated]
    {
      var found := IndexOfContact(contacts, contactId, user.id);
      if found.None? {
        return Ok(None);
      }
      var i := found.value;
      var updated := ApplyUpdate(contacts[i], body);
      if EmailTakenElsewhere(contacts, i, updated.email) {
        return Err(Uncaught("IntegrityError"));
      }
      forall other | other != user.id ensures Owned(contacts[i := updated], other) == Owned(contacts, other) {
        OwnedReplaceOther(contacts, i, updated, other);
      }
      contacts := contacts[i := updated];
      r := Ok(Some(updated));
    }

    /**
      `remove_contact`: deletes the caller's contact with this id and returns
      it; it is then absent from the table. A missing or foreign id gives None
      and changes nothing.
    */
    method RemoveContact(contactId: int, user: User) returns (r: Option<Contact>)
      requires Valid()
      modifies this
      ensures Valid() && nextId == old(nextId)
      ensures OthersUnchanged(old(contacts), contacts, user.id)
      ensures IndexOfContact(old(contacts), contactId, user.id).None? ==>
                r == None && contacts == old(contacts)
      ensures IndexOfContact(old(contacts), contactId, user.id).Some? ==>
                var i := IndexOfContact(old(contacts), contactId, user.id).value;
                r == Some(old(contacts)[i]) && contacts == old(contacts)[..i] + old(contacts)[i + 1..]
      ensures r.Some? ==> r.value in old(contacts) && r.value !in contacts
    {
      var found := IndexOfContact(contacts, contactId, user.id);
      if found.None? {
        return None;
      }
      var i := found.value;
      var removed := contacts[i];
      forall other | other != user.id ensures Owned(contacts[..i] + contacts[i + 1..], other) == Owned(contacts, other) {
        OwnedRemoveOther(contacts, i, other);
      }
      RemoveKeepsKeys(contacts, i);
      contacts := contacts[..i] + contacts[i + 1..];
      r := Some(removed);
    }

    /**
      `get_upcoming_birthdays` on the date `today`: walks the caller's
      contacts in order, projects each birthday, and keeps the contacts whose
      projection lies in [today, today + 7 days].
    */
    method UpcomingBirthdays(user: User, today: Date) returns (r: Result<seq<Contact>, Failure>)
      requires ValidDate(today)
      ensures r == UpcomingBirthdaysOf(Owned(contacts, user.id), today)
    {
      var upcoming := AddDays(today, 7);
      var owned := Owned(contacts, user.id);
      var future: seq<Contact> := [];
      for i := 0 to |owned|
        invariant UpcomingBirthdaysOf(owned[..i], today) == Ok(future)
      {
        var c := owned[i];
        var thisYear := ReplaceYear(c.birthday, today.year);
        if thisYear.None? {
          UpcomingFailure(owned, i, today);
          return Err(Uncaught("ValueError"));
        }
        var projected := thisYear.value;
        ProjectionSteps(c.birthday, today, projected);
        if Before(projected, today) {
          var nextYear := ReplaceYear(projected, today.year + 1);
          if nextYear.None? {
            UpcomingFailure(owned, i, today);
            return Err(Uncaught("ValueError"));
          }
          projected := nextYear.value;
        }
        UpcomingStep(owned, i, today, projected);
        if AtOrBefore(today, projected) && AtOrBefore(projected, upcoming) {
          future := future + [c];
        }
      }
      assert owned[..|owned|] == owned;
      r := Ok(future);
    }
  }
}
