/** The address-book service's cache as a value: the queries the service
    answers from its contact list, and, for every operation that changes
    the list, a function giving the list afterwards in terms of the list
    before and the replies of the database. The lemmas state what those
    changes mean. */
module ContactCache {
  import opened Contacts

  // ----- Queries -----------------------------------------------------------

  /** Position of the first cached contact whose first name is `name`: the
      stream filter followed by findFirst. Only `firstName` is compared. */
  function FirstIndex(contacts: seq<Contact>, name: string): (r: Option<nat>)
    ensures r.Some? ==> r.value < |contacts| && contacts[r.value].firstName == name
    ensures r.Some? ==> forall j :: 0 <= j < r.value ==> contacts[j].firstName != name
    ensures r.None? ==> forall j :: 0 <= j < |contacts| ==> contacts[j].firstName != name
  {
    if |contacts| == 0 then None
    else if contacts[0].firstName == name then Some(0)
    else match FirstIndex(contacts[1..], name)
      case None => None
      case Some(i) => Some(i + 1)
  }

  /** The cached contact `getContact` returns, `None` standing for `null`. */
  function GetContact(contacts: seq<Contact>, name: string): (r: Option<Contact>)
    ensures r.Some? <==> exists j :: 0 <= j < |contacts| && contacts[j].firstName == name
    ensures r.Some? ==> exists j :: 0 <= j < |contacts| && contacts[j] == r.value && r.value.firstName == name &&
                                    forall k :: 0 <= k < j ==> contacts[k].firstName != name
  {
    match FirstIndex(contacts, name)
    case None => None
    case Some(i) => Some(contacts[i])
  }

  /** Number of cached entries; every selector but the database counts none. */
  function CountEntries(contacts: seq<Contact>, io: IOService): (n: int)
    ensures io == DbIO ==> n == |contacts|
    ensures io != DbIO ==> n == 0
  {
    if io == DbIO then |contacts| else 0
  }

  /** `checkContactDataSync`: the first row the database returns for `name`
      is compared with the cached contact found for `name`. A failed lookup
      propagates, and an empty lookup fails on `get(0)`. */
  function CheckContactDataSync(contacts: seq<Contact>, name: string, lookup: Result<seq<Contact>>): (r: Result<bool>)
    ensures r.Throws? <==> lookup.Throws? || lookup.value == []
    ensures lookup.Throws? ==> r == Throws(lookup.error)
    ensures lookup.Ok? && lookup.value == [] ==> r == Throws(IndexOutOfBoundsException)
    ensures r == Ok(true) <==>
              lookup.Ok? && lookup.value != [] &&
              exists j :: 0 <= j < |contacts| && contacts[j] == lookup.value[0] && contacts[j].firstName == name &&
                          forall k :: 0 <= k < j ==> contacts[k].firstName != name
  {
    match lookup
    case Throws(e) => Throws(e)
    case Ok(rows) =>
      if |rows| == 0 then Throws(IndexOutOfBoundsException)
      else Ok(GetContact(contacts, name) == Some(rows[0]))
  }

  /** A name that no cached contact carries as its first name is never in
      sync, whatever the database returns for it. */
  lemma AbsentNameNeverInSync(contacts: seq<Contact>, name: string, rows: seq<Contact>)
    requires rows != []
    requires forall j :: 0 <= j < |contacts| ==> contacts[j].firstName != name
    ensures CheckContactDataSync(contacts, name, Ok(rows)) == Ok(false)
  {
  }

  /** The first match depends on the first names alone. */
  lemma FirstIndexSameNames(a: seq<Contact>, b: seq<Contact>, name: string)
    requires |a| == |b|
    requires forall j :: 0 <= j < |a| ==> a[j].firstName == b[j].firstName
    ensures FirstIndex(a, name) == FirstIndex(b, name)
  {
  }

  // ----- Inserting ---------------------------------------------------------

  /** What one insert adds to the cache: the contact the database returned,
      or nothing when the insert threw. */
  function Appended(reply: Result<Contact>): seq<Contact>
  {
    match reply
    case Ok(c) => [c]
    case Throws(_) => []
  }

  /** Number of inserts the database accepted. */
  function Successes(replies: seq<Result<Contact>>): (n: nat)
    ensures n <= |replies|
  {
    if |replies| == 0 then 0
    else Successes(replies[..|replies| - 1]) + (if replies[|replies| - 1].Ok? then 1 else 0)
  }

  /** What a batch of inserts, one after the other, adds to the cache. */
  function Inserted(replies: seq<Result<Contact>>): seq<Contact>
  {
    if |replies| == 0 then []
    else Inserted(replies[..|replies| - 1]) + Appended(replies[|replies| - 1])
  }

  /** A batch of inserts adds exactly as many contacts as the database accepted. */
  lemma {:induction false} InsertedCount(replies: seq<Result<Contact>>)
    ensures |Inserted(replies)| == Successes(replies)
  {
    if |replies| > 0 {
      InsertedCount(replies[..|replies| - 1]);
    }
  }

  /** Each accepted insert lands after the contacts of the accepted inserts
      before it: the batch appends in input order and skips the failures. */
  lemma {:induction false} InsertedPlacement(replies: seq<Result<Contact>>, i: nat)
    requires i < |replies| && replies[i].Ok?
    ensures Successes(replies[..i]) < |Inserted(replies)|
    ensures Inserted(replies)[Successes(replies[..i])] == replies[i].value
  {
    var n := |replies| - 1;
    var front := replies[..n];
    InsertedCount(front);
    InsertedCount(replies);
    if i == n {
      assert replies[..i] == front;
    } else {
      assert front[..i] == replies[..i];
      InsertedPlacement(front, i);
    }
  }

  /** The database count after a batch insert on a loaded cache is the count
      before plus the accepted inserts (one stored row plus two accepted
      inserts gives three). */
  lemma CountAfterBatchInsert(contacts: seq<Contact>, replies: seq<Result<Contact>>)
    ensures CountEntries(contacts + Inserted(replies), DbIO) == CountEntries(contacts, DbIO) + Successes(replies)
  {
  }

  /** Once the database's first row for the new contact's first name is that
      contact, a freshly inserted contact is in sync, provided no earlier
      cached contact has the same first name. */
  lemma InsertThenInSync(contacts: seq<Contact>, c: Contact, rows: seq<Contact>)
    requires rows != [] && rows[0] == c
    requires forall j :: 0 <= j < |contacts| ==> contacts[j].firstName != c.firstName
    ensures CheckContactDataSync(contacts + [c], c.firstName, Ok(rows)) == Ok(true)
  {
    var after := contacts + [c];
    assert after[|contacts|] == c;
  }

  // ----- Updating phone numbers --------------------------------------------

  /** The database reported that it changed at least one row. */
  predicate Confirmed(rowsAffected: Result<int>)
  {
    rowsAffected.Ok? && rowsAffected.value != 0
  }

  /** The cache after `updatePersonsPhone(name, phone)`: only the phone
      number of the first contact whose first name is `name` changes, and
      only when the database confirmed the update. */
  function PhoneUpdated(contacts: seq<Contact>, name: string, phone: Long, rowsAffected: Result<int>): (r: seq<Contact>)
    ensures |r| == |contacts|
    ensures forall j :: 0 <= j < |r| ==> r[j] == contacts[j].(phoneNumber := r[j].phoneNumber)
    ensures forall j :: 0 <= j < |r| && r[j] != contacts[j] ==>
              Confirmed(rowsAffected) && FirstIndex(contacts, name) == Some(j)
    ensures Confirmed(rowsAffected) && FirstIndex(contacts, name).Some? ==>
              r[FirstIndex(contacts, name).value].phoneNumber == phone
  {
    if !Confirmed(rowsAffected) then contacts
    else match FirstIndex(contacts, name)
      case None => contacts
      case Some(i) => contacts[i := contacts[i].(phoneNumber := phone)]
  }

  /** After a confirmed update, the cache agrees with a database whose first
      row for `name` is the updated contact. */
  lemma UpdateThenInSync(contacts: seq<Contact>, name: string, phone: Long, rowsAffected: Result<int>, rows: seq<Contact>)
    requires Confirmed(rowsAffected) && FirstIndex(contacts, name).Some?
    requires rows != [] && rows[0] == contacts[FirstIndex(contacts, name).value].(phoneNumber := phone)
    ensures CheckContactDataSync(PhoneUpdated(contacts, name, phone, rowsAffected), name, Ok(rows)) == Ok(true)
  {
  }

  /** No two entries of the update map share a name. */
  predicate DistinctNames(entries: seq<(string, Long)>)
  {
    forall i, j :: 0 <= i < j < |entries| ==> entries[i].0 != entries[j].0
  }

  /** The cache after updating each (name, phone) entry in turn, with the
      database's affected-row count (or exception) for each. Only phone
      numbers ever change. */
  function PhonesUpdated(contacts: seq<Contact>, entries: seq<(string, Long)>, rowsAffected: seq<Result<int>>): (r: seq<Contact>)
    requires |rowsAffected| == |entries|
    ensures |r| == |contacts|
    ensures forall j :: 0 <= j < |r| ==> r[j] == contacts[j].(phoneNumber := r[j].phoneNumber)
  {
    if |entries| == 0 then contacts
    else
      var n := |entries| - 1;
      PhoneUpdated(PhonesUpdated(contacts, entries[..n], rowsAffected[..n]), entries[n].0, entries[n].1, rowsAffected[n])
  }

  /** Every confirmed entry whose name is cached sets the phone number of the
      first contact with that first name. */
  lemma {:induction false} PhonesUpdatedLands(contacts: seq<Contact>, entries: seq<(string, Long)>,
                                              rowsAffected: seq<Result<int>>, i: nat)
    requires |rowsAffected| == |entries| && DistinctNames(entries)
    requires i < |entries| && Confirmed(rowsAffected[i]) && FirstIndex(contacts, entries[i].0).Some?
    ensures PhonesUpdated(contacts, entries, rowsAffected)[FirstIndex(contacts, entries[i].0).value].phoneNumber == entries[i].1
  {
    var n := |entries| - 1;
    var before := PhonesUpdated(contacts, entries[..n], rowsAffected[..n]);
    var j := FirstIndex(contacts, entries[i].0).value;
    FirstIndexSameNames(contacts, before, entries[n].0);
    if i < n {
      PhonesUpdatedLands(contacts, entries[..n], rowsAffected[..n], i);
      assert contacts[j].firstName == entries[i].0 != entries[n].0;
    }
  }

  /** Conversely, a cached contact changes only as the first contact with its
      first name, and only to the phone of a confirmed entry for that name. */
  lemma {:induction false} PhonesUpdatedOnlyConfirmed(contacts: seq<Contact>, entries: seq<(string, Long)>,
                                                      rowsAffected: seq<Result<int>>, j: nat)
    requires |rowsAffected| == |entries|
    requires j < |contacts| && PhonesUpdated(contacts, entries, rowsAffected)[j] != contacts[j]
    ensures FirstIndex(contacts, contacts[j].firstName) == Some(j)
    ensures exists i :: 0 <= i < |entries| && Confirmed(rowsAffected[i]) && entries[i].0 == contacts[j].firstName &&
                        entries[i].1 == PhonesUpdated(contacts, entries, rowsAffected)[j].phoneNumber
  {
    if |entries| == 0 {
      assert false;
    }
    var n := |entries| - 1;
    var before := PhonesUpdated(contacts, entries[..n], rowsAffected[..n]);
    var after := PhonesUpdated(contacts, entries, rowsAffected);
    FirstIndexSameNames(contacts, before, entries[n].0);
    if after[j] != before[j] {
      assert Confirmed(rowsAffected[n]) && FirstIndex(before, entries[n].0) == Some(j);
      assert entries[n].0 == contacts[j].firstName;
    } else {
      PhonesUpdatedOnlyConfirmed(contacts, entries[..n], rowsAffected[..n], j);
      var i :| 0 <= i < n && Confirmed(rowsAffected[..n][i]) && entries[..n][i].0 == contacts[j].firstName &&
               entries[..n][i].1 == before[j].phoneNumber;
      assert Confirmed(rowsAffected[i]) && entries[i].1 == after[j].phoneNumber;
    }
  }
}
