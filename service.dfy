/** The address-book service: it owns the contact list and keeps it in step
    with the database. The database is not modelled; every call into it is a
    `reply` parameter holding what that call returned or threw, and a batch
    takes one reply per item, in the order the items are processed. */
module Service {
  import opened Contacts
  import opened ContactCache

  class AddressBookService {
    /** The cached contacts, in list order. */
    var contactList: seq<Contact>

    constructor ()
      ensures contactList == []
    {
      contactList := [];
    }

    /** Reloads the cache from the database when `io` selects it, and returns
        the cache. A failed read throws before the cache is touched; every
        other selector returns the cache as it is. */
    method ReadContactData(io: IOService, read: Result<seq<Contact>>) returns (r: Result<seq<Contact>>)
      modifies this
      ensures io == DbIO && read.Ok? ==> contactList == read.value && r == Ok(read.value)
      ensures io == DbIO && read.Throws? ==> contactList == old(contactList) && r == Throws(read.error)
      ensures io != DbIO ==> contactList == old(contactList) && r == Ok(contactList)
    {
      if io == DbIO {
        match read
        case Throws(e) =>
          return Throws(e);
        case Ok(rows) =>
          contactList := rows;
      }
      r := Ok(contactList);
    }

    /** Writes `phone` for `name` to the database, then, only if it reports a
        changed row, sets the phone number of the first cached contact whose
        first name is `name`. */
    method UpdatePersonsPhone(name: string, phone: Long, rowsAffected: Result<int>) returns (s: Status)
      modifies this
      ensures contactList == PhoneUpdated(old(contactList), name, phone, rowsAffected)
      ensures s == if rowsAffected.Throws? then Threw(rowsAffected.error) else Completed
    {
      if rowsAffected.Throws? {
        return Threw(rowsAffected.error);
      }
      if rowsAffected.value == 0 {
        return Completed;
      }
      var found := FirstIndex(contactList, name);
      if found.Some? {
        var i := found.value;
        contactList := contactList[i := contactList[i].(phoneNumber := phone)];
      }
      s := Completed;
    }

    /** Inserts `request` into the database and appends the contact the
        database returned; a failed insert appends nothing. */
    method AddContactInDatabase(request: Contact, inserted: Result<Contact>) returns (s: Status)
      modifies this
      ensures inserted.Ok? ==> contactList == old(contactList) + [inserted.value]
      ensures inserted.Throws? ==> contactList == old(contactList)
      ensures s == if inserted.Throws? then Threw(inserted.error) else Completed
    {
      match inserted
      case Throws(e) =>
        s := Threw(e);
      case Ok(c) =>
        contactList := contactList + [c];
        s := Completed;
    }

    /** The insert each item of a batch goes through; it behaves as
        `AddContactInDatabase`. */
    method AddContactDB(request: Contact, inserted: Result<Contact>) returns (s: Status)
      modifies this
      ensures contactList == old(contactList) + Appended(inserted)
      ensures s == if inserted.Throws? then Threw(inserted.error) else Completed
    {
      match inserted
      case Throws(e) =>
        s := Threw(e);
      case Ok(c) =>
        contactList := contactList + [c];
        s := Completed;
    }

    /** Inserts the contacts one at a time, in list order; an insert that
        throws is skipped and the rest go on. */
    method AddContactToDB(contacts: seq<Contact>, inserted: seq<Result<Contact>>)
      requires |inserted| == |contacts|
      modifies this
      ensures contactList == old(contactList) + Inserted(inserted)
    {
      var i := 0;
      while i < |contacts|
        invariant 0 <= i <= |contacts|
        invariant contactList == old(contactList) + Inserted(inserted[..i])
      {
        var _ := AddContactDB(contacts[i], inserted[i]);
        assert inserted[..i + 1][..i] == inserted[..i];
        i := i + 1;
      }
      assert inserted[..i] == inserted;
    }

    /** Updates the phone number of each (name, phone) entry of the map, one
        at a time, in the map's iteration order; an update that throws is
        skipped and the rest go on. */
    method UpdatePhoneNumber(entries: seq<(string, Long)>, rowsAffected: seq<Result<int>>)
      requires DistinctNames(entries)
      requires |rowsAffected| == |entries|
      modifies this
      ensures contactList == PhonesUpdated(old(contactList), entries, rowsAffected)
    {
      var i := 0;
      while i < |entries|
        invariant 0 <= i <= |entries|
        invariant contactList == PhonesUpdated(old(contactList), entries[..i], rowsAffected[..i])
      {
        var _ := UpdatePersonsPhone(entries[i].0, entries[i].1, rowsAffected[i]);
        assert entries[..i + 1][..i] == entries[..i];
        assert rowsAffected[..i + 1][..i] == rowsAffected[..i];
        i := i + 1;
      }
      assert entries[..i] == entries && rowsAffected[..i] == rowsAffected;
    }

    /** Checks every name against the database, in order. A lookup that throws
        `DatabaseException` is skipped; any other failure, including `get(0)`
        on an empty lookup, ends the check. Otherwise the answer is false
        exactly when some checked name is out of sync. */
    method CheckContactInSyncWithDB(names: seq<string>, lookups: seq<Result<seq<Contact>>>) returns (r: Result<bool>)
      requires |lookups| == |names|
      ensures r.Ok? ==> forall i :: 0 <= i < |names| ==> !Escapes(CheckContactDataSync(contactList, names[i], lookups[i]))
      ensures r.Ok? ==> (r.value <==> forall i :: 0 <= i < |names| ==> CheckContactDataSync(contactList, names[i], lookups[i]) != Ok(false))
      ensures r.Throws? ==> exists i :: 0 <= i < |names| && CheckContactDataSync(contactList, names[i], lookups[i]) == Throws(r.error) &&
                                       Escapes(Throws(r.error)) &&
                                       forall k :: 0 <= k < i ==> !Escapes(CheckContactDataSync(contactList, names[k], lookups[k]))
    {
      var resultList: seq<bool> := [];
      var i := 0;
      while i < |names|
        invariant 0 <= i <= |names|
        invariant forall k :: 0 <= k < i ==> !Escapes(CheckContactDataSync(contactList, names[k], lookups[k]))
        invariant (false in resultList) <==> exists k :: 0 <= k < i && CheckContactDataSync(contactList, names[k], lookups[k]) == Ok(false)
      {
        // the same comparison checkContactDataSync makes, inside the try block
        var check := CheckContactDataSync(contactList, names[i], lookups[i]);
        if Escapes(check) {
          return Throws(check.error);
        }
        if check.Ok? {
          resultList := resultList + [check.value];
        }
        i := i + 1;
      }
      r := Ok(false !in resultList);
    }
  }

  /** A failure the batch check does not catch. */
  predicate Escapes(check: Result<bool>)
  {
    check.Throws? && check.error != DatabaseException
  }
}
