# Address book contact cache

This project models the core of an address-book service written in Java.

`AddressBookService` owns an in-memory list of contacts. It keeps that list in step with a contact database through these operations:

- reloading the list;
- updating one person's phone number;
- inserting one contact;
- inserting a batch of contacts;
- updating a batch of phone numbers;
- checking whether the list agrees with the database, for one name or for several.

The project also models the comparator `SortByZip`, which orders contacts by zip code.

The database is not modelled. Every call the service makes into it is a parameter holding what that call returned or which exception it threw:

- the rows `readData` returns;
- the affected-row count `updatePersonsData` returns;
- the stored contact `addContact` returns;
- the rows `getContactFromData` returns for a name.

A batch takes one such reply per item, in processing order.

Files:

- `contacts.dfy` (module `Contacts`) holds the contact record, Java's `long` and `int` ranges, the store selector, and the `Result`/`Status` types for returned values and thrown exceptions.
- `contact_cache.dfy` (module `ContactCache`) holds the pure queries over the contact list. For every operation that changes the list, it also has a function giving the list afterwards. The lemmas about those functions are there too.
- `service.dfy` (module `Service`) holds the class `AddressBookService`. Its field `contactList` is reassigned by its methods. The two batch operations and the batch sync check are loops.
- `sort_by_zip.dfy` (module `SortByZip`) holds the comparator.

Decisions:

- Contacts are compared structurally: two contacts are equal when every field is. The Java `Contact` class and its `equals` are not part of this model.
- The cache lookup compares `firstName` only. A full name such as "Aniket Sarap" matches no cached contact unless a first name is stored that way. `ContactCache.AbsentNameNeverInSync` states what follows from that.
- `readContactData` reloads only for `DB_IO`; `REST_IO`, like every other selector, returns the cache as it is.
- `checkContactDataSync` calls `get(0)` on the lookup result. An empty lookup is modelled as the `IndexOutOfBoundsException` it throws, not as a separate "not found" error.
- `checkContactInSyncWithDB` catches only `DatabaseException`. A name whose lookup throws it is skipped, so it counts as neither in sync nor out of sync. Every other failure, including the empty-lookup `get(0)`, ends the check with that exception.
- Each batch item runs in a thread that is joined before the next item starts. The batches are therefore modelled as sequential loops. An exception that escapes one item's task ends only that thread, so every item whose store call fails is skipped. A null thread name is the exception; see "## Left out".
- The `Map<String, Long>` that `updatePhoneNumber` receives is modelled as a sequence of (name, phone) entries in the map's iteration order. Its names are distinct, as a map's keys are.
- `compare` casts the zip difference to `int`. `SortByZip` compares the `com.addressbookdb` package's `Contact`, whose source is not part of this model, so the type `getZip()` returns cannot be seen. The model assumes `long`, as the cache's contacts use. Then the subtraction wraps at 64 bits and the cast wraps at 32 bits. The result is the difference reduced modulo 2^32 into the `int` range.
- The result would be the same if `getZip()` returned `int`. The second ensures of `SortByZip.CompareIsNarrowedDifference` shows that the 64-bit wrap never affects the result, which is the 32-bit narrowing of the exact difference. The Findings input 2147483648 does need a `long` zip. With `int` zips, a difference of 2^31 still arises, for example from zips 2147483647 and -1.

## Model

| member | source | states |
|---|---|---|
| `ContactCache.FirstIndex` | src/main/java/com/capgemini/addressbookdb/AddressBookService.java:174-176 | the position found is the first contact whose first name is `name`, and there is none exactly when no contact has that first name |
| `ContactCache.GetContact` | src/main/java/com/capgemini/addressbookdb/AddressBookService.java:173-178 | a contact is returned exactly when some cached contact has first name `name`, and it is the first such contact in list order |
| `ContactCache.CountEntries` | src/main/java/com/capgemini/addressbookdb/AddressBookService.java:250-256 | the cache length for the database selector, 0 for every other selector |
| `ContactCache.CheckContactDataSync` | src/main/java/com/capgemini/addressbookdb/AddressBookService.java:180-183 | a failed lookup propagates its exception; an empty lookup throws `IndexOutOfBoundsException`; otherwise the answer is true exactly when the first row equals the first cached contact with that first name |
| `ContactCache.AbsentNameNeverInSync` | src/main/java/com/capgemini/addressbookdb/AddressBookService.java:173-183 | a name that is no cached contact's first name is never in sync, whatever non-empty rows the database returns |
| `ContactCache.PhoneUpdated` | src/main/java/com/capgemini/addressbookdb/AddressBookService.java:164-171 | the length is kept; only phone numbers change; a contact changes only if the database confirmed the write and it is the first contact with first name `name`; that contact then gets the new phone |
| `ContactCache.UpdateThenInSync` | src/main/java/com/capgemini/addressbookdb/AddressBookService.java:164-183 | after a confirmed update, the name is in sync with a database whose first row for it is the updated contact |
| `ContactCache.PhonesUpdated` | src/main/java/com/capgemini/addressbookdb/AddressBookService.java:263-282 | a batch of phone updates keeps the length and changes nothing but phone numbers |
| `ContactCache.PhonesUpdatedLands` | src/main/java/com/capgemini/addressbookdb/AddressBookService.java:263-282 | each confirmed entry whose name is cached leaves its phone on the first contact with that first name |
| `ContactCache.PhonesUpdatedOnlyConfirmed` | src/main/java/com/capgemini/addressbookdb/AddressBookService.java:263-282 | a contact that changes is the first with its first name, and its new phone is that of a confirmed entry for that name; failed and zero-row updates change nothing |
| `ContactCache.InsertedCount` | src/main/java/com/capgemini/addressbookdb/AddressBookService.java:221-241 | a batch insert adds exactly as many contacts as the database accepted |
| `ContactCache.InsertedPlacement` | src/main/java/com/capgemini/addressbookdb/AddressBookService.java:221-248 | each accepted contact is placed after those accepted before it: input order is kept and failures leave no gap |
| `ContactCache.CountAfterBatchInsert` | src/test/java/com/capgemini/addressbooktest/AddressBookTest.java:70-81 | after a batch insert, the database count is the count before plus the accepted inserts |
| `ContactCache.InsertThenInSync` | src/test/java/com/capgemini/addressbooktest/AddressBookTest.java:61-68 | a newly appended contact is in sync when the database's first row is that contact and no earlier cached contact has its first name |
| `Service.AddressBookService.constructor` | src/main/java/com/capgemini/addressbookdb/AddressBookService.java:32-37 | the service starts with an empty cache |
| `Service.AddressBookService.ReadContactData` | src/main/java/com/capgemini/addressbookdb/AddressBookService.java:151-156 | for the database selector the cache becomes exactly the rows read; a failed read throws and leaves the cache unchanged; any other selector returns the cache unchanged |
| `Service.AddressBookService.UpdatePersonsPhone` | src/main/java/com/capgemini/addressbookdb/AddressBookService.java:164-171 | the new cache is `PhoneUpdated` of the old one; a database exception is rethrown and leaves the cache untouched |
| `Service.AddressBookService.AddContactInDatabase` | src/main/java/com/capgemini/addressbookdb/AddressBookService.java:210-214 | exactly the stored contact is appended; a failed insert throws and appends nothing |
| `Service.AddressBookService.AddContactDB` | src/main/java/com/capgemini/addressbookdb/AddressBookService.java:243-248 | the same append-on-success behaviour, for use by the batch insert |
| `Service.AddressBookService.AddContactToDB` | src/main/java/com/capgemini/addressbookdb/AddressBookService.java:221-241 | the new cache is the old cache followed by the accepted contacts, in input order |
| `Service.AddressBookService.UpdatePhoneNumber` | src/main/java/com/capgemini/addressbookdb/AddressBookService.java:263-282 | the new cache is `PhonesUpdated` of the old one: the entries are applied one at a time and failed entries are skipped |
| `Service.AddressBookService.CheckContactInSyncWithDB` | src/main/java/com/capgemini/addressbookdb/AddressBookService.java:284-298 | the check throws the first failure that is not a `DatabaseException`; otherwise no such failure occurs, and the answer is false exactly when some name's check yields false; skipped names and an empty list give true |
| `SortByZip.CompareIsNarrowedDifference` | src/main/java/com/addressbookdb/SortByZip.java:5-7 | the result is the zip difference narrowed to 32-bit two's complement; the `long` wrap never shows |
| `SortByZip.CompareReflexive` | src/main/java/com/addressbookdb/SortByZip.java:6 | a contact compares equal to itself |
| `SortByZip.CompareSign` | src/main/java/com/addressbookdb/SortByZip.java:6 | when the difference fits in an `int`, the result is negative, zero or positive as the first zip is smaller, equal or larger |
| `SortByZip.CompareAntisymmetric` | src/main/java/com/addressbookdb/SortByZip.java:6 | swapping the arguments negates the result while the difference lies strictly inside the `int` range |
| `SortByZip.CompareOverflow` | src/main/java/com/addressbookdb/SortByZip.java:6 | zips 2^31 apart compare negative in both orders |
| `SortByZip.CompareZip` | src/main/java/com/addressbookdb/SortByZip.java:6 | the corrected comparison: its sign is the order of the zips for every pair |
| `SortByZip.CompareZipIsOrder` | src/main/java/com/addressbookdb/SortByZip.java:6 | the corrected comparison is antisymmetric and transitive |

## Left out

- Text, CSV and JSON export and import (`writeData`, `readData`, `writeDataToCSV`, `readDataFromCSV`, `writeDataToJSON`, `readDataFromJSON`): these are file I/O and console output through libraries that are not part of this model.
- The database `AddressBookDB` and its singleton: it is a foreign JDBC component. Only its replies are modelled. The arguments the service passes to it (the name and phone of an update, the fields of an insert) influence nothing in the model.
- `getContactForDateRange` and `getContactForCityAndState`: they only pass their arguments to the database and return its answer. Their filtering happens in SQL that is not part of this model, and they neither read nor change the cache.
- Thread creation, thread names and `InterruptedException`: every thread is joined before the next starts, so the batches are sequential loops.
- Console logging and stack-trace printing.
- Aliasing: `readContactData` returns the list object itself, and `updatePersonsPhone` changes a `Contact` object in place. A caller holding either reference would see later changes. The model keeps the contacts as values in a sequence, so it does not capture that sharing, nor a contact object that appears twice in the list.
- `countEntries` converts the list size to `long`. A list is never longer than `int` allows, so no wrap-around is modelled.
- The `com.addressbookdb` service's `updatePersonsPhone(String, String)`: its source is not part of this model.
- Null values are not modelled: null names, contacts, map keys and map values. A null thread name does not skip one item; it ends the whole batch. A null map key makes `new Thread(task, k)` throw `NullPointerException` outside the per-item task and ends `updatePhoneNumber` (AddressBookService.java:274). A contact with a null first name does the same to `addContactToDB` (:233).

## Findings

| source | as written | input that shows it | evidently intended | confidence | as-written member | corrected member |
|---|---|---|---|---|---|---|
| src/main/java/com/addressbookdb/SortByZip.java:6 | returns the zip difference cast to `int`, which wraps when the zips are 2^31 or more apart | zips 2147483648 and 0: `compare` is negative in both argument orders | a result whose sign is the zip order, as `Long.compare` gives | not executed; low in practice, since real postal codes are far below 2^31 | `SortByZip.CompareOverflow` | `SortByZip.CompareZip` |
