# Inventory: the items table, its repository and the item-entry state holder

This project models the data core of a small Android inventory app written in Kotlin.
The app keeps one table, `items`, of records with an id, a name, a price and a quantity.

- `ItemDao` is the Room data-access object for that table. It inserts, ignoring a
  row whose id is already taken. It updates and deletes by id. It looks a row up by
  id, and it lists all rows ordered by name.
- `OfflineItemsRepository` forwards each of those five calls to the DAO.
- `ItemEntryViewModel` holds the text the user types on the "add item" screen. It
  decides whether that text is complete and saves it as a new row.

Files (one module each):

- `wrappers.dfy`: `Option`, standing for Kotlin's nullable results.
- `kotlin_text.dfy` (`KotlinText`): the Kotlin library functions the entry screen
  relies on. These are the 32-bit `Int` range, `String.toIntOrNull()`,
  `Int.toString()` and `isNotBlank()`.
- `item.dfy` (`ItemEntity`): the `Item` record.
- `item_dao.dfy` (`Dao`): what each DAO operation does to the table, as functions on a
  `Table` value. The class `ItemDao` holds the current rows, and its methods and queries
  are proved against those functions.
- `offline_items_repository.dfy` (`Repository`): the class `OfflineItemsRepository`.
  Each of its methods is proved to have exactly the effect of the DAO call it forwards to.
- `item_entry_view_model.dfy` (`ItemEntry`): `ItemDetails`, `ItemUiState`, the
  conversions between details and items, the validator and the class
  `ItemEntryViewModel`.
- `scenarios.dfy` (`Scenarios`): client code that exercises the contracts. It inserts
  a duplicate id, inserts with a generated id, updates by id, and saves from the entry
  screen.

How the store assigns ids: Room turns `@PrimaryKey(autoGenerate = true)` into
`INTEGER PRIMARY KEY AUTOINCREMENT` and binds an id of 0 as NULL. SQLite then assigns
one more than the largest id the table has ever held, which it records in
`sqlite_sequence`. The model keeps that value as `Table.sequence`.

Room declares the non-null `price` column `REAL NOT NULL`, and SQLite binds a NaN as
NULL. The entry screen can produce a NaN price, since `"NaN".toDoubleOrNull()` is NaN.
An insert of such an item is dropped by `OR IGNORE`, like a duplicate id. SQLite has
already chosen the row id by then, so the dropped row still advances `sqlite_sequence`
(a generated id is used up; an explicit id above the sequence raises it). An update
that would give a stored row a NaN price aborts with a constraint error and changes
nothing.

Queries return `Flow`s in the app. Here they are functions of the table's current
contents, which is what each emission of such a flow carries. `suspend` calls are
ordinary sequential method calls.

Two conversions are JVM routines that the model does not define:
`String.toDoubleOrNull()` and `Double.toString()`. `ToItem` and `ToItemDetails` take
them as function parameters, and the view-model is constructed with the parser.

Two points where the code behaves differently from what one might assume:

- Nothing in the code keeps price or quantity non-negative: `"-5".toIntOrNull()` is
  `-5`, and an item with a negative quantity is stored like any other.
- `ItemDao.getItem` is declared as a flow of a non-null `Item`, but the repository
  interface promises `null` when no row matches. `GetItem` and `GetItemStream`
  return `None` in that case.

## Model

| member | source | states |
|---|---|---|
| KotlinText.ParseInt | app/src/main/java/com/example/inventory/ui/item/ItemEntryViewModel.kt:101 | `toIntOrNull()` yields a value exactly when the text has an optional `+`/`-`, then at least one ASCII digit, and its value fits in 32 bits; that value is the literal's signed decimal value |
| KotlinText.AccumulateDigitsCorrect | app/src/main/java/com/example/inventory/ui/item/ItemEntryViewModel.kt:101 | the left-to-right digit loop fails exactly on a non-digit, and otherwise equals `acc·10^n` plus the digits' decimal value |
| KotlinText.DecimalValueCons | app/src/main/java/com/example/inventory/ui/item/ItemEntryViewModel.kt:101 | reading digits from the front agrees with the reference right-to-left value |
| KotlinText.ParseIntRejectsNonLiterals | app/src/main/java/com/example/inventory/ui/item/ItemEntryViewModel.kt:95-101 | `"abc"`, `""`, `"-"` and `" 1"` give null, so the quantity becomes 0 |
| KotlinText.ParseIntAboveMax | app/src/main/java/com/example/inventory/ui/item/ItemEntryViewModel.kt:95-101 | `"2147483648"`, one past `Int.MAX_VALUE`, gives null |
| KotlinText.ParseIntMin | app/src/main/java/com/example/inventory/ui/item/ItemEntryViewModel.kt:101 | `"-2147483648"` gives `Int.MIN_VALUE` |
| KotlinText.ParseIntLeadingZeros | app/src/main/java/com/example/inventory/ui/item/ItemEntryViewModel.kt:101 | leading zeros are accepted: `"-007"` gives −7 |
| KotlinText.Digits | app/src/main/java/com/example/inventory/ui/item/ItemEntryViewModel.kt:126 | `toString()` of a natural number is a nonempty digit string without leading zeros whose decimal value is the number |
| KotlinText.FormatIntNotBlank | app/src/main/java/com/example/inventory/ui/item/ItemEntryViewModel.kt:126 | the printed quantity is never blank |
| KotlinText.ParseFormatRoundTrip | app/src/main/java/com/example/inventory/ui/item/ItemEntryViewModel.kt:101-126 | `n.toString().toIntOrNull() == n` for every 32-bit `n` |
| KotlinText.FormatInt | app/src/main/java/com/example/inventory/ui/item/ItemEntryViewModel.kt:126 | `Int.toString()` starts with `-` exactly for a negative number; the rest is digits whose value is the magnitude |
| KotlinText.IsNotBlank | app/src/main/java/com/example/inventory/ui/item/ItemEntryViewModel.kt:66 | `isNotBlank()` holds exactly when some character is not whitespace, so the text is nonempty |
| KotlinText.EmptyIsBlank | app/src/main/java/com/example/inventory/ui/item/ItemEntryViewModel.kt:66 | the empty string is blank, so it never passes `isNotBlank()` |
| ItemEntity.DefaultIdIsUnset | app/src/main/java/com/example/inventory/data/Item.kt:27-28 | an item built without an explicit id has id 0 |
| ItemEntity.ItemEquality | app/src/main/java/com/example/inventory/data/Item.kt:26-32 | two items are equal iff all four fields are equal |
| Dao.GeneratedId | app/src/main/java/com/example/inventory/data/Item.kt:27-28 | the id the store generates is never 0, is not used by any row, and is above every stored id |
| Dao.EmptyTable | app/src/main/java/com/example/inventory/data/Item.kt:25 | a freshly created `items` table has no rows and satisfies the table invariant |
| Dao.InsertRow | app/src/main/java/com/example/inventory/data/ItemDao.kt:18-24 | the sequence becomes the generated id for id 0 and otherwise the larger of the sequence and the id, whether or not the row is stored; a taken id leaves the table unchanged; a NaN price (rejected by the `NOT NULL` price column) leaves the rows unchanged; otherwise a fresh explicit id adds exactly that row, and id 0 stores the item, other fields kept, under the generated id; other rows unchanged; the invariant holds |
| Dao.UpdateRow | app/src/main/java/com/example/inventory/data/ItemDao.kt:26-28 | only the row with the item's id is replaced; with no such row, or when the update aborts on a NaN price, the table is unchanged; the invariant holds |
| Dao.UpdateAborts | app/src/main/java/com/example/inventory/data/ItemDao.kt:26-28 | `UPDATE OR ABORT` fails exactly when a row has the item's id and the new price is NaN, which the `NOT NULL` price column rejects; so an item whose id is still 0 never aborts |
| Dao.DeleteRow | app/src/main/java/com/example/inventory/data/ItemDao.kt:30-32 | only the row with the item's id is removed, whatever its other fields; with no such row the table is unchanged; the invariant holds |
| Dao.ApplyWrite | app/src/main/java/com/example/inventory/data/ItemDao.kt:23-32 | every single write keeps the table invariant |
| Dao.ApplyWrites | app/src/main/java/com/example/inventory/data/ItemDao.kt:23-32 | after any sequence of inserts, updates and deletes no two rows share an id, and no row has id 0 |
| Dao.NameLeTotal | app/src/main/java/com/example/inventory/data/ItemDao.kt:47 | any two names are ordered one way or the other |
| Dao.NameLeTransitive | app/src/main/java/com/example/inventory/data/ItemDao.kt:47 | the name order is transitive |
| Dao.InsertByNameSorted | app/src/main/java/com/example/inventory/data/ItemDao.kt:47 | inserting a row into a name-sorted list keeps it sorted |
| Dao.SortByNamePermutes | app/src/main/java/com/example/inventory/data/ItemDao.kt:47 | the sorted list has the input's length, multiset and members |
| Dao.SortByNameCorrect | app/src/main/java/com/example/inventory/data/ItemDao.kt:47 | sorting by name gives a sorted permutation of its input that keeps distinct rows distinct |
| Dao.RowsByIdMembers | app/src/main/java/com/example/inventory/data/ItemDao.kt:47 | the table scan lists every stored row and nothing else, one entry per row |
| Dao.RowsByIdAscending | app/src/main/java/com/example/inventory/data/ItemDao.kt:47 | the table scan lists ids in strictly ascending order |
| Dao.ItemDao.Insert | app/src/main/java/com/example/inventory/data/ItemDao.kt:23-24 | the new table is `InsertRow` of the old one, and the invariant is kept |
| Dao.ItemDao.constructor | app/src/main/java/com/example/inventory/data/ItemDao.kt:16 | a DAO over a fresh database sees the empty table |
| Dao.ItemDao.Update | app/src/main/java/com/example/inventory/data/ItemDao.kt:27-28 | the new table is `UpdateRow` of the old one, the invariant is kept, and it reports an abort exactly when a matching row would get a NaN price |
| Dao.ItemDao.Delete | app/src/main/java/com/example/inventory/data/ItemDao.kt:31-32 | the new table is `DeleteRow` of the old one, and the invariant is kept |
| Dao.ItemDao.GetItem | app/src/main/java/com/example/inventory/data/ItemDao.kt:34-40 | the stored row with that id, or absent exactly when no row has it |
| Dao.ItemDao.GetAllItems | app/src/main/java/com/example/inventory/data/ItemDao.kt:42-48 | every stored row exactly once, nothing else, sorted by name ascending |
| Repository.OfflineItemsRepository.constructor | app/src/main/java/com/example/inventory/data/OfflineItemsRepository.kt:25 | the repository holds just the DAO it is given |
| Repository.OfflineItemsRepository.GetAllItemsStream | app/src/main/java/com/example/inventory/data/OfflineItemsRepository.kt:31 | exactly the DAO's `getAllItems()`, so it is sorted and has one entry per row |
| Repository.OfflineItemsRepository.GetItemStream | app/src/main/java/com/example/inventory/data/OfflineItemsRepository.kt:37 | exactly the DAO's `getItem(id)`; absent iff no row has the id |
| Repository.OfflineItemsRepository.InsertItem | app/src/main/java/com/example/inventory/data/OfflineItemsRepository.kt:43 | exactly the effect of the DAO's insert; only the DAO's table changes |
| Repository.OfflineItemsRepository.DeleteItem | app/src/main/java/com/example/inventory/data/OfflineItemsRepository.kt:49 | exactly the effect of the DAO's delete; only the DAO's table changes |
| Repository.OfflineItemsRepository.UpdateItem | app/src/main/java/com/example/inventory/data/OfflineItemsRepository.kt:55 | exactly the effect of the DAO's update, abort included; only the DAO's table changes |
| ItemEntry.InitialUiState | app/src/main/java/com/example/inventory/ui/item/ItemEntryViewModel.kt:76-90 | the default UI state has id 0, empty name, price and quantity, and `isEntryValid` false, and does not validate |
| ItemEntry.ValidateInput | app/src/main/java/com/example/inventory/ui/item/ItemEntryViewModel.kt:64-67 | details that validate have a nonempty name, price and quantity |
| ItemEntry.ValidateInputMeaning | app/src/main/java/com/example/inventory/ui/item/ItemEntryViewModel.kt:64-67 | valid iff name, price and quantity each contain a non-whitespace character; the id plays no part |
| ItemEntry.ValidateIgnoresNumberFormat | app/src/main/java/com/example/inventory/ui/item/ItemEntryViewModel.kt:64-67 | a quantity of `"abc"` passes validation and is saved as quantity 0 |
| ItemEntry.ToItem | app/src/main/java/com/example/inventory/ui/item/ItemEntryViewModel.kt:97-102 | id and name are copied; quantity is the literal's value when the text is an in-range Int literal and 0 otherwise; price is the parsed value or 0.0 |
| ItemEntry.ToItemDetails | app/src/main/java/com/example/inventory/ui/item/ItemEntryViewModel.kt:122-127 | id and name are copied; the quantity text is non-blank and parses back to the quantity |
| ItemEntry.ToItemUiState | app/src/main/java/com/example/inventory/ui/item/ItemEntryViewModel.kt:114-117 | wraps `toItemDetails()` with the given `isEntryValid` |
| ItemEntry.ToItemUiStateDefault | app/src/main/java/com/example/inventory/ui/item/ItemEntryViewModel.kt:114 | `isEntryValid` defaults to false |
| ItemEntry.RoundTrip | app/src/main/java/com/example/inventory/ui/item/ItemEntryViewModel.kt:97-127 | `toItem(toItemDetails(it))` has the id, name and quantity of `it`, whatever the price routines do |
| ItemEntry.RoundTripExact | app/src/main/java/com/example/inventory/ui/item/ItemEntryViewModel.kt:97-127 | when the price parser reads back what the printer wrote, `toItem(toItemDetails(it)) == it` |
| ItemEntry.ItemDetailsOfItemValidate | app/src/main/java/com/example/inventory/ui/item/ItemEntryViewModel.kt:122-127 | the details of an item validate when its name and printed price are non-blank |
| ItemEntry.ItemEntryViewModel.constructor | app/src/main/java/com/example/inventory/ui/item/ItemEntryViewModel.kt:39 | the view-model starts in the default UI state, whose flag agrees with its details |
| ItemEntry.ItemEntryViewModel.UpdateUiState | app/src/main/java/com/example/inventory/ui/item/ItemEntryViewModel.kt:46-49 | afterwards the details are the argument and `isEntryValid == validateInput(details)`; nothing else changes |
| ItemEntry.ItemEntryViewModel.SaveItem | app/src/main/java/com/example/inventory/ui/item/ItemEntryViewModel.kt:55-59 | when the current details validate, the table becomes `InsertRow` of `toItem(details)`; otherwise it is untouched; the UI state is unchanged |

## Left out

- `InventoryDatabase`: the process-wide database singleton (`@Volatile` plus
  `synchronized` around Room's builder) is concurrency and a library call. The code
  also does not re-check the instance inside the lock, so "built once" is not a
  property of it.
- `AppContainer` and `AppViewModelProvider`: dependency-injection glue.
  `HomeScreen`: rendering only.
- Reactive behaviour of `Flow`: re-emission on change, subscription, cancellation and
  coroutine dispatch are framework concurrency. Queries are snapshots of the current
  table.
- Storage failures: an I/O error of a write or of opening the database is not modelled.
  Every write completes.
- Price arithmetic: `price` is a 64-bit pattern that is only copied or tested for NaN.
  `toDoubleOrNull()` and `Double.toString()` are parameters. `formatedPrice` is left
  out because it uses a locale's currency `NumberFormat`. Kotlin's data-class equality
  treats all NaN patterns as equal; the model's `Item` equality compares bit patterns.
- Dao.ItemDao.Update: the `SQLiteConstraintException` of an aborted update is the
  `aborted` result, not an exception that unwinds the caller.
- Repository.OfflineItemsRepository.UpdateItem: passes on the same `aborted` result in
  place of the exception that `updateItem` lets propagate from the DAO.
- Id width: ids are unbounded integers. Kotlin's 32-bit `Int` id, SQLite's 64-bit
  rowid, and what happens once a generated id passes either bound are not modelled.
  The quantity's 32-bit range is modelled.
- KotlinText.ParseInt: only ASCII digits count as digits. The JVM's
  `Character.digit` also accepts other Unicode decimal digits.
- KotlinText.IsWhitespace: this is the JVM's `Character.isWhitespace ||
  Character.isSpaceChar` set for current Unicode versions. Older tables that put
  U+180E among the spaces are not followed.
- Dao.NameLe: this is the code-point order of Dafny strings, which is SQLite's BINARY
  collation over UTF-8. Kotlin strings holding unpaired surrogates cannot be
  represented.
- Dao.ItemDao.GetAllItems: the order of rows with equal names is not stated, because
  SQLite does not fix it. The model happens to scan by id and sort stably.
- Schema metadata (`version = 1`, `exportSchema = false`, the table name) is
  configuration, not behaviour.
