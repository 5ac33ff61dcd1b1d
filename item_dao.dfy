/**
 * The `items` table as `ItemDao` drives it.  `Table` and the functions on it give the
 * meaning of each DAO operation on the stored rows; the class `ItemDao` holds the
 * current table and its methods and queries are proved against those functions.
 *
 * Room maps `@PrimaryKey(autoGenerate = true)` to `INTEGER PRIMARY KEY AUTOINCREMENT`
 * and binds an id of 0 as NULL, so the store picks the id: one more than the largest
 * id the table has ever held, which SQLite keeps in `sqlite_sequence` (`sequence` here).
 */
module Dao {
  import opened Wrappers
  import opened KotlinText
  import opened ItemEntity

  /** The rows of `items`, keyed by primary key, and the table's `sqlite_sequence` value. */
  datatype Table = Table(rows: map<int, Item>, sequence: int)

  /** Every row is stored under its own id. */
  ghost predicate Keyed(rows: map<int, Item>) {
    forall k | k in rows :: rows[k].id == k
  }

  /**
   * The table invariant: rows are keyed by their id (so no two rows share an id), no row
   * has the "unset" id 0, and `sequence` is at least every id the table holds.
   */
  ghost predicate TableValid(t: Table) {
    && Keyed(t.rows)
    && UnsetId !in t.rows
    && t.sequence >= 0
    && forall k | k in t.rows :: k <= t.sequence
  }

  /** The table a fresh database starts with. */
  function EmptyTable(): (t: Table)
    ensures TableValid(t) && t.rows == map[]
  {
    Table(map[], 0)
  }

  /** The id AUTOINCREMENT assigns next: above every id present, and never 0. */
  function GeneratedId(t: Table): (k: int)
    requires TableValid(t)
    ensures k != UnsetId && k !in t.rows
    ensures forall j | j in t.rows :: j < k
  {
    t.sequence + 1
  }

  /**
   * `@Insert(onConflict = IGNORE)`: an item with id 0 is stored under a generated id; an
   * item with a fresh explicit id is stored as it is; an item whose id is taken is dropped
   * without error and the table is unchanged.  Room declares the non-null `price` column
   * `NOT NULL` and SQLite binds a NaN as NULL, so an item whose price is NaN breaks that
   * constraint and IGNORE drops it too.  SQLite picks the row id, and moves the counter
   * that becomes `sqlite_sequence`, before it checks the constraints, so a dropped NaN
   * row still uses up a generated id or raises the sequence to its explicit id.
   */
  function InsertRow(t: Table, item: Item): (r: Table)
    requires TableValid(t)
    ensures TableValid(r)
    ensures r.sequence == if item.id == UnsetId then GeneratedId(t)
                          else if item.id > t.sequence then item.id else t.sequence
    ensures IsNaN(item.price) ==> r.rows == t.rows
    ensures item.id != UnsetId && item.id in t.rows ==> r == t
    ensures !IsNaN(item.price) && item.id != UnsetId && item.id !in t.rows ==>
      r.rows == t.rows[item.id := item] && |r.rows| == |t.rows| + 1
    ensures !IsNaN(item.price) && item.id == UnsetId ==>
      var k := GeneratedId(t);
      r.rows == t.rows[k := item.(id := k)] && |r.rows| == |t.rows| + 1
  {
    if item.id == UnsetId then
      var k := t.sequence + 1;
      Table(if IsNaN(item.price) then t.rows else t.rows[k := item.(id := k)], k)
    else
      var sequence := if item.id > t.sequence then item.id else t.sequence;
      Table(if IsNaN(item.price) || item.id in t.rows then t.rows else t.rows[item.id := item], sequence)
  }

  /**
   * Whether `@Update` (Room's `UPDATE OR ABORT`) fails: it does exactly when a row matches
   * and the new price is NaN, which the `NOT NULL` price column rejects.  The statement is
   * then rolled back and `SQLiteConstraintException` reaches the caller.
   */
  predicate UpdateAborts(t: Table, item: Item): (aborts: bool)
    requires TableValid(t)
    ensures aborts ==> item.id != UnsetId && IsNaN(item.price)
  {
    item.id in t.rows && IsNaN(item.price)
  }

  /**
   * `@Update`: the row whose id matches is replaced by the item, every column at once;
   * with no such row nothing changes, and when the update aborts nothing changes either.
   */
  function UpdateRow(t: Table, item: Item): (r: Table)
    requires TableValid(t)
    ensures TableValid(r)
    ensures r.rows.Keys == t.rows.Keys && r.sequence == t.sequence
    ensures item.id in t.rows && !UpdateAborts(t, item) ==> r.rows[item.id] == item
    ensures forall k | k in t.rows && k != item.id :: r.rows[k] == t.rows[k]
    ensures item.id !in t.rows || UpdateAborts(t, item) ==> r == t
  {
    if item.id in t.rows && !IsNaN(item.price) then Table(t.rows[item.id := item], t.sequence) else t
  }

  /**
   * `@Delete`: the row whose id matches is removed, whatever the other fields of the
   * argument hold; with no such row nothing changes.
   */
  function DeleteRow(t: Table, item: Item): (r: Table)
    requires TableValid(t)
    ensures TableValid(r)
    ensures r.rows.Keys == t.rows.Keys - {item.id} && r.sequence == t.sequence
    ensures forall k | k in r.rows :: r.rows[k] == t.rows[k]
    ensures item.id !in t.rows ==> r == t
  {
    Table(t.rows - {item.id}, t.sequence)
  }

  /** One write the DAO can perform. */
  datatype Write = Insert(item: Item) | Update(item: Item) | Delete(item: Item)

  function ApplyWrite(t: Table, w: Write): (r: Table)
    requires TableValid(t)
    ensures TableValid(r)
  {
    match w
    case Insert(item) => InsertRow(t, item)
    case Update(item) => UpdateRow(t, item)
    case Delete(item) => DeleteRow(t, item)
  }

  /**
   * Any sequence of inserts, updates and deletes, applied in order, keeps the table
   * invariant: ids stay unique across rows and no row has id 0.
   */
  function ApplyWrites(t: Table, ws: seq<Write>): (r: Table)
    requires TableValid(t)
    ensures TableValid(r)
    ensures forall a, b | a in r.rows && b in r.rows && a != b :: r.rows[a].id != r.rows[b].id
    decreases |ws|
  {
    if |ws| == 0 then t else ApplyWrites(ApplyWrite(t, ws[0]), ws[1..])
  }

  // ---------------------------------------------------------------------------
  // ORDER BY name ASC
  // ---------------------------------------------------------------------------

  /**
   * String order used for `ORDER BY name`: code point by code point, a proper prefix
   * first.  On Unicode scalar values this is SQLite's BINARY collation over UTF-8.
   */
  predicate NameLe(a: string, b: string)
    decreases |a|
  {
    if |a| == 0 then true
    else if |b| == 0 then false
    else if a[0] != b[0] then a[0] < b[0]
    else NameLe(a[1..], b[1..])
  }

  lemma {:induction false} NameLeTotal(a: string, b: string)
    ensures NameLe(a, b) || NameLe(b, a)
    decreases |a|
  {
    if |a| > 0 && |b| > 0 && a[0] == b[0] {
      NameLeTotal(a[1..], b[1..]);
    }
  }

  lemma {:induction false} NameLeTransitive(a: string, b: string, c: string)
    requires NameLe(a, b) && NameLe(b, c)
    ensures NameLe(a, c)
    decreases |a|
  {
    if |a| > 0 && |b| > 0 && |c| > 0 && a[0] == b[0] && b[0] == c[0] {
      NameLeTransitive(a[1..], b[1..], c[1..]);
    }
  }

  /** Every row comes before every later row in name order (equal names in any order). */
  ghost predicate SortedByName(s: seq<Item>) {
    forall i, j | 0 <= i < j < |s| :: NameLe(s[i].name, s[j].name)
  }

  /** Ids strictly increase along the sequence. */
  ghost predicate IdsAscending(s: seq<Item>) {
    forall i, j | 0 <= i < j < |s| :: s[i].id < s[j].id
  }

  /** No row appears twice. */
  ghost predicate Distinct(s: seq<Item>) {
    forall i, j | 0 <= i < j < |s| :: s[i] != s[j]
  }

  /**
   * Places `x` before the first row whose name is not smaller than its own; rows with an
   * equal name that `x` is inserted among come after it, which keeps `SortByName` stable.
   */
  function InsertByName(x: Item, s: seq<Item>): seq<Item>
  {
    if |s| == 0 then [x]
    else if NameLe(x.name, s[0].name) then [x] + s
    else [s[0]] + InsertByName(x, s[1..])
  }

  lemma {:induction false} InsertByNameElements(x: Item, s: seq<Item>)
    ensures |InsertByName(x, s)| == |s| + 1
    ensures multiset(InsertByName(x, s)) == multiset(s) + multiset{x}
    ensures forall y :: y in InsertByName(x, s) <==> y == x || y in s
  {
    if |s| > 0 && !NameLe(x.name, s[0].name) {
      InsertByNameElements(x, s[1..]);
      assert s == [s[0]] + s[1..];
    }
  }

  /** A row no later in name order than any row of a sorted list can go in front of it. */
  lemma SortedCons(h: Item, s: seq<Item>)
    requires SortedByName(s)
    requires forall k | 0 <= k < |s| :: NameLe(h.name, s[k].name)
    ensures SortedByName([h] + s)
  {
    var r := [h] + s;
    forall i, j | 0 <= i < j < |r| ensures NameLe(r[i].name, r[j].name) {
      assert r[j] == s[j - 1];
      if i > 0 {
        assert r[i] == s[i - 1];
      }
    }
  }

  lemma {:induction false} InsertByNameSorted(x: Item, s: seq<Item>)
    requires SortedByName(s)
    ensures SortedByName(InsertByName(x, s))
  {
    if |s| == 0 {
    } else if NameLe(x.name, s[0].name) {
      forall k | 0 <= k < |s| ensures NameLe(x.name, s[k].name) {
        if k > 0 {
          NameLeTransitive(x.name, s[0].name, s[k].name);
        }
      }
      SortedCons(x, s);
    } else {
      var tail := s[1..];
      assert SortedByName(tail) by {
        forall i, j | 0 <= i < j < |tail| ensures NameLe(tail[i].name, tail[j].name) {
          assert tail[i] == s[i + 1] && tail[j] == s[j + 1];
        }
      }
      var rest := InsertByName(x, tail);
      InsertByNameSorted(x, tail);
      InsertByNameElements(x, tail);
      NameLeTotal(x.name, s[0].name);
      forall k | 0 <= k < |rest| ensures NameLe(s[0].name, rest[k].name) {
        assert rest[k] in rest;
        if rest[k] != x {
          var m :| 0 <= m < |tail| && tail[m] == rest[k];
          assert s[m + 1] == rest[k];
        }
      }
      SortedCons(s[0], rest);
    }
  }

  lemma {:induction false} InsertByNameDistinct(x: Item, s: seq<Item>)
    requires Distinct(s) && x !in s
    ensures Distinct(InsertByName(x, s))
  {
    var r := InsertByName(x, s);
    if |s| == 0 {
    } else if NameLe(x.name, s[0].name) {
      forall i, j | 0 <= i < j < |r| ensures r[i] != r[j] {
        if i == 0 {
          assert r[j] == s[j - 1];
        } else {
          assert r[i] == s[i - 1] && r[j] == s[j - 1];
        }
      }
    } else {
      var tail := s[1..];
      assert Distinct(tail) by {
        forall i, j | 0 <= i < j < |tail| ensures tail[i] != tail[j] {
          assert tail[i] == s[i + 1] && tail[j] == s[j + 1];
        }
      }
      assert s[0] !in tail by {
        forall k | 0 <= k < |tail| ensures tail[k] != s[0] { assert tail[k] == s[k + 1]; }
      }
      assert x !in tail by {
        forall k | 0 <= k < |tail| ensures tail[k] != x { assert tail[k] == s[k + 1]; }
      }
      var rest := InsertByName(x, tail);
      InsertByNameDistinct(x, tail);
      InsertByNameElements(x, tail);
      assert r == [s[0]] + rest;
      forall i, j | 0 <= i < j < |r| ensures r[i] != r[j] {
        if i == 0 {
          assert r[j] == rest[j - 1];
          assert r[j] in rest;
        } else {
          assert r[i] == rest[i - 1] && r[j] == rest[j - 1];
        }
      }
    }
  }

  /** Stable insertion sort of rows by name. */
  function SortByName(s: seq<Item>): seq<Item>
  {
    if |s| == 0 then [] else InsertByName(s[0], SortByName(s[1..]))
  }

  /** The sort rearranges its input: same length, same multiset, same members. */
  lemma {:induction false} SortByNamePermutes(s: seq<Item>)
    ensures |SortByName(s)| == |s| && multiset(SortByName(s)) == multiset(s)
    ensures forall y :: y in SortByName(s) <==> y in s
  {
    if |s| > 0 {
      var tail := s[1..];
      assert s == [s[0]] + tail;
      SortByNamePermutes(tail);
      InsertByNameElements(s[0], SortByName(tail));
    }
  }

  /** The sort yields a name-ordered permutation of its input. */
  lemma {:induction false} SortByNameCorrect(s: seq<Item>)
    ensures SortedByName(SortByName(s))
    ensures |SortByName(s)| == |s| && multiset(SortByName(s)) == multiset(s)
    ensures forall y :: y in SortByName(s) <==> y in s
    ensures Distinct(s) ==> Distinct(SortByName(s))
  {
    SortByNamePermutes(s);
    if |s| > 0 {
      var tail := s[1..];
      SortByNameCorrect(tail);
      var sorted := SortByName(tail);
      InsertByNameSorted(s[0], sorted);
      if Distinct(s) {
        assert Distinct(tail) by {
          forall i, j | 0 <= i < j < |tail| ensures tail[i] != tail[j] {
            assert tail[i] == s[i + 1] && tail[j] == s[j + 1];
          }
        }
        assert s[0] !in tail by {
          forall k | 0 <= k < |tail| ensures tail[k] != s[0] { assert tail[k] == s[k + 1]; }
        }
        InsertByNameDistinct(s[0], sorted);
      }
    }
  }

  /** Every nonempty set of ids has a least element. */
  lemma {:induction false} SmallestKeyExists(keys: set<int>)
    requires keys != {}
    ensures exists m :: m in keys && forall k | k in keys :: m <= k
    decreases |keys|
  {
    HasElement(keys);
    var x :| x in keys;
    var rest := keys - {x};
    if rest != {} {
      SmallestKeyExists(rest);
      var m :| m in rest && forall k | k in rest :: m <= k;
      var least := if x < m then x else m;
      assert least in keys;
      forall k | k in keys ensures least <= k { if k != x { assert k in rest; } }
    } else {
      forall k | k in keys ensures x <= k { assert k !in rest; }
    }
  }

  lemma HasElement(keys: set<int>)
    requires keys != {}
    ensures exists x :: x in keys
  {
    if forall x :: x !in keys {
      assert false;
    }
  }

  /** The least id of a nonempty set of ids. */
  function MinKey(keys: set<int>): (m: int)
    requires keys != {}
    ensures m in keys && forall k | k in keys :: m <= k
  {
    SmallestKeyExists(keys);
    var m :| m in keys && forall k | k in keys :: m <= k;
    m
  }

  /** The rows in ascending id order: the order in which SQLite scans a rowid table. */
  function RowsById(rows: map<int, Item>): seq<Item>
    decreases |rows|
  {
    if |rows| == 0 then []
    else
      var m := MinKey(rows.Keys);
      var rest := rows - {m};
      assert |rest| < |rows| by {
        assert rest.Keys == rows.Keys - {m};
      }
      [rows[m]] + RowsById(rest)
  }

  /** Removing the least key leaves one key fewer. */
  lemma RemoveMinKey(rows: map<int, Item>)
    requires |rows| > 0
    ensures (rows - {MinKey(rows.Keys)}).Keys == rows.Keys - {MinKey(rows.Keys)}
    ensures |rows - {MinKey(rows.Keys)}| == |rows| - 1
  {
    var m := MinKey(rows.Keys);
    var rest := rows - {m};
    assert rest.Keys == rows.Keys - {m};
    assert |rest.Keys| == |rows.Keys| - 1;
  }

  /** The id-ordered scan holds every stored row and nothing else. */
  lemma {:induction false} RowsByIdMembers(rows: map<int, Item>)
    requires Keyed(rows)
    ensures |RowsById(rows)| == |rows|
    ensures forall k | k in rows :: rows[k] in RowsById(rows)
    ensures forall x | x in RowsById(rows) :: x.id in rows && rows[x.id] == x
    decreases |rows|
  {
    if |rows| > 0 {
      var m := MinKey(rows.Keys);
      var rest := rows - {m};
      RemoveMinKey(rows);
      RowsByIdMembers(rest);
      var tail := RowsById(rest);
      var r := RowsById(rows);
      assert r == [rows[m]] + tail;
      forall k | k in rows ensures rows[k] in r {
        if k != m { assert rest[k] in tail; }
      }
      forall x | x in r ensures x.id in rows && rows[x.id] == x {
        if x != rows[m] { assert x in tail; }
      }
    }
  }

  /** Every row the scan lists after the least id has a greater id. */
  lemma ScanAfterMin(rows: map<int, Item>)
    requires Keyed(rows) && |rows| > 0
    ensures forall x | x in RowsById(rows - {MinKey(rows.Keys)}) :: MinKey(rows.Keys) < x.id
  {
    var m := MinKey(rows.Keys);
    var rest := rows - {m};
    RemoveMinKey(rows);
    RowsByIdMembers(rest);
    forall x | x in RowsById(rest) ensures m < x.id {
      assert x.id in rest;
    }
  }

  /** The id-ordered scan lists ids in strictly ascending order, so no row appears twice. */
  lemma {:induction false} RowsByIdAscending(rows: map<int, Item>)
    requires Keyed(rows)
    ensures IdsAscending(RowsById(rows))
    decreases |rows|
  {
    if |rows| > 0 {
      var m := MinKey(rows.Keys);
      var rest := rows - {m};
      RemoveMinKey(rows);
      RowsByIdAscending(rest);
      var tail := RowsById(rest);
      var r := RowsById(rows);
      assert r == [rows[m]] + tail;
      ScanAfterMin(rows);
      forall i, j | 0 <= i < j < |r| ensures r[i].id < r[j].id {
        if i == 0 {
          assert r[j] == tail[j - 1];
        } else {
          assert r[i] == tail[i - 1] && r[j] == tail[j - 1];
        }
      }
    }
  }

  // ---------------------------------------------------------------------------
  // The DAO object
  // ---------------------------------------------------------------------------

  /** The DAO bound to the `items` table; its fields are the table's current contents. */
  class ItemDao {
    var rows: map<int, Item>
    var sequence: int

    function State(): Table
      reads this
    {
      Table(rows, sequence)
    }

    ghost predicate Valid()
      reads this
    {
      TableValid(State())
    }

    /** A DAO over an empty, freshly created table. */
    constructor ()
      ensures Valid() && State() == EmptyTable()
    {
      rows := map[];
      sequence := 0;
    }

    /** `suspend fun insert(item: Item)`. */
    method Insert(item: Item)
      requires Valid()
      modifies this
      ensures Valid()
      ensures State() == InsertRow(old(State()), item)
    {
      if item.id == UnsetId {
        var k := sequence + 1;
        if !IsNaN(item.price) {
          rows := rows[k := item.(id := k)];
        }
        sequence := k;
      } else {
        if !IsNaN(item.price) && item.id !in rows {
          rows := rows[item.id := item];
        }
        if item.id > sequence {
          sequence := item.id;
        }
      }
    }

    /**
     * `suspend fun update(item: Item)`.  `aborted` stands for the constraint exception the
     * call throws when the update is rejected.
     */
    method Update(item: Item) returns (aborted: bool)
      requires Valid()
      modifies this
      ensures Valid()
      ensures aborted == UpdateAborts(old(State()), item)
      ensures State() == UpdateRow(old(State()), item)
    {
      aborted := item.id in rows && IsNaN(item.price);
      if item.id in rows && !aborted {
        rows := rows[item.id := item];
      }
    }

    /** `suspend fun delete(item: Item)`. */
    method Delete(item: Item)
      requires Valid()
      modifies this
      ensures Valid()
      ensures State() == DeleteRow(old(State()), item)
    {
      rows := rows - {item.id};
    }

    /** `SELECT * from items WHERE id = :id`, as a snapshot of the current table. */
    function GetItem(id: int): (r: Option<Item>)
      reads this
      requires Valid()
      ensures r.Some? <==> id in rows
      ensures r.Some? ==> r.value == rows[id] && r.value.id == id
    {
      if id in rows then Some(rows[id]) else None
    }

    /**
     * `SELECT * from items ORDER BY name ASC`, as a snapshot of the current table: every
     * stored row exactly once, sorted by name.
     */
    function GetAllItems(): (r: seq<Item>)
      reads this
      requires Valid()
      ensures SortedByName(r)
      ensures |r| == |rows| && Distinct(r)
      ensures forall k | k in rows :: rows[k] in r
      ensures forall x | x in r :: x.id in rows && rows[x.id] == x
    {
      var byId := RowsById(rows);
      RowsByIdMembers(rows);
      RowsByIdAscending(rows);
      assert Distinct(byId) by {
        forall i, j | 0 <= i < j < |byId| ensures byId[i] != byId[j] {
          assert byId[i].id < byId[j].id;
        }
      }
      SortByNameCorrect(byId);
      SortByName(byId)
    }
  }
}
