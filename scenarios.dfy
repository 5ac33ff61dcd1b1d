/**
 * Client code that uses only the contracts of the DAO and the view-model, as the
 * screens do: the sequences of calls the store is expected to handle.
 */
module Scenarios {
  import opened Wrappers
  import opened KotlinText
  import opened ItemEntity
  import opened Dao
  import opened Repository
  import opened ItemEntry

  /** A duplicate id is ignored, an id of 0 is generated, and a delete by id removes the row. */
  method InsertIgnoreAndGenerate(price: Double)
    requires !IsNaN(price)
  {
    var dao := new ItemDao();
    dao.Insert(Item(1, "Pen", price, 30));
    assert dao.sequence == 1;
    dao.Insert(Item(2, "TV", price, 50));
    assert dao.sequence == 2 && dao.rows.Keys == {1, 2};
    dao.Insert(Item(1, "Duplicate", price, 0));
    assert dao.GetItem(1) == Some(Item(1, "Pen", price, 30));
    assert |dao.GetAllItems()| == 2;
    dao.Insert(Item(name := "Game", price := price, quantity := 20));
    assert dao.GetItem(3) == Some(Item(3, "Game", price, 20));
    dao.Delete(Item(3, "", price, 0));
    assert dao.GetItem(3) == None;
  }

  /** A row dropped for its NaN price still uses up the id it was given. */
  method InsertAfterSkippedNaN(price: Double)
    requires !IsNaN(price)
  {
    var dao := new ItemDao();
    NaNPatterns();
    dao.Insert(Item(name := "Lost", price := Double(0x7FF8_0000_0000_0000), quantity := 1));
    assert dao.rows == map[] && dao.sequence == 1;
    dao.Insert(Item(name := "Kept", price := price, quantity := 1));
    assert dao.GetItem(1) == None;
    assert dao.GetItem(2) == Some(Item(2, "Kept", price, 1));
  }

  /** An update replaces the row with the same id; one for a missing id changes nothing. */
  method UpdateById(before: Double, after: Double)
    requires !IsNaN(before) && !IsNaN(after)
  {
    var dao := new ItemDao();
    var repository := new OfflineItemsRepository(dao);
    repository.InsertItem(Item(5, "Bolt", before, 100));
    var aborted := repository.UpdateItem(Item(5, "Bolt", after, 90));
    assert !aborted;
    assert repository.GetItemStream(5) == Some(Item(5, "Bolt", after, 90));
    aborted := repository.UpdateItem(Item(6, "Nut", after, 1));
    assert !aborted && repository.GetItemStream(6) == None;
    aborted := repository.UpdateItem(Item(5, "Bolt", Double(0x7FF8_0000_0000_0000), 0));
    assert aborted && repository.GetItemStream(5) == Some(Item(5, "Bolt", after, 90));
  }

  /** Saving from the entry screen stores nothing until every field is filled in. */
  method SaveFromEntryScreen(parseDouble: string -> Option<Double>)
    requires parseDouble("100.0") == Some(Double(0x4059_0000_0000_0000))
  {
    var dao := new ItemDao();
    var repository := new OfflineItemsRepository(dao);
    var entry := new ItemEntryViewModel(repository, parseDouble);
    entry.SaveItem();
    assert dao.rows == map[];
    var d := ItemDetails(name := "Game", price := "100.0", quantity := "20");
    entry.UpdateUiState(d);
    assert !IsWhitespace(d.name[0]) && !IsWhitespace(d.price[0]) && !IsWhitespace(d.quantity[0]);
    assert entry.itemUiState.isEntryValid;
    entry.SaveItem();
    assert dao.GetItem(1).Some?;
    assert dao.GetItem(1).value.name == "Game";
  }

  /** A price of NaN, which `"NaN".toDoubleOrNull()` yields, is saved as nothing at all. */
  method SaveNaNPrice(parseDouble: string -> Option<Double>)
    requires parseDouble("NaN") == Some(Double(0x7FF8_0000_0000_0000))
  {
    var dao := new ItemDao();
    var repository := new OfflineItemsRepository(dao);
    var entry := new ItemEntryViewModel(repository, parseDouble);
    var d := ItemDetails(name := "Game", price := "NaN", quantity := "20");
    entry.UpdateUiState(d);
    assert !IsWhitespace(d.name[0]) && !IsWhitespace(d.price[0]) && !IsWhitespace(d.quantity[0]);
    NaNPatterns();
    entry.SaveItem();
    assert dao.rows == map[];
  }
}
