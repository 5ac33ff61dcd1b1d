/**
 * `OfflineItemsRepository`: the `ItemsRepository` that forwards each call, unchanged,
 * to the DAO it was built with.  It keeps no state of its own.
 */
module Repository {
  import opened Wrappers
  import opened ItemEntity
  import opened Dao

  class OfflineItemsRepository {
    /** `private val itemDao: ItemDao`, the only field. */
    const itemDao: ItemDao

    constructor (itemDao: ItemDao)
      ensures this.itemDao == itemDao
    {
      this.itemDao := itemDao;
    }

    /** `getAllItemsStream()`: the DAO's `getAllItems()` over the current table. */
    function GetAllItemsStream(): (r: seq<Item>)
      reads itemDao
      requires itemDao.Valid()
      ensures r == itemDao.GetAllItems()
      ensures SortedByName(r) && |r| == |itemDao.rows|
    {
      itemDao.GetAllItems()
    }

    /** `getItemStream(id)`: the DAO's `getItem(id)`; `None` (null) when no row has that id. */
    function GetItemStream(id: int): (r: Option<Item>)
      reads itemDao
      requires itemDao.Valid()
      ensures r == itemDao.GetItem(id)
      ensures r == None <==> id !in itemDao.rows
    {
      itemDao.GetItem(id)
    }

    /** `insertItem(item)`: exactly the effect of the DAO's `insert(item)`. */
    method InsertItem(item: Item)
      requires itemDao.Valid()
      modifies itemDao
      ensures itemDao.Valid()
      ensures itemDao.State() == InsertRow(old(itemDao.State()), item)
    {
      itemDao.Insert(item);
    }

    /** `deleteItem(item)`: exactly the effect of the DAO's `delete(item)`. */
    method DeleteItem(item: Item)
      requires itemDao.Valid()
      modifies itemDao
      ensures itemDao.Valid()
      ensures itemDao.State() == DeleteRow(old(itemDao.State()), item)
    {
      itemDao.Delete(item);
    }

    /**
     * `updateItem(item)`: exactly the effect of the DAO's `update(item)`, including the
     * exception it passes on when the update aborts.
     */
    method UpdateItem(item: Item) returns (aborted: bool)
      requires itemDao.Valid()
      modifies itemDao
      ensures itemDao.Valid()
      ensures aborted == UpdateAborts(old(itemDao.State()), item)
      ensures itemDao.State() == UpdateRow(old(itemDao.State()), item)
    {
      aborted := itemDao.Update(item);
    }
  }
}
