/**
 * The item-entry screen's state holder: the text the user has typed, whether it is
 * acceptable, and the save action that turns it into an `Item` and inserts it.
 *
 * Parsing a price with `String.toDoubleOrNull()` and printing one with
 * `Double.toString()` are JVM routines the model does not define; they are passed in
 * as functions.
 */
module ItemEntry {
  import opened Wrappers
  import opened KotlinText
  import opened ItemEntity
  import opened Dao
  import opened Repository

  /** `data class ItemDetails`: every field as the text the user typed. */
  datatype ItemDetails = ItemDetails(id: int := 0, name: string := "", price: string := "", quantity: string := "")

  /** `data class ItemUiState`. */
  datatype ItemUiState = ItemUiState(itemDetails: ItemDetails := ItemDetails(), isEntryValid: bool := false)

  /** The state the screen starts in: all text empty, id 0, entry not valid. */
  lemma InitialUiState()
    ensures ItemUiState().itemDetails == ItemDetails(0, "", "", "")
    ensures !ItemUiState().isEntryValid
    ensures !ValidateInput(ItemUiState().itemDetails)
  {
  }

  /**
   * `validateInput`: name, price and quantity are each non-blank.  Whether price and
   * quantity are numbers is not looked at.
   */
  predicate ValidateInput(d: ItemDetails)
    ensures ValidateInput(d) ==> |d.name| > 0 && |d.price| > 0 && |d.quantity| > 0
  {
    IsNotBlank(d.name) && IsNotBlank(d.price) && IsNotBlank(d.quantity)
  }

  /** Each of the three text fields decides validity on its own; the id plays no part. */
  lemma ValidateInputMeaning(d: ItemDetails)
    ensures ValidateInput(d) <==>
      && (exists i :: 0 <= i < |d.name| && !IsWhitespace(d.name[i]))
      && (exists i :: 0 <= i < |d.price| && !IsWhitespace(d.price[i]))
      && (exists i :: 0 <= i < |d.quantity| && !IsWhitespace(d.quantity[i]))
    ensures ValidateInput(d) == ValidateInput(d.(id := 0))
  {
  }

  /** Text that is not a number still passes validation: `"abc"` as a quantity is accepted. */
  lemma ValidateIgnoresNumberFormat()
    ensures ValidateInput(ItemDetails(name := "Pen", price := "x", quantity := "abc"))
    ensures ToItem(ItemDetails(name := "Pen", price := "x", quantity := "abc"), _ => None).quantity == 0
  {
    var d := ItemDetails(name := "Pen", price := "x", quantity := "abc");
    assert !IsWhitespace(d.name[0]) && !IsWhitespace(d.price[0]) && !IsWhitespace(d.quantity[0]);
    ParseIntRejectsNonLiterals();
  }

  /**
   * `ItemDetails.toItem()`: id and name are copied, the price is parsed (0.0 when it is
   * not a number) and the quantity is `toIntOrNull()` of the text, 0 when that is null.
   */
  function ToItem(d: ItemDetails, parseDouble: string -> Option<Double>): (it: Item)
    ensures it.id == d.id && it.name == d.name
    ensures it.quantity == (if IsIntLiteral(d.quantity) && MinInt <= LiteralValue(d.quantity) <= MaxInt
                            then LiteralValue(d.quantity) else 0)
    ensures it.price == (if parseDouble(d.price).Some? then parseDouble(d.price).value else Zero)
  {
    Item(
      id := d.id,
      name := d.name,
      price := match parseDouble(d.price) case Some(p) => p case None => Zero,
      quantity := match ParseInt(d.quantity) case Some(q) => q case None => 0)
  }

  /** `Item.toItemDetails()`: id and name copied, price and quantity printed as text. */
  function ToItemDetails(it: Item, showDouble: Double -> string): (d: ItemDetails)
    ensures d.id == it.id && d.name == it.name && d.price == showDouble(it.price)
    ensures ParseInt(d.quantity) == Some(it.quantity)
    ensures IsNotBlank(d.quantity)
  {
    ParseFormatRoundTrip(it.quantity);
    FormatIntNotBlank(it.quantity);
    ItemDetails(id := it.id, name := it.name, price := showDouble(it.price), quantity := FormatInt(it.quantity))
  }

  /** `Item.toItemUiState(isEntryValid = false)`. */
  function ToItemUiState(it: Item, showDouble: Double -> string, isEntryValid: bool := false): (u: ItemUiState)
    ensures u.itemDetails == ToItemDetails(it, showDouble) && u.isEntryValid == isEntryValid
  {
    ItemUiState(itemDetails := ToItemDetails(it, showDouble), isEntryValid := isEntryValid)
  }

  /** The flag defaults to false. */
  lemma ToItemUiStateDefault(it: Item, showDouble: Double -> string)
    ensures !ToItemUiState(it, showDouble).isEntryValid
  {
  }

  /** `it.toItemDetails().toItem()` keeps id, name and quantity, whatever the price routines do. */
  lemma RoundTrip(it: Item, showDouble: Double -> string, parseDouble: string -> Option<Double>)
    ensures var back := ToItem(ToItemDetails(it, showDouble), parseDouble);
      back.id == it.id && back.name == it.name && back.quantity == it.quantity
  {
  }

  /** When the price parser reads back what the printer wrote, the round trip gives the item itself. */
  lemma RoundTripExact(it: Item, showDouble: Double -> string, parseDouble: string -> Option<Double>)
    requires parseDouble(showDouble(it.price)) == Some(it.price)
    ensures ToItem(ToItemDetails(it, showDouble), parseDouble) == it
  {
  }

  /** The details of a stored item pass validation when its name and printed price are not blank. */
  lemma ItemDetailsOfItemValidate(it: Item, showDouble: Double -> string)
    requires IsNotBlank(it.name) && IsNotBlank(showDouble(it.price))
    ensures ValidateInput(ToItemDetails(it, showDouble))
  {
  }

  /** `class ItemEntryViewModel(private val itemsRepository: ItemsRepository)`. */
  class ItemEntryViewModel {
    const itemsRepository: OfflineItemsRepository
    /** `String.toDoubleOrNull()` as the JVM defines it. */
    const parseDouble: string -> Option<Double>
    var itemUiState: ItemUiState

    /** `isEntryValid` always agrees with the details it describes. */
    ghost predicate EntryFlagAgrees()
      reads this
    {
      itemUiState.isEntryValid == ValidateInput(itemUiState.itemDetails)
    }

    constructor (itemsRepository: OfflineItemsRepository, parseDouble: string -> Option<Double>)
      ensures this.itemsRepository == itemsRepository && this.parseDouble == parseDouble
      ensures itemUiState == ItemUiState()
      ensures EntryFlagAgrees()
    {
      this.itemsRepository := itemsRepository;
      this.parseDouble := parseDouble;
      itemUiState := ItemUiState();
    }

    /** `updateUiState(itemDetails)`: store the details and recompute `isEntryValid`. */
    method UpdateUiState(itemDetails: ItemDetails)
      modifies this`itemUiState
      ensures itemUiState.itemDetails == itemDetails
      ensures itemUiState.isEntryValid == ValidateInput(itemDetails)
      ensures EntryFlagAgrees()
    {
      itemUiState := ItemUiState(itemDetails := itemDetails, isEntryValid := ValidateInput(itemDetails));
    }

    /**
     * `saveItem()`: insert `toItem()` of the current details through the repository when
     * they validate; the table is untouched otherwise.  The UI state does not change.
     */
    method SaveItem()
      requires itemsRepository.itemDao.Valid()
      modifies itemsRepository.itemDao
      ensures itemsRepository.itemDao.Valid()
      ensures itemsRepository.itemDao.State() ==
        if ValidateInput(itemUiState.itemDetails)
        then InsertRow(old(itemsRepository.itemDao.State()), ToItem(itemUiState.itemDetails, parseDouble))
        else old(itemsRepository.itemDao.State())
      ensures itemUiState == old(itemUiState)
    {
      if ValidateInput(itemUiState.itemDetails) {
        itemsRepository.InsertItem(ToItem(itemUiState.itemDetails, parseDouble));
      }
    }
  }
}
