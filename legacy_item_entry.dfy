/**
 * The older entry view model (src/ ItemEntryViewModel.kt): a single-URI
 * draft, a title-and-description validity rule, and a save that fills in or
 * normalises the date.  The clock and `SimpleDateFormat` are parameters:
 * `now` is the current date formatted as "dd MMM yyyy, HH:mm", and
 * `reformat(s)` is the parse of `s` in that pattern formatted again, or None
 * when the parse throws or yields null.
 */
module LegacyItemEntry {
  import opened Wrappers
  import opened Text
  import opened Repository
  import opened LegacyItem

  datatype ItemDetails = ItemDetails(
    id: int,
    title: string,
    isTask: bool,
    status: bool,
    descripcion: string,
    date: string,
    photoUri: Option<string>,
    videoUri: Option<string>,
    audioUri: Option<string>)

  datatype ItemUiState = ItemUiState(itemDetails: ItemDetails, isEntryValid: bool)

  const DefaultItemDetails := ItemDetails(0, "", true, false, "", "", None, None, None)

  predicate ValidateInput(d: ItemDetails): (b: bool)
    ensures b <==> (exists i :: 0 <= i < |d.title| && !IsWhitespace(d.title[i]))
                   && (exists i :: 0 <= i < |d.descripcion| && !IsWhitespace(d.descripcion[i]))
  {
    IsNotBlank(d.title) && IsNotBlank(d.descripcion)
  }

  /** `ItemDetails.toItem()`: every field of the row is the draft's own. */
  function ToItem(d: ItemDetails): (r: Item)
    ensures r.id == d.id && r.title == d.title && r.descripcion == d.descripcion && r.date == d.date
    ensures r.isTask == d.isTask && r.status == d.status
    ensures r.photoUri == d.photoUri && r.videoUri == d.videoUri && r.audioUri == d.audioUri
  {
    Item(d.id, d.title, d.descripcion, d.isTask, d.status, d.date, d.photoUri, d.videoUri, d.audioUri)
  }

  /** `Item.toItemDetails()`, which `toItem()` undoes. */
  function ToItemDetails(item: Item): (d: ItemDetails)
    ensures ToItem(d) == item
  {
    ItemDetails(item.id, item.title, item.isTask, item.status, item.descripcion, item.date,
                item.photoUri, item.videoUri, item.audioUri)
  }

  /** `Item.toItemUiState(isEntryValid)`: the item as a draft, with the given flag. */
  function ToItemUiState(item: Item, isEntryValid: bool): (s: ItemUiState)
    ensures ToItem(s.itemDetails) == item && s.isEntryValid == isEntryValid
  {
    ItemUiState(ToItemDetails(item), isEntryValid)
  }

  /** In this schema the draft also survives the trip through the table. */
  lemma DraftRoundTrip(d: ItemDetails)
    ensures ToItemDetails(ToItem(d)) == d
  {
  }

  /** `validateAndFormatDate`: the reformatted date, or the current one when
      the string does not parse. */
  function ValidateAndFormatDate(dateString: string, now: string, reformat: string -> Option<string>): (r: string)
    ensures reformat(dateString).Some? ==> r == reformat(dateString).value
    ensures reformat(dateString).None? ==> r == now
  {
    match reformat(dateString)
    case Some(formatted) => formatted
    case None => now
  }

  /** The date `saveItem` stores: the current date for a blank draft date,
      otherwise the draft date normalised, falling back to the current date. */
  function SavedDate(date: string, now: string, reformat: string -> Option<string>): (r: string)
    ensures IsBlank(date) ==> r == now
    ensures r == now || (IsNotBlank(date) && reformat(date) == Some(r))
    ensures IsNotBlank(date) && reformat(date).Some? ==> r == reformat(date).value
  {
    if IsBlank(date) then now else ValidateAndFormatDate(date, now, reformat)
  }

  class ItemEntryViewModel {
    const itemsRepository: Store<Item>
    var itemUiState: ItemUiState

    /** The flag always describes the current draft. */
    ghost predicate FlagIsCurrent()
      reads this
    {
      itemUiState.isEntryValid == ValidateInput(itemUiState.itemDetails)
    }

    constructor (itemsRepository: Store<Item>)
      ensures this.itemsRepository == itemsRepository
      ensures itemUiState == ItemUiState(DefaultItemDetails, false) && FlagIsCurrent()
    {
      this.itemsRepository := itemsRepository;
      itemUiState := ItemUiState(DefaultItemDetails, false);
    }

    /** `updateUiState`: the draft becomes `itemDetails`, flagged by the rule. */
    method UpdateUiState(itemDetails: ItemDetails)
      modifies this`itemUiState
      ensures itemUiState == ItemUiState(itemDetails, ValidateInput(itemDetails))
      ensures FlagIsCurrent()
    {
      itemUiState := ItemUiState(itemDetails, ValidateInput(itemDetails));
    }

    /** `saveItem`: validates the current draft again; when it passes, inserts
        it with its date replaced by `SavedDate`, otherwise inserts nothing.
        The UI state is not changed. */
    method SaveItem(now: string, reformat: string -> Option<string>)
      requires IsItemTable(itemsRepository)
      modifies itemsRepository
      ensures IsItemTable(itemsRepository)
      ensures var d := itemUiState.itemDetails;
        if ValidateInput(d) then
          itemsRepository.Inserted(old(itemsRepository.rows), old(itemsRepository.lastId),
                                   ToItem(d).(date := SavedDate(d.date, now, reformat)))
        else
          itemsRepository.rows == old(itemsRepository.rows) && itemsRepository.lastId == old(itemsRepository.lastId)
    {
      if ValidateInput(itemUiState.itemDetails) {
        var d := itemUiState.itemDetails;
        var date := if IsBlank(d.date) then now else ValidateAndFormatDate(d.date, now, reformat);
        var updatedItemDetails := d.(date := date);
        var newItem := ToItem(updatedItemDetails);
        var _ := itemsRepository.Insert(newItem);
      }
    }
  }
}
