/**
 * The items-table row of the single-attachment schema (src/ data/Item.kt):
 * one optional URI per kind of attachment instead of lists.
 */
module LegacyItem {
  import opened Wrappers
  import opened Repository

  datatype Item = Item(
    id: int,        // 0 until the store assigns the key
    title: string,
    descripcion: string,
    isTask: bool,   // the source's `type`: true for a task, false for a note
    status: bool,   // true: finished
    date: string,
    photoUri: Option<string>,
    videoUri: Option<string>,
    audioUri: Option<string>)

  /** `Item(title = ..., descripcion = ..., type = ..., status = ..., date = ...)`
      with the declared defaults for the rest: not yet stored, no attachments. */
  function NewItem(title: string, descripcion: string, isTask: bool, status: bool, date: string): (r: Item)
    ensures r.id == 0 && r.photoUri == None && r.videoUri == None && r.audioUri == None
    ensures r.title == title && r.descripcion == descripcion && r.isTask == isTask
    ensures r.status == status && r.date == date
  {
    Item(0, title, descripcion, isTask, status, date, None, None, None)
  }

  function IdOf(item: Item): int {
    item.id
  }

  function WithId(item: Item, id: int): (r: Item)
    ensures IdOf(r) == id
  {
    item.(id := id)
  }

  /** A well-formed store whose primary key is the item's `id`. */
  ghost predicate IsItemTable(s: Store<Item>)
    reads s
  {
    s.Valid() && s.idOf == IdOf && s.withId == WithId
  }
}
