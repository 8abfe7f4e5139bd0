/**
 * The row of the items table in the list-of-attachments schema used by the
 * view models under app/.  Its declaring file is not part of this model; the
 * fields are those that `ItemDetails.toItem()` fills.
 */
module Items {
  import opened Repository

  datatype Item = Item(
    id: int,
    title: string,
    descripcion: string,
    isTask: bool,   // the source's `type`: true for a task, false for a note
    status: bool,   // true: finished
    date: string,
    photoUris: seq<string>,
    videoUris: seq<string>,
    audioUris: seq<string>)

  function IdOf(item: Item): int {
    item.id
  }

  function WithId(item: Item, id: int): (r: Item)
    ensures IdOf(r) == id
  {
    item.(id := id)
  }

  /** A well-formed store whose primary key is the item's `id`. */
  ghost predicate IsItemTable(s: Store<Item>)
    reads s
  {
    s.Valid() && s.idOf == IdOf && s.withId == WithId
  }
}
