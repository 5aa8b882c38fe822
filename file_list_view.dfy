/**
 * The check box of the file list: ticking a row flips the flag of the first
 * file in the manager's list that carries the row's id, in place.
 */
module FileListView {
  import opened Wrappers
  import opened FileItems
  import opened Selections
  import opened ProjectManager

  /** `firstIndex(where: { $0.id == id })`: the first index holding that id, if any. */
  function FirstIndexWithId(items: seq<FileItem>, id: Id): (r: Option<nat>)
    ensures r.Some? ==> r.value < |items| && items[r.value].id == id
    ensures r.Some? ==> forall j :: 0 <= j < r.value ==> items[j].id != id
    ensures r.None? <==> forall j :: 0 <= j < |items| ==> items[j].id != id
    decreases items
  {
    if items == [] then None
    else if items[0].id == id then Some(0)
    else
      match FirstIndexWithId(items[1..], id)
      case None => None
      case Some(k) => Some(k + 1)
  }

  /** The list after `toggleFileCheck`: the first file with the id flipped, or the list itself. */
  function ToggleFirstWithId(items: seq<FileItem>, id: Id): seq<FileItem> {
    match FirstIndexWithId(items, id)
    case None => items
    case Some(k) => items[k := Marked(items[k], Flip)]
  }

  /** `toggleFileCheck(file:)`, acting on the manager's list in place. */
  method ToggleFileCheck(manager: XcodeProjectManager, file: FileItem)
    requires manager.Valid()
    modifies manager
    ensures manager.Valid()
    ensures manager.fileList == ToggleFirstWithId(old(manager.fileList), file.id)
    ensures manager.documentText == old(manager.documentText) && manager.wordCount == old(manager.wordCount)
    ensures manager.selectedSubtypes == old(manager.selectedSubtypes) && manager.nextId == old(manager.nextId)
  {
    var index := FirstIndexWithId(manager.fileList, file.id);
    if index.Some? {
      var k := index.value;
      manager.fileList := manager.fileList[k := manager.fileList[k].(isSelected := !manager.fileList[k].isSelected)];
    }
  }

  /**
   * Only the first file carrying the id changes, and only its flag, which
   * flips; the list keeps its length and every other file.
   */
  lemma OnlyFirstMatchFlips(items: seq<FileItem>, id: Id, k: nat)
    requires k < |items| && items[k].id == id
    requires forall j :: 0 <= j < k ==> items[j].id != id
    ensures var r := ToggleFirstWithId(items, id);
            && |r| == |items|
            && r[k] == items[k].(isSelected := !items[k].isSelected)
            && (forall j :: 0 <= j < |items| && j != k ==> r[j] == items[j])
  {
    assert FirstIndexWithId(items, id) == Some(k);
  }

  /** With no file carrying the id, nothing changes. */
  lemma NoMatchUnchanged(items: seq<FileItem>, id: Id)
    requires forall j :: 0 <= j < |items| ==> items[j].id != id
    ensures ToggleFirstWithId(items, id) == items
  {
  }

  /** Ticking the same row twice restores the list. */
  lemma ToggleTwiceRestores(items: seq<FileItem>, id: Id)
    ensures ToggleFirstWithId(ToggleFirstWithId(items, id), id) == items
  {
    var once := ToggleFirstWithId(items, id);
    match FirstIndexWithId(items, id)
    case None =>
    case Some(k) =>
      OnlyFirstMatchFlips(items, id, k);
      OnlyFirstMatchFlips(once, id, k);
      assert ToggleFirstWithId(once, id) == items;
  }

  /** Ticking a row keeps every id where it was, so the manager's ids stay distinct and issued. */
  lemma ToggleKeepsIds(items: seq<FileItem>, id: Id)
    ensures var r := ToggleFirstWithId(items, id);
            |r| == |items| && forall j :: 0 <= j < |r| ==> r[j].id == items[j].id
  {
  }
}
