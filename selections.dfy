/**
 * The selection rules of the project manager, one file at a time: each
 * whole-list operation sets, clears or flips `isSelected` on the files whose
 * subtype is in a given set and copies every other file unchanged. `selectAll`
 * and `selectNone` instead rebuild every file, which gives each a new id.
 */
module Selections {
  import opened FileItems

  /** What an operation does to the flag of a file it touches. */
  datatype Mark = SetTo(value: bool) | Flip

  /** A file with its flag set or flipped, everything else kept. */
  function Marked(f: FileItem, m: Mark): FileItem {
    f.(isSelected := if m.Flip? then !f.isSelected else m.value)
  }

  /** One step of the `map`: the file marked when its subtype is in `ts`, the file itself otherwise. */
  function MarkIf(f: FileItem, ts: set<SubType>, m: Mark): FileItem {
    if f.subtype in ts then Marked(f, m) else f
  }

  /** The whole `map` over the list. */
  function MarkWhere(items: seq<FileItem>, ts: set<SubType>, m: Mark): (r: seq<FileItem>)
    ensures |r| == |items|
    decreases items
  {
    if items == [] then [] else MarkWhere(items[..|items| - 1], ts, m) + [MarkIf(items[|items| - 1], ts, m)]
  }

  /** The subtypes `toggleViews` acts on. */
  const ViewTypes: set<SubType> := {SwiftUIView, UIViewController}

  /** The subtypes `deselectNonMatching` acts on: those not in `selected`. */
  function NotIn(selected: set<SubType>): (ts: set<SubType>)
    ensures forall t :: t in ts <==> t !in selected
  {
    forall t ensures t in AllSubTypes { InAllSubTypes(t); }
    AllSubTypes - selected
  }

  /**
   * Only the files whose subtype is in `ts` change, and of those only the
   * flag: it becomes the mark's value, or its negation for a flip. Every file
   * keeps its id, name, content and subtype, and the list keeps its length.
   */
  lemma {:induction false} MarkWhereAt(items: seq<FileItem>, ts: set<SubType>, m: Mark)
    ensures var r := MarkWhere(items, ts, m);
            && |r| == |items|
            && (forall i :: 0 <= i < |r| ==> items[i].subtype !in ts ==> r[i] == items[i])
            && (forall i :: 0 <= i < |r| ==> items[i].subtype in ts ==>
                  r[i].isSelected == (if m.Flip? then !items[i].isSelected else m.value))
            && (forall i :: 0 <= i < |r| ==>
                  r[i].id == items[i].id && r[i].name == items[i].name
                  && r[i].content == items[i].content && r[i].subtype == items[i].subtype)
    decreases items
  {
    if items != [] {
      var front := items[..|items| - 1];
      MarkWhereAt(front, ts, m);
      var r := MarkWhere(items, ts, m);
      assert r == MarkWhere(front, ts, m) + [MarkIf(items[|items| - 1], ts, m)];
      assert forall i :: 0 <= i < |front| ==> r[i] == MarkWhere(front, ts, m)[i] && items[i] == front[i];
    }
  }

  /** The one file at index `i` of the result. */
  lemma MarkWhereIndex(items: seq<FileItem>, ts: set<SubType>, m: Mark, i: nat)
    requires i < |items|
    ensures MarkWhere(items, ts, m)[i] == MarkIf(items[i], ts, m)
  {
    MarkWhereAt(items, ts, m);
  }

  /** Flipping the same files twice restores the list: `toggle` and `toggleViews` are involutions. */
  lemma FlipTwice(items: seq<FileItem>, ts: set<SubType>)
    ensures MarkWhere(MarkWhere(items, ts, Flip), ts, Flip) == items
  {
    var once := MarkWhere(items, ts, Flip);
    var twice := MarkWhere(once, ts, Flip);
    forall i | 0 <= i < |items|
      ensures twice[i] == items[i]
    {
      MarkWhereIndex(items, ts, Flip, i);
      MarkWhereIndex(once, ts, Flip, i);
    }
  }

  /** Setting the same files to the same value twice is the same as once. */
  lemma SetTwice(items: seq<FileItem>, ts: set<SubType>, b: bool)
    ensures MarkWhere(MarkWhere(items, ts, SetTo(b)), ts, SetTo(b)) == MarkWhere(items, ts, SetTo(b))
  {
    var once := MarkWhere(items, ts, SetTo(b));
    var twice := MarkWhere(once, ts, SetTo(b));
    forall i | 0 <= i < |items|
      ensures twice[i] == once[i]
    {
      MarkWhereIndex(items, ts, SetTo(b), i);
      MarkWhereIndex(once, ts, SetTo(b), i);
    }
  }

  /**
   * After `deselectNonMatching` every selected file has a subtype in
   * `selected`, and the files whose subtype is in `selected` are untouched.
   */
  lemma DeselectNonMatchingSound(items: seq<FileItem>, selected: set<SubType>)
    ensures var r := MarkWhere(items, NotIn(selected), SetTo(false));
            && (forall i :: 0 <= i < |r| ==> r[i].isSelected ==> r[i].subtype in selected)
            && (forall i :: 0 <= i < |r| ==> items[i].subtype in selected ==> r[i] == items[i])
  {
    MarkWhereAt(items, NotIn(selected), SetTo(false));
  }

  /** No selection operation changes which subtypes occur in the list. */
  lemma MarkWhereKeepsSubtypes(items: seq<FileItem>, ts: set<SubType>, m: Mark)
    ensures SubtypesOf(MarkWhere(items, ts, m)) == SubtypesOf(items)
  {
    var r := MarkWhere(items, ts, m);
    MarkWhereAt(items, ts, m);
    SubtypesOfIff(items);
    SubtypesOfIff(r);
  }

  /** Marking never changes which file is where: ids stay at their indices. */
  lemma MarkWhereKeepsIds(items: seq<FileItem>, ts: set<SubType>, m: Mark, i: nat)
    requires i < |items|
    ensures MarkWhere(items, ts, m)[i].id == items[i].id
  {
    MarkWhereAt(items, ts, m);
  }

  // ----- selectAll and selectNone -----

  /** `FileItem(name:content:isSelected:subtype:)` for every file, the ids drawn from `firstId` upwards. */
  function Rebuilt(items: seq<FileItem>, b: bool, firstId: Id): (r: seq<FileItem>)
    ensures |r| == |items|
    decreases items
  {
    if items == [] then []
    else
      var last := items[|items| - 1];
      Rebuilt(items[..|items| - 1], b, firstId) + [FileItem(firstId + |items| - 1, last.name, last.content, b, last.subtype)]
  }

  /**
   * Rebuilding keeps every name, content and subtype at its index and sets
   * every flag to `b`; the ids are new, `firstId + i` at index `i`, so they
   * are pairwise distinct.
   */
  lemma {:induction false} RebuiltAt(items: seq<FileItem>, b: bool, firstId: Id)
    ensures var r := Rebuilt(items, b, firstId);
            && (forall i :: 0 <= i < |r| ==>
                  r[i].isSelected == b && r[i].id == firstId + i && r[i].name == items[i].name
                  && r[i].content == items[i].content && r[i].subtype == items[i].subtype)
            && (forall i, j :: 0 <= i < j < |r| ==> r[i].id != r[j].id)
    decreases items
  {
    if items != [] {
      var front := items[..|items| - 1];
      RebuiltAt(front, b, firstId);
      var r := Rebuilt(items, b, firstId);
      assert forall i :: 0 <= i < |front| ==> r[i] == Rebuilt(front, b, firstId)[i] && items[i] == front[i];
    }
  }

  /** Apart from the ids, a rebuild is the same as setting the flag of every file. */
  lemma RebuiltIsSetAll(items: seq<FileItem>, b: bool, firstId: Id)
    ensures var r := Rebuilt(items, b, firstId);
            forall i :: 0 <= i < |r| ==> r[i] == MarkWhere(items, AllSubTypes, SetTo(b))[i].(id := firstId + i)
  {
    RebuiltAt(items, b, firstId);
    forall i | 0 <= i < |items|
      ensures Rebuilt(items, b, firstId)[i] == MarkWhere(items, AllSubTypes, SetTo(b))[i].(id := firstId + i)
    {
      InAllSubTypes(items[i].subtype);
      MarkWhereIndex(items, AllSubTypes, SetTo(b), i);
    }
  }
}
