/**
 * The project manager object: the generated document text and its word
 * count, the list of source files with their selection flags, and the set of
 * subtypes the user has chosen. Every method changes these fields in place.
 * The fresh `UUID()` each new file receives is modelled by a counter,
 * `nextId`, that hands out ids no file in the list carries yet.
 */
module ProjectManager {
  import opened Wrappers
  import opened Strings
  import opened FileItems
  import opened Selections

  /** A source file of a target as the generator reads it: its path, when it has one, and its text. */
  datatype SourceFile = SourceFile(path: Option<string>, content: string)

  /** `source.path ?? "Unnamed"`. */
  function NameOf(path: Option<string>): string {
    if path.Some? then path.value else "Unnamed"
  }

  /** The item the generator makes for one source file, carrying id `id`. */
  function Loaded(source: SourceFile, id: Id): FileItem {
    var name := NameOf(source.path);
    FileItem(id, name, source.content, true, DetermineSubType(name, source.content))
  }

  /** The items made for a list of source files, the ids drawn from `firstId` upwards. */
  function LoadedAll(sources: seq<SourceFile>, firstId: Id): (r: seq<FileItem>)
    ensures |r| == |sources|
    decreases sources
  {
    if sources == [] then []
    else LoadedAll(sources[..|sources| - 1], firstId) + [Loaded(sources[|sources| - 1], firstId + |sources| - 1)]
  }

  /**
   * The i-th loaded item is made from the i-th source file: it is selected,
   * carries id `firstId + i`, is named by the file's path (or `Unnamed`), holds
   * the file's content and is classified by that content.
   */
  lemma {:induction false} LoadedAllAt(sources: seq<SourceFile>, firstId: Id)
    ensures var r := LoadedAll(sources, firstId);
            forall i :: 0 <= i < |r| ==> r[i] == Loaded(sources[i], firstId + i)
    ensures var r := LoadedAll(sources, firstId);
            forall i :: 0 <= i < |r| ==>
              && r[i].isSelected && r[i].id == firstId + i
              && r[i].name == NameOf(sources[i].path) && r[i].content == sources[i].content
              && r[i].subtype == DetermineSubType(NameOf(sources[i].path), sources[i].content)
    decreases sources
  {
    if sources != [] {
      var front := sources[..|sources| - 1];
      LoadedAllAt(front, firstId);
      var r := LoadedAll(sources, firstId);
      assert forall i :: 0 <= i < |front| ==> r[i] == LoadedAll(front, firstId)[i] && sources[i] == front[i];
    }
  }

  /** One more source file read: one more item at the end. */
  lemma LoadedAllSnoc(sources: seq<SourceFile>, i: nat, firstId: Id)
    requires i < |sources|
    ensures LoadedAll(sources[..i + 1], firstId) == LoadedAll(sources[..i], firstId) + [Loaded(sources[i], firstId + i)]
  {
    assert sources[..i + 1][..i] == sources[..i];
  }

  /**
   * The text the generator builds is the selected documentation of the items
   * it loads: the entry of every source file, in order, since they are all
   * selected.
   */
  lemma {:induction false} LoadedDocumentation(sources: seq<SourceFile>, firstId: Id)
    ensures Documentation(LoadedAll(sources, firstId)) == Concat(Entries(LoadedAll(sources, firstId)))
    decreases sources
  {
    var r := LoadedAll(sources, firstId);
    if sources != [] {
      var front := sources[..|sources| - 1];
      var f := Loaded(sources[|sources| - 1], firstId + |sources| - 1);
      LoadedDocumentation(front, firstId);
      DocumentationSnoc(LoadedAll(front, firstId), f);
      assert Entries(r) == Entries(LoadedAll(front, firstId)) + [Entry(f)];
      ConcatSnoc(Entries(LoadedAll(front, firstId)), Entry(f));
    }
  }

  /** The generator's text is empty exactly when it read no source file. */
  lemma GeneratedEmptyIff(sources: seq<SourceFile>, firstId: Id)
    ensures Documentation(LoadedAll(sources, firstId)) == "" <==> sources == []
  {
    var r := LoadedAll(sources, firstId);
    DocumentationEmptyIff(r);
    if sources != [] {
      LoadedAllAt(sources, firstId);
      assert r[0].isSelected;
    }
  }

  /** After `selectNone` the selected documentation is empty. */
  lemma NothingSelectedAfterSelectNone(items: seq<FileItem>, firstId: Id)
    ensures Documentation(Rebuilt(items, false, firstId)) == ""
  {
    RebuiltAt(items, false, firstId);
    DocumentationEmptyIff(Rebuilt(items, false, firstId));
  }

  /** One more entry at the end of the text, written out as the generator writes it. */
  lemma EntryAppended(items: seq<FileItem>, f: FileItem, text: string, entry: string)
    requires text == Concat(Entries(items))
    requires entry == "\n" + f.name + "\n" + f.content + "\n"
    ensures text + entry == Concat(Entries(items + [f]))
  {
    assert Entries(items + [f]) == Entries(items) + [Entry(f)];
    ConcatSnoc(Entries(items), Entry(f));
  }

  /** Every id in `items` is below `bound`: ids from `bound` on are still fresh. */
  predicate IdsBelow(items: seq<FileItem>, bound: Id) {
    forall i :: 0 <= i < |items| ==> items[i].id < bound
  }

  /** No two items share an id. */
  predicate IdsDistinct(items: seq<FileItem>) {
    forall i, j :: 0 <= i < j < |items| ==> items[i].id != items[j].id
  }

  /** Appending loaded items keeps the ids distinct and below the advanced counter. */
  lemma AppendLoadedKeepsIds(items: seq<FileItem>, sources: seq<SourceFile>, firstId: Id)
    requires IdsBelow(items, firstId) && IdsDistinct(items)
    ensures IdsBelow(items + LoadedAll(sources, firstId), firstId + |sources|)
    ensures IdsDistinct(items + LoadedAll(sources, firstId))
  {
    LoadedAllAt(sources, firstId);
    var r := items + LoadedAll(sources, firstId);
    assert forall i :: |items| <= i < |r| ==> r[i].id == firstId + (i - |items|);
  }

  /**
   * The loop of `generateDocumentation` over the files it has read: one new
   * selected item per file, ids from `firstId` on, and the text made of their
   * entries, which is the selected documentation of those items.
   */
  method ReadSources(sources: seq<SourceFile>, firstId: Id) returns (loaded: seq<FileItem>, documentation: string)
    ensures loaded == LoadedAll(sources, firstId)
    ensures documentation == Documentation(loaded)
  {
    loaded := [];
    documentation := "";
    var i := 0;
    while i < |sources|
      invariant 0 <= i <= |sources|
      invariant loaded == LoadedAll(sources[..i], firstId)
      invariant documentation == Concat(Entries(loaded))
    {
      var source := sources[i];
      var name := NameOf(source.path);
      var subType := DetermineSubType(name, source.content);
      var fileItem := FileItem(firstId + i, name, source.content, true, subType);
      var entry := "\n" + fileItem.name + "\n" + source.content + "\n";
      assert fileItem == Loaded(sources[i], firstId + i);
      LoadedAllSnoc(sources, i, firstId);
      EntryAppended(loaded, fileItem, documentation, entry);
      loaded := loaded + [fileItem];
      documentation := documentation + entry;
      i := i + 1;
    }
    assert sources[..i] == sources;
    LoadedDocumentation(sources, firstId);
  }

  /** The closure of the selection `map`s applied to every file in turn: marks the files whose subtype is in `ts`. */
  method MarkEach(files: seq<FileItem>, ts: set<SubType>, m: Mark) returns (updated: seq<FileItem>)
    ensures updated == MarkWhere(files, ts, m)
  {
    updated := [];
    var i := 0;
    while i < |files|
      invariant 0 <= i <= |files|
      invariant updated == MarkWhere(files[..i], ts, m)
    {
      var updatedFile := files[i];
      if files[i].subtype in ts {
        match m {
          case Flip => updatedFile := updatedFile.(isSelected := !updatedFile.isSelected);
          case SetTo(b) => updatedFile := updatedFile.(isSelected := b);
        }
      }
      assert files[..i + 1][..i] == files[..i];
      updated := updated + [updatedFile];
      i := i + 1;
    }
    assert files[..i] == files;
  }

  /** The `map` of `selectAll` and `selectNone` applied to every file in turn: a new item per file. */
  method RebuildEach(files: seq<FileItem>, b: bool, firstId: Id) returns (updated: seq<FileItem>)
    ensures updated == Rebuilt(files, b, firstId)
  {
    updated := [];
    var i := 0;
    while i < |files|
      invariant 0 <= i <= |files|
      invariant updated == Rebuilt(files[..i], b, firstId)
    {
      var file := files[i];
      assert files[..i + 1][..i] == files[..i];
      updated := updated + [FileItem(firstId + i, file.name, file.content, b, file.subtype)];
      i := i + 1;
    }
    assert files[..i] == files;
  }

  class XcodeProjectManager {
    var documentText: string
    var wordCount: nat
    var fileList: seq<FileItem>
    var selectedSubtypes: set<SubType>
    /** The next fresh id; stands for `UUID()`. */
    var nextId: Id

    /** The word count follows the text, and the ids are distinct and all issued already. */
    ghost predicate Valid()
      reads this
    {
      && wordCount == WordCount(documentText)
      && IdsBelow(fileList, nextId)
      && IdsDistinct(fileList)
    }

    constructor()
      ensures Valid()
      ensures documentText == "" && wordCount == 0 && fileList == [] && selectedSubtypes == {}
    {
      documentText := "";
      wordCount := 0;
      fileList := [];
      selectedSubtypes := {};
      nextId := 0;
      WordCountOfSpaces("");
    }

    /** `uniqueSubTypesInFileItems`: exactly the subtypes some file in the list has. */
    function UniqueSubTypesInFileItems(): (ts: set<SubType>)
      reads this
      ensures forall t :: t in ts <==> exists i :: 0 <= i < |fileList| && fileList[i].subtype == t
    {
      SubtypesOfIff(fileList);
      SubtypesOf(fileList)
    }

    /** Assigning `documentText`; its `didSet` observer recounts the words. */
    method SetDocumentText(text: string)
      modifies this
      ensures documentText == text && wordCount == WordCount(text)
      ensures fileList == old(fileList) && selectedSubtypes == old(selectedSubtypes) && nextId == old(nextId)
    {
      documentText := text;
      wordCount := WordCount(documentText);
    }

    /**
     * The body of `generateDocumentation` once the target's source files have
     * been read: each file is appended to the list, selected, with its
     * subtype, and the document text becomes the entries of these files in
     * order. The list is not reset first, so earlier files stay in it.
     */
    method GenerateDocumentation(sources: seq<SourceFile>)
      requires Valid()
      modifies this
      ensures Valid()
      ensures fileList == old(fileList) + LoadedAll(sources, old(nextId))
      ensures nextId == old(nextId) + |sources|
      ensures documentText == Documentation(LoadedAll(sources, old(nextId)))
      ensures selectedSubtypes == old(selectedSubtypes)
    {
      var firstId := nextId;
      var loaded, documentation := ReadSources(sources, firstId);
      AppendLoadedKeepsIds(fileList, sources, firstId);
      fileList := fileList + loaded;
      nextId := firstId + |sources|;
      SetDocumentText(documentation);
    }

    /** `generateSelectedDocumentation`: the entries of the selected files, in order; the list is unchanged. */
    method GenerateSelectedDocumentation()
      requires Valid()
      modifies this
      ensures Valid()
      ensures documentText == Documentation(fileList)
      ensures fileList == old(fileList) && selectedSubtypes == old(selectedSubtypes) && nextId == old(nextId)
    {
      var documentation := Documentation(fileList);
      SetDocumentText(documentation);
    }

    /** The `map` shared by the selection methods: mark the files whose subtype is in `ts`, copy the rest. */
    method MarkFiles(ts: set<SubType>, m: Mark)
      requires Valid()
      modifies this
      ensures Valid()
      ensures fileList == MarkWhere(old(fileList), ts, m)
      ensures documentText == old(documentText) && wordCount == old(wordCount)
      ensures selectedSubtypes == old(selectedSubtypes) && nextId == old(nextId)
    {
      var updated := MarkEach(fileList, ts, m);
      MarkWhereAt(fileList, ts, m);
      fileList := updated;
    }

    /** `select`: the files of a chosen subtype become selected. */
    method Select()
      requires Valid()
      modifies this
      ensures Valid()
      ensures fileList == MarkWhere(old(fileList), selectedSubtypes, SetTo(true))
      ensures documentText == old(documentText) && selectedSubtypes == old(selectedSubtypes) && nextId == old(nextId)
    {
      MarkFiles(selectedSubtypes, SetTo(true));
    }

    /** `deselect`: the files of a chosen subtype become unselected. */
    method Deselect()
      requires Valid()
      modifies this
      ensures Valid()
      ensures fileList == MarkWhere(old(fileList), selectedSubtypes, SetTo(false))
      ensures documentText == old(documentText) && selectedSubtypes == old(selectedSubtypes) && nextId == old(nextId)
    {
      MarkFiles(selectedSubtypes, SetTo(false));
    }

    /** `toggle`: the files of a chosen subtype flip. */
    method Toggle()
      requires Valid()
      modifies this
      ensures Valid()
      ensures fileList == MarkWhere(old(fileList), selectedSubtypes, Flip)
      ensures documentText == old(documentText) && selectedSubtypes == old(selectedSubtypes) && nextId == old(nextId)
    {
      MarkFiles(selectedSubtypes, Flip);
    }

    /** `toggleViews`: the SwiftUI views and UIKit view controllers flip. */
    method ToggleViews()
      requires Valid()
      modifies this
      ensures Valid()
      ensures fileList == MarkWhere(old(fileList), ViewTypes, Flip)
      ensures documentText == old(documentText) && selectedSubtypes == old(selectedSubtypes) && nextId == old(nextId)
    {
      MarkFiles(ViewTypes, Flip);
    }

    /** `deselectNonMatching`: the files of a subtype not chosen become unselected. */
    method DeselectNonMatching()
      requires Valid()
      modifies this
      ensures Valid()
      ensures fileList == MarkWhere(old(fileList), NotIn(selectedSubtypes), SetTo(false))
      ensures documentText == old(documentText) && selectedSubtypes == old(selectedSubtypes) && nextId == old(nextId)
    {
      MarkFiles(NotIn(selectedSubtypes), SetTo(false));
    }

    /** `toggleFileTypes` has an empty body. */
    method ToggleFileTypes()
      ensures documentText == old(documentText) && wordCount == old(wordCount) && fileList == old(fileList)
      ensures selectedSubtypes == old(selectedSubtypes) && nextId == old(nextId)
    {
    }

    /** The `map` of `selectAll` and `selectNone`: a new item, with a new id, for every file. */
    method RebuildFiles(b: bool)
      requires Valid()
      modifies this
      ensures Valid()
      ensures fileList == Rebuilt(old(fileList), b, old(nextId))
      ensures nextId == old(nextId) + |old(fileList)|
      ensures documentText == old(documentText) && wordCount == old(wordCount) && selectedSubtypes == old(selectedSubtypes)
    {
      var firstId := nextId;
      var updated := RebuildEach(fileList, b, firstId);
      RebuiltAt(fileList, b, firstId);
      nextId := firstId + |fileList|;
      fileList := updated;
    }

    /** `selectAll`: every file selected, each a new item with a new id. */
    method SelectAll()
      requires Valid()
      modifies this
      ensures Valid()
      ensures fileList == Rebuilt(old(fileList), true, old(nextId))
      ensures nextId == old(nextId) + |old(fileList)|
      ensures documentText == old(documentText) && wordCount == old(wordCount) && selectedSubtypes == old(selectedSubtypes)
    {
      RebuildFiles(true);
    }

    /** `selectNone`: every file unselected, each a new item with a new id. */
    method SelectNone()
      requires Valid()
      modifies this
      ensures Valid()
      ensures fileList == Rebuilt(old(fileList), false, old(nextId))
      ensures nextId == old(nextId) + |old(fileList)|
      ensures documentText == old(documentText) && wordCount == old(wordCount) && selectedSubtypes == old(selectedSubtypes)
    {
      RebuildFiles(false);
    }
  }
}
